/**
 * Staged background workflows (`bg_worker.py`): stages of chains of table writes.
 * The chains of a stage interleave freely; the next stage starts only after every
 * chain of the present one has returned true.
 */
module Workflows {
  import opened Digraphs
  import opened Staleness
  import opened Changelogs

  datatype TaskResult = Returned(ok: bool) | Raised

  /** `run_in_chain`: an exception of the wrapped function becomes a false flag, a false flag becomes an exception. */
  function RunInChain(continueChain: bool, funcRaises: bool): TaskResult {
    if !continueChain then Raised else Returned(!funcRaises)
  }

  /**
   * What a chain comes to when each task is started with what the one before it
   * returned.  `raises` says which of the wrapped functions raise.
   */
  function ChainResult(raises: seq<bool>): TaskResult {
    if raises == [] then Returned(true)
    else
      var n := |raises| - 1;
      var before := ChainResult(raises[..n]);
      if before.Raised? then Raised else RunInChain(before.ok, raises[n])
  }

  /** True when no function raised, false when only the last did; otherwise the chain ends in an exception. */
  lemma {:induction false} ChainResultExactlyWhen(raises: seq<bool>)
    ensures ChainResult(raises) == Returned(true) <==> true !in raises
    ensures ChainResult(raises) == Raised <==> exists i :: 0 <= i < |raises| - 1 && raises[i]
  {
    if raises != [] {
      var n := |raises| - 1;
      ChainResultExactlyWhen(raises[..n]);
      assert raises == raises[..n] + [raises[n]];
      if i :| 0 <= i < n && raises[i] {
        assert raises[..n][i];
      }
    }
  }

  /** `check_results`: the barrier. */
  function CheckResults(results: seq<bool>, canRaise: bool): TaskResult {
    var succeeded := forall i :: 0 <= i < |results| ==> results[i];
    if !succeeded && canRaise then Raised else Returned(succeeded)
  }

  type Plan<T> = seq<seq<seq<T>>>

  /** Table `v` is the `i`-th write of chain `k` in stage `s`. */
  ghost predicate At<T>(plan: Plan<T>, s: nat, k: nat, i: nat, v: T) {
    s < |plan| && k < |plan[s]| && i < |plan[s][k]| && plan[s][k][i] == v
  }

  ghost predicate InPlan<T>(plan: Plan<T>, v: T) {
    exists s: nat, k: nat, i: nat :: At(plan, s, k, i, v)
  }

  ghost predicate Distinct<T(!new)>(plan: Plan<T>) {
    forall s: nat, k: nat, i: nat, s': nat, k': nat, i': nat, v ::
      At(plan, s, k, i, v) && At(plan, s', k', i', v) ==> s == s' && k == k' && i == i'
  }

  /** The write at the first slot is over before the one at the second may begin. */
  predicate SlotBefore(s: nat, k: nat, i: nat, s': nat, k': nat, i': nat) {
    s < s' || (s == s' && k == k' && i < i')
  }

  /** If `u` is written by the plan at all, that write is over before the one of `v` begins. */
  ghost predicate Precedes<T(!new)>(plan: Plan<T>, u: T, v: T) {
    forall s: nat, k: nat, i: nat, s': nat, k': nat, i': nat ::
      At(plan, s, k, i, u) && At(plan, s', k', i', v) ==> SlotBefore(s, k, i, s', k', i')
  }

  /******* Execution *******/

  datatype Chain = Chain(pos: nat, ok: bool)

  /** `written` lists what this run has written; `log` is the stored changelog. */
  datatype Progress<T> = Progress(stage: nat, chains: seq<Chain>, written: set<T>, log: seq<T>)

  datatype Event =
    | Write(k: nat)    // the next task of chain k writes its table and logs it
    | Skip(k: nat)     // the next task of chain k finds nothing to write
    | Break(k: nat)    // the next task of chain k fails: the rest of the chain raises
    | Barrier          // all chains are done: check the results, start the next stage

  function Fresh<T>(plan: Plan<T>, stage: nat): seq<Chain> {
    if stage < |plan| then seq(|plan[stage]|, k => Chain(0, true)) else []
  }

  function Start<T>(plan: Plan<T>, log: seq<T>): Progress<T> {
    Progress(0, Fresh(plan, 0), {}, log)
  }

  ghost predicate ValidProgress<T>(plan: Plan<T>, p: Progress<T>) {
    && p.stage <= |plan|
    && (p.stage < |plan| ==>
          && |p.chains| == |plan[p.stage]|
          && forall k :: 0 <= k < |p.chains| ==> p.chains[k].pos <= |plan[p.stage][k]|)
  }

  ghost predicate Ready<T>(plan: Plan<T>, p: Progress<T>, k: nat) {
    && p.stage < |plan| && k < |p.chains| == |plan[p.stage]|
    && p.chains[k].ok && p.chains[k].pos < |plan[p.stage][k]|
  }

  ghost predicate CanStep<T>(plan: Plan<T>, optional: set<T>, p: Progress<T>, e: Event)
    requires ValidProgress(plan, p)
  {
    match e
    case Write(k) => Ready(plan, p, k)
    case Break(k) => Ready(plan, p, k)
    case Skip(k) => Ready(plan, p, k) && plan[p.stage][k][p.chains[k].pos] in optional
    case Barrier =>
      && p.stage < |plan|
      && (forall k :: 0 <= k < |p.chains| && p.chains[k].ok ==> p.chains[k].pos == |plan[p.stage][k]|)
      && CheckResults(seq(|p.chains|, k requires 0 <= k < |p.chains| => p.chains[k].ok), true) == Returned(true)
  }

  ghost function Advance<T>(plan: Plan<T>, optional: set<T>, p: Progress<T>, e: Event): (next: Progress<T>)
    requires ValidProgress(plan, p) && CanStep(plan, optional, p, e)
    ensures ValidProgress(plan, next)
  {
    match e
    case Write(k) =>
      var v := plan[p.stage][k][p.chains[k].pos];
      Progress(p.stage, p.chains[k := Chain(p.chains[k].pos + 1, RunInChain(p.chains[k].ok, false).ok)],
               p.written + {v}, MoveToEnd(p.log, v))
    case Skip(k) => p.(chains := p.chains[k := Chain(p.chains[k].pos + 1, true)])
    case Break(k) => p.(chains := p.chains[k := Chain(p.chains[k].pos, RunInChain(p.chains[k].ok, true).ok)])
    case Barrier => p.(stage := p.stage + 1, chains := Fresh(plan, p.stage + 1))
  }

  ghost predicate CanRun<T>(plan: Plan<T>, optional: set<T>, p: Progress<T>, events: seq<Event>)
    requires ValidProgress(plan, p)
    decreases |events|
  {
    || events == []
    || (&& CanStep(plan, optional, p, events[0])
        && CanRun(plan, optional, Advance(plan, optional, p, events[0]), events[1..]))
  }

  ghost function After<T>(plan: Plan<T>, optional: set<T>, p: Progress<T>, events: seq<Event>): (end: Progress<T>)
    requires ValidProgress(plan, p) && CanRun(plan, optional, p, events)
    ensures ValidProgress(plan, end)
    decreases |events|
  {
    if events == [] then p else After(plan, optional, Advance(plan, optional, p, events[0]), events[1..])
  }

  ghost predicate Completed<T>(plan: Plan<T>, p: Progress<T>) {
    p.stage == |plan|
  }

  /** A chain that has returned false, or raised, holds its stage for good. */
  lemma {:induction false} StuckAtStage<T>(plan: Plan<T>, optional: set<T>, p: Progress<T>, events: seq<Event>, k: nat)
    requires ValidProgress(plan, p) && CanRun(plan, optional, p, events)
    requires p.stage < |plan| && k < |p.chains| && !p.chains[k].ok
    ensures After(plan, optional, p, events).stage == p.stage
    decreases |events|
  {
    if events != [] {
      var results := seq(|p.chains|, i requires 0 <= i < |p.chains| => p.chains[i].ok);
      assert !results[k] && CheckResults(results, true).Raised?;
      StuckAtStage(plan, optional, Advance(plan, optional, p, events[0]), events[1..], k);
    }
  }

  /** A run that goes on from where another stopped. */
  lemma {:induction false} RunSplits<T>(
      plan: Plan<T>, optional: set<T>, p: Progress<T>, a: seq<Event>, b: seq<Event>)
    requires ValidProgress(plan, p) && CanRun(plan, optional, p, a + b)
    ensures CanRun(plan, optional, p, a) && CanRun(plan, optional, After(plan, optional, p, a), b)
    ensures After(plan, optional, p, a + b) == After(plan, optional, After(plan, optional, p, a), b)
    decreases |a|
  {
    if a == [] {
      assert a + b == b;
    } else {
      assert (a + b)[1..] == a[1..] + b;
      RunSplits(plan, optional, Advance(plan, optional, p, a[0]), a[1..], b);
    }
  }

  /** After a failure no later stage ever begins, so the run never completes. */
  lemma FailureStopsRun<T>(
      plan: Plan<T>, optional: set<T>, p: Progress<T>, before: seq<Event>, k: nat, rest: seq<Event>)
    requires ValidProgress(plan, p) && CanRun(plan, optional, p, before + ([Break(k)] + rest))
    ensures CanRun(plan, optional, p, before)
    ensures var end := After(plan, optional, p, before + ([Break(k)] + rest));
            end.stage == After(plan, optional, p, before).stage && !Completed(plan, end)
  {
    RunSplits(plan, optional, p, before, [Break(k)] + rest);
    var failing := After(plan, optional, p, before);
    assert ([Break(k)] + rest)[1..] == rest;
    StuckAtStage(plan, optional, Advance(plan, optional, failing, Break(k)), rest, k);
  }

  /******* The invariant of every execution *******/

  ghost predicate Done<T>(plan: Plan<T>, p: Progress<T>, s: nat, k: nat, i: nat) {
    s < p.stage || (s == p.stage && k < |p.chains| && i < p.chains[k].pos)
  }

  /** `log0` is the changelog at the start. */
  ghost predicate Tracked<T(!new)>(plan: Plan<T>, optional: set<T>, log0: seq<T>, p: Progress<T>) {
    && ValidProgress(plan, p)
    && (forall v :: v in p.written ==> InPlan(plan, v))
    && (forall v :: v in p.log <==> v in log0 || v in p.written)
    && (forall s: nat, k: nat, i: nat, v :: At(plan, s, k, i, v) && v in p.written ==> Done(plan, p, s, k, i))
    && (forall s: nat, k: nat, i: nat, v ::
          At(plan, s, k, i, v) && Done(plan, p, s, k, i) && v !in optional ==> v in p.written)
    && (forall u, v :: v in p.written && u in p.log && u != v && Precedes(plan, u, v) ==> Before(p.log, u, v))
    && (forall u, v :: u in p.written && v in p.log && v !in p.written ==> Before(p.log, v, u))
    && (forall u, v :: u !in p.written && v !in p.written ==> (Before(p.log, u, v) <==> Before(log0, u, v)))
  }

  lemma StartTracked<T(!new)>(plan: Plan<T>, optional: set<T>, log0: seq<T>)
    ensures Tracked(plan, optional, log0, Start(plan, log0))
  {
  }

  /** What is already written does not have to wait for the next write of a chain. */
  lemma WrittenBeforeNext<T(!new)>(
      plan: Plan<T>, optional: set<T>, log0: seq<T>, p: Progress<T>, k: nat, v: T)
    requires Tracked(plan, optional, log0, p) && Ready(plan, p, k) && v in p.written
    ensures !Precedes(plan, plan[p.stage][k][p.chains[k].pos], v)
  {
    var w := plan[p.stage][k][p.chains[k].pos];
    var s: nat, j: nat, i: nat :| At(plan, s, j, i, v);
    assert At(plan, p.stage, k, p.chains[k].pos, w);
    assert Done(plan, p, s, j, i);
    assert !SlotBefore(p.stage, k, p.chains[k].pos, s, j, i);
  }

  lemma WriteTracked<T(!new)>(plan: Plan<T>, optional: set<T>, log0: seq<T>, p: Progress<T>, k: nat)
    requires Distinct(plan) && Tracked(plan, optional, log0, p) && Ready(plan, p, k)
    ensures Tracked(plan, optional, log0, Advance(plan, optional, p, Write(k)))
  {
    var p' := Advance(plan, optional, p, Write(k));
    var w := plan[p.stage][k][p.chains[k].pos];
    assert At(plan, p.stage, k, p.chains[k].pos, w);
    assert w !in p.written;
    forall v
      ensures v in p'.log <==> v in log0 || v in p'.written
    {
      MoveToEndOrder(p.log, w, v, v);
    }
    forall s: nat, j: nat, i: nat
      ensures Done(plan, p', s, j, i) <==>
              Done(plan, p, s, j, i) || (s == p.stage && j == k && i == p.chains[k].pos)
    {
    }
    forall u, v | v in p'.written && u in p'.log && u != v && Precedes(plan, u, v)
      ensures Before(p'.log, u, v)
    {
      MoveToEndOrder(p.log, w, u, v);
      if u == w {
        WrittenBeforeNext(plan, optional, log0, p, k, v);
      }
    }
    forall u, v | u in p'.written && v in p'.log && v !in p'.written
      ensures Before(p'.log, v, u)
    {
      MoveToEndOrder(p.log, w, v, u);
    }
    forall u, v | u !in p'.written && v !in p'.written
      ensures Before(p'.log, u, v) <==> Before(log0, u, v)
    {
      MoveToEndOrder(p.log, w, u, v);
    }
  }

  lemma StepTracked<T(!new)>(plan: Plan<T>, optional: set<T>, log0: seq<T>, p: Progress<T>, e: Event)
    requires Distinct(plan) && Tracked(plan, optional, log0, p) && CanStep(plan, optional, p, e)
    ensures Tracked(plan, optional, log0, Advance(plan, optional, p, e))
  {
    var p' := Advance(plan, optional, p, e);
    match e {
      case Write(k) => WriteTracked(plan, optional, log0, p, k);
      case Skip(k) =>
        var w := plan[p.stage][k][p.chains[k].pos];
        assert At(plan, p.stage, k, p.chains[k].pos, w);
      case Break(k) =>
      case Barrier =>
        assert forall j :: 0 <= j < |p.chains| ==> p.chains[j].ok by {
          var flags := seq(|p.chains|, j requires 0 <= j < |p.chains| => p.chains[j].ok);
          assert forall j :: 0 <= j < |flags| ==> flags[j] == p.chains[j].ok;
        }
        forall s: nat, j: nat, i: nat, v | At(plan, s, j, i, v)
          ensures Done(plan, p', s, j, i) <==> Done(plan, p, s, j, i)
        {
        }
    }
  }

  lemma {:induction false} RunTracked<T(!new)>(
      plan: Plan<T>, optional: set<T>, log0: seq<T>, p: Progress<T>, events: seq<Event>)
    requires Distinct(plan) && Tracked(plan, optional, log0, p) && CanRun(plan, optional, p, events)
    ensures Tracked(plan, optional, log0, After(plan, optional, p, events))
    decreases |events|
  {
    if events != [] {
      StepTracked(plan, optional, log0, p, events[0]);
      RunTracked(plan, optional, log0, Advance(plan, optional, p, events[0]), events[1..]);
    }
  }

  /******* What the staging must respect *******/

  /** Edge by edge: a written table starts after its inputs are done; a kept table has no rewritten input. */
  ghost predicate Respects<T(!new)>(g: Digraph<T>, plan: Plan<T>, optional: set<T>, t: T) {
    forall u, v :: (u, v) in g.edges && ReachesOrIs(g, v, t) ==>
      && (InPlan(plan, v) ==> v !in optional && Precedes(plan, u, v))
      && (!InPlan(plan, v) ==> !InPlan(plan, u))
  }

  lemma {:induction false} RespectsPaths<T(!new)>(
      g: Digraph<T>, plan: Plan<T>, optional: set<T>, t: T, p: seq<T>, u: T, v: T)
    requires WellFormed(g) && Respects(g, plan, optional, t)
    requires Connects(g.edges, g.nodes, p, u, v) && ReachesOrIs(g, v, t)
    ensures InPlan(plan, v) ==> v !in optional && Precedes(plan, u, v)
    ensures !InPlan(plan, v) ==> !InPlan(plan, u)
    decreases |p|
  {
    var n := |p| - 2;
    var w := p[n];
    assert (p[n], p[n + 1]) in g.edges;
    if |p| > 2 {
      EdgeIsThrough(g.edges, g.nodes, w, v);
      if v != t {
        ReachesJoin(g, w, v, t);
      }
      assert Connects(g.edges, g.nodes, p[..|p| - 1], u, w);
      RespectsPaths(g, plan, optional, t, p[..|p| - 1], u, w);
      if InPlan(plan, v) {
        forall s: nat, k: nat, i: nat, s': nat, k': nat, i': nat |
          At(plan, s, k, i, u) && At(plan, s', k', i', v)
          ensures SlotBefore(s, k, i, s', k', i')
        {
          assert InPlan(plan, u);
          var a: nat, b: nat, c: nat :| At(plan, a, b, c, w);
          assert SlotBefore(s, k, i, a, b, c) && SlotBefore(a, b, c, s', k', i');
        }
      }
    }
  }

  /** Every logged table that `t` rests on and the plan leaves alone was clean before the run. */
  ghost predicate KeptClean<T(!new)>(g: Digraph<T>, plan: Plan<T>, t: T, log0: seq<T>) {
    forall v :: v in g.nodes && v in log0 && ReachesOrIs(g, v, t) && !InPlan(plan, v) ==> Verdict(g, v, log0) == Clean
  }

  lemma OrderAfterRun<T(!new)>(
      g: Digraph<T>, plan: Plan<T>, optional: set<T>, t: T, log0: seq<T>, p: Progress<T>, u: T, v: T)
    requires WellFormed(g) && Respects(g, plan, optional, t)
    requires Tracked(plan, optional, log0, p) && Completed(plan, p)
    requires u in p.log && v in p.log && u != v && Reaches(g, u, v) && ReachesOrIs(g, v, t)
    ensures InPlan(plan, v) ==> Before(p.log, u, v)
    ensures !InPlan(plan, v) ==> (Before(p.log, u, v) <==> Before(log0, u, v)) && u in log0 && v in log0
  {
    var path :| Connects(g.edges, g.nodes, path, u, v);
    RespectsPaths(g, plan, optional, t, path, u, v);
    if InPlan(plan, v) {
      var s: nat, k: nat, i: nat :| At(plan, s, k, i, v);
      assert Done(plan, p, s, k, i);
    }
  }

  lemma NoRewrittenCycle<T(!new)>(
      g: Digraph<T>, plan: Plan<T>, optional: set<T>, t: T, u: T)
    requires WellFormed(g) && Respects(g, plan, optional, t)
    requires Reaches(g, u, u) && ReachesOrIs(g, u, t)
    ensures !InPlan(plan, u)
  {
    var path :| Connects(g.edges, g.nodes, path, u, u);
    RespectsPaths(g, plan, optional, t, path, u, u);
    assert forall s: nat, k: nat, i: nat :: !SlotBefore(s, k, i, s, k, i);
  }

  lemma KeptAncestor<T(!new)>(
      g: Digraph<T>, plan: Plan<T>, optional: set<T>, t: T, v: T, w: T)
    requires WellFormed(g) && Respects(g, plan, optional, t)
    requires ReachesOrIs(g, v, t) && !InPlan(plan, v) && ReachesOrIs(g, w, v)
    ensures !InPlan(plan, w)
  {
    if w != v {
      var path :| Connects(g.edges, g.nodes, path, w, v);
      RespectsPaths(g, plan, optional, t, path, w, v);
    }
  }

  /**
   * A completed run of a staging that respects the graph, in whatever interleaving:
   * the target ends clean exactly when every logged table it rests on that the run
   * did not rewrite was clean already.
   */
  lemma CompletedRun<T(!new)>(
      g: Digraph<T>, plan: Plan<T>, optional: set<T>, t: T, log0: seq<T>, events: seq<Event>)
    requires WellFormed(g) && t in g.nodes && Distinct(plan) && Respects(g, plan, optional, t)
    requires InPlan(plan, t) && t !in optional
    requires CanRun(plan, optional, Start(plan, log0), events)
    requires Completed(plan, After(plan, optional, Start(plan, log0), events))
    ensures Verdict(g, t, After(plan, optional, Start(plan, log0), events).log) == Clean
            <==> KeptClean(g, plan, t, log0)
  {
    var end := After(plan, optional, Start(plan, log0), events);
    StartTracked(plan, optional, log0);
    RunTracked(plan, optional, log0, Start(plan, log0), events);
    var s: nat, k: nat, i: nat :| At(plan, s, k, i, t);
    assert Done(plan, end, s, k, i);
    if KeptClean(g, plan, t, log0) {
      forall u, v | u in end.log && v in end.log && Reaches(g, u, v) && ReachesOrIs(g, v, t)
        ensures Before(end.log, u, v)
      {
        ReachesInside(g, u, v);
        if u == v {
          NoRewrittenCycle(g, plan, optional, t, u);
          assert false;
        }
        OrderAfterRun(g, plan, optional, t, log0, end, u, v);
      }
    }
    if Verdict(g, t, end.log) == Clean {
      forall v | v in g.nodes && v in log0 && ReachesOrIs(g, v, t) && !InPlan(plan, v)
        ensures Verdict(g, v, log0) == Clean
      {
        forall u, w | u in log0 && w in log0 && Reaches(g, u, w) && ReachesOrIs(g, w, v)
          ensures Before(log0, u, w)
        {
          KeptAncestor(g, plan, optional, t, v, w);
          if w != v {
            ReachesJoin(g, w, v, t);
          }
          assert Before(end.log, u, w);
          OrderAfterRun(g, plan, optional, t, log0, end, u, w);
        }
      }
    }
  }

  /**
   * A run that stops anywhere, after rewriting an ancestor of a logged table but
   * not the table itself, leaves that table reported dirty.
   */
  lemma AbandonedRun<T(!new)>(
      g: Digraph<T>, plan: Plan<T>, optional: set<T>, t: T, a: T, log0: seq<T>, events: seq<Event>)
    requires WellFormed(g) && t in g.nodes && t in log0 && Distinct(plan)
    requires CanRun(plan, optional, Start(plan, log0), events)
    requires a in After(plan, optional, Start(plan, log0), events).written && Reaches(g, a, t)
    requires t !in After(plan, optional, Start(plan, log0), events).written
    ensures Verdict(g, t, After(plan, optional, Start(plan, log0), events).log) == Dirty
  {
    var end := After(plan, optional, Start(plan, log0), events);
    StartTracked(plan, optional, log0);
    RunTracked(plan, optional, log0, Start(plan, log0), events);
    assert Before(end.log, t, a) && !Before(end.log, a, t);
  }

  /******* The turn of one task *******/

  /** At this progress the event is the turn of the task at this slot: it writes, or finds nothing to write. */
  ghost predicate TurnOf<T>(plan: Plan<T>, p: Progress<T>, e: Event, s: nat, k: nat, i: nat) {
    p.stage == s && k < |p.chains| && p.chains[k].pos == i && (e == Write(k) || e == Skip(k))
  }

  lemma OneStepDone<T>(plan: Plan<T>, optional: set<T>, p: Progress<T>, e: Event, s: nat, k: nat, i: nat)
    requires ValidProgress(plan, p) && CanStep(plan, optional, p, e)
    requires s < |plan| && k < |plan[s]| && i < |plan[s][k]|
    ensures Done(plan, Advance(plan, optional, p, e), s, k, i) <==>
            Done(plan, p, s, k, i) || TurnOf(plan, p, e, s, k, i)
  {
    if e.Barrier? && p.stage == s {
      var results := seq(|p.chains|, j requires 0 <= j < |p.chains| => p.chains[j].ok);
      assert results[k];
    }
  }

  lemma RunCons<T>(plan: Plan<T>, optional: set<T>, p: Progress<T>, e: Event, rest: seq<Event>)
    requires ValidProgress(plan, p) && CanStep(plan, optional, p, e)
    requires CanRun(plan, optional, Advance(plan, optional, p, e), rest)
    ensures CanRun(plan, optional, p, [e] + rest)
    ensures After(plan, optional, p, [e] + rest) == After(plan, optional, Advance(plan, optional, p, e), rest)
  {
    assert ([e] + rest)[1..] == rest;
  }

  /** A task that has had its turn has had it at some event of the run. */
  lemma {:induction false} TurnExists<T>(
      plan: Plan<T>, optional: set<T>, p: Progress<T>, events: seq<Event>, s: nat, k: nat, i: nat) returns (j: nat)
    requires ValidProgress(plan, p) && CanRun(plan, optional, p, events)
    requires s < |plan| && k < |plan[s]| && i < |plan[s][k]|
    requires !Done(plan, p, s, k, i) && Done(plan, After(plan, optional, p, events), s, k, i)
    ensures j < |events| && CanRun(plan, optional, p, events[..j])
    ensures TurnOf(plan, After(plan, optional, p, events[..j]), events[j], s, k, i)
    decreases |events|
  {
    var next := Advance(plan, optional, p, events[0]);
    OneStepDone(plan, optional, p, events[0], s, k, i);
    if Done(plan, next, s, k, i) {
      j := 0;
      assert events[..0] == [];
    } else {
      var j' := TurnExists(plan, optional, next, events[1..], s, k, i);
      j := j' + 1;
      assert events[..j] == [events[0]] + events[1..][..j'];
      RunCons(plan, optional, p, events[0], events[1..][..j']);
    }
  }

  /** A task that has had its turn gets no other. */
  lemma {:induction false} DoneSettles<T(!new)>(
      plan: Plan<T>, optional: set<T>, p: Progress<T>, events: seq<Event>, s: nat, k: nat, i: nat, v: T)
    requires ValidProgress(plan, p) && CanRun(plan, optional, p, events) && Distinct(plan)
    requires At(plan, s, k, i, v) && Done(plan, p, s, k, i)
    ensures v in After(plan, optional, p, events).written <==> v in p.written
    decreases |events|
  {
    if events != [] {
      var e := events[0];
      OneStepDone(plan, optional, p, e, s, k, i);
      if e.Write? {
        assert At(plan, p.stage, e.k, p.chains[e.k].pos, plan[p.stage][e.k][p.chains[e.k].pos]);
      }
      DoneSettles(plan, optional, Advance(plan, optional, p, e), events[1..], s, k, i, v);
    }
  }

  /** Before its turn a task has not written; whether the run writes its table is decided then. */
  lemma TurnDecides<T(!new)>(
      plan: Plan<T>, optional: set<T>, log0: seq<T>, events: seq<Event>, j: nat, s: nat, k: nat, i: nat, v: T)
    requires Distinct(plan) && At(plan, s, k, i, v) && j < |events|
    requires CanRun(plan, optional, Start(plan, log0), events)
    requires CanRun(plan, optional, Start(plan, log0), events[..j])
    requires TurnOf(plan, After(plan, optional, Start(plan, log0), events[..j]), events[j], s, k, i)
    ensures v !in After(plan, optional, Start(plan, log0), events[..j]).written
    ensures events[j].Write? <==> v in After(plan, optional, Start(plan, log0), events).written
  {
    var start := Start(plan, log0);
    var q, rest := After(plan, optional, start, events[..j]), events[j..];
    assert events == events[..j] + rest && rest[0] == events[j];
    RunSplits(plan, optional, start, events[..j], rest);
    StartTracked(plan, optional, log0);
    RunTracked(plan, optional, log0, start, events[..j]);
    assert v !in q.written;
    OneStepDone(plan, optional, q, events[j], s, k, i);
    DoneSettles(plan, optional, Advance(plan, optional, q, events[j]), rest[1..], s, k, i, v);
  }

  /******* Runs without failures *******/

  ghost predicate Unbroken<T>(p: Progress<T>) {
    forall k :: 0 <= k < |p.chains| ==> p.chains[k].ok
  }

  /** What a chain does next when some of the optional tasks find nothing to write. */
  function NextEvent<T(==)>(v: T, k: nat, skips: set<T>): Event {
    if v in skips then Skip(k) else Write(k)
  }

  lemma NextKeepsGoing<T>(plan: Plan<T>, optional: set<T>, skips: set<T>, p: Progress<T>, k: nat)
    requires ValidProgress(plan, p) && Unbroken(p) && skips <= optional && Ready(plan, p, k)
    ensures var e := NextEvent(plan[p.stage][k][p.chains[k].pos], k, skips);
            && CanStep(plan, optional, p, e)
            && var next := Advance(plan, optional, p, e);
            && Unbroken(next) && next.stage == p.stage && |next.chains| == |p.chains|
            && (forall j :: 0 <= j < |p.chains| ==>
                  next.chains[j].pos == if j == k then p.chains[j].pos + 1 else p.chains[j].pos)
            && forall v :: v in skips ==> (v in next.written <==> v in p.written)
  {
  }

  /**
   * A workflow in which nothing has failed can always complete, and any of its
   * optional tables may stay unwritten.
   */
  lemma {:induction false} CanComplete<T(!new)>(plan: Plan<T>, optional: set<T>, skips: set<T>, p: Progress<T>, k: nat)
      returns (events: seq<Event>)
    requires ValidProgress(plan, p) && skips <= optional
    requires p.stage < |plan| ==>
               Unbroken(p) && k <= |p.chains| && forall j :: 0 <= j < k ==> p.chains[j].pos == |plan[p.stage][j]|
    ensures CanRun(plan, optional, p, events) && Completed(plan, After(plan, optional, p, events))
    ensures forall v :: v in skips ==> (v in After(plan, optional, p, events).written <==> v in p.written)
    decreases |plan| - p.stage, |p.chains| - k,
              if p.stage < |plan| && k < |p.chains| then |plan[p.stage][k]| - p.chains[k].pos else 0
  {
    if p.stage == |plan| {
      events := [];
    } else if k == |p.chains| {
      var rest := CanComplete(plan, optional, skips, Advance(plan, optional, p, Barrier), 0);
      RunCons(plan, optional, p, Barrier, rest);
      events := [Barrier] + rest;
    } else if p.chains[k].pos == |plan[p.stage][k]| {
      events := CanComplete(plan, optional, skips, p, k + 1);
    } else {
      var e := NextEvent(plan[p.stage][k][p.chains[k].pos], k, skips);
      NextKeepsGoing(plan, optional, skips, p, k);
      var rest := CanComplete(plan, optional, skips, Advance(plan, optional, p, e), k);
      RunCons(plan, optional, p, e, rest);
      events := [e] + rest;
    }
  }

  /** A run that never skips is a run whatever is optional. */
  lemma {:induction false} WithoutSkips<T>(plan: Plan<T>, optional: set<T>, p: Progress<T>, events: seq<Event>)
    requires ValidProgress(plan, p) && CanRun(plan, {}, p, events)
    ensures CanRun(plan, optional, p, events) && After(plan, optional, p, events) == After(plan, {}, p, events)
    decreases |events|
  {
    if events != [] {
      WithoutSkips(plan, optional, Advance(plan, {}, p, events[0]), events[1..]);
    }
  }

  /******* A plan of one chain *******/

  function StraightRun(n: nat): seq<Event> {
    if n == 0 then [Barrier] else [Write(0)] + StraightRun(n - 1)
  }

  /** Without failures a single chain runs to its end and logs its tables in order. */
  lemma {:induction false} StraightRunCompletes<T(!new)>(chain: seq<T>, pos: nat, written: set<T>, log: seq<T>)
    requires pos <= |chain|
    ensures var plan := [[chain]];
            var p := Progress(0, [Chain(pos, true)], written, log);
            && CanRun(plan, {}, p, StraightRun(|chain| - pos))
            && var end := After(plan, {}, p, StraightRun(|chain| - pos));
            && Completed(plan, end) && end.log == LogAll(log, chain[pos..])
    decreases |chain| - pos
  {
    var plan := [[chain]];
    var p := Progress(0, [Chain(pos, true)], written, log);
    var events := StraightRun(|chain| - pos);
    var p' := Advance(plan, {}, p, events[0]);
    if pos == |chain| {
      assert events[1..] == [];
      assert After(plan, {}, p, events) == p';
    } else {
      var v := chain[pos];
      assert p' == Progress(0, [Chain(pos + 1, true)], written + {v}, MoveToEnd(log, v));
      StraightRunCompletes(chain, pos + 1, written + {v}, MoveToEnd(log, v));
      assert events[1..] == StraightRun(|chain| - (pos + 1));
      assert chain[pos..][1..] == chain[pos + 1..];
    }
  }

  /** The run of a plan with one chain, from its start. */
  lemma StraightRunLogs<T(!new)>(chain: seq<T>, log: seq<T>) returns (events: seq<Event>)
    ensures CanRun([[chain]], {}, Start([[chain]], log), events)
    ensures var end := After([[chain]], {}, Start([[chain]], log), events);
            Completed([[chain]], end) && end.log == LogAll(log, chain)
  {
    events := StraightRun(|chain| - 0);
    StraightRunCompletes(chain, 0, {}, log);
    assert Start([[chain]], log) == Progress(0, [Chain(0, true)], {}, log);
    assert chain[0..] == chain;
  }
}
