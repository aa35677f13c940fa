/**
 * Tables, views and their rebuilds.  A table write replaces the contents and logs
 * the table in one step; views are computed when they are read.  The question is
 * what a clean answer of the staleness check is worth.
 */
module Warehouse {
  import opened Digraphs
  import opened Staleness
  import opened Changelogs

  /**
   * `graph` is what the staleness check consults; `consults` is what the code that
   * fills a table (or the text of a view) really reads.  A write is logged under the
   * table's `name`, which parts of one stored table share.
   */
  datatype Pipeline<!T, !D> = Pipeline(
    graph: Digraph<T>,
    tables: set<T>,
    views: set<T>,
    name: T -> T,
    consults: map<T, set<T>>,
    build: (T, map<T, D>) -> D,
    rank: map<T, nat>)

  ghost predicate ValidPipeline<T(!new), D>(c: Pipeline<T, D>) {
    && WellFormed(c.graph)
    && c.views <= c.tables
    && (forall x :: x in c.tables ==> c.name(x) in c.graph.nodes)
    && c.consults.Keys == c.tables == c.rank.Keys
    && forall x, y :: x in c.consults && y in c.consults[x] ==> y in c.tables && c.rank[y] < c.rank[x]
  }

  predicate Stored<T(==), D>(c: Pipeline<T, D>, x: T) {
    x in c.tables && x !in c.views
  }

  /** A table that is filled from outside: users and external services. */
  predicate IsBase<T(==), D>(c: Pipeline<T, D>, x: T) {
    Stored(c, x) && (x in c.consults ==> c.consults[x] == {})
  }

  predicate Derived<T(==), D>(c: Pipeline<T, D>, x: T) {
    Stored(c, x) && !IsBase(c, x)
  }

  datatype Store<T, D> = Store(content: map<T, D>, log: seq<T>)

  ghost predicate ValidStore<T(!new), D>(c: Pipeline<T, D>, s: Store<T, D>) {
    forall x :: x in s.content <==> Stored(c, x)
  }

  /** What a query of `x` returns now. */
  function Read<T(==, !new), D>(c: Pipeline<T, D>, s: Store<T, D>, x: T): D
    requires ValidPipeline(c) && ValidStore(c, s) && x in c.tables
    decreases c.rank[x]
  {
    if Stored(c, x) then s.content[x] else BuildNow(c, s, x)
  }

  /** What building `x` from the present state of its inputs gives. */
  function BuildNow<T(==, !new), D>(c: Pipeline<T, D>, s: Store<T, D>, x: T): D
    requires ValidPipeline(c) && ValidStore(c, s) && x in c.tables
    decreases c.rank[x], 0
  {
    c.build(x, map y | y in c.consults[x] :: Read(c, s, y))
  }

  /** What a rebuild of everything from the present base tables gives for `x`. */
  ghost function Recompute<T(!new), D>(c: Pipeline<T, D>, s: Store<T, D>, x: T): D
    requires ValidPipeline(c) && ValidStore(c, s) && x in c.tables
    decreases c.rank[x]
  {
    if IsBase(c, x) then s.content[x]
    else c.build(x, map y | y in c.consults[x] :: Recompute(c, s, y))
  }

  /** What building a table reads, and what it would read if everything were recomputed. */
  ghost function Reads<T(!new), D>(c: Pipeline<T, D>, s: Store<T, D>, x: T): map<T, D>
    requires ValidPipeline(c) && ValidStore(c, s) && x in c.tables
  {
    map y | y in c.consults[x] :: Read(c, s, y)
  }

  ghost function FreshReads<T(!new), D>(c: Pipeline<T, D>, s: Store<T, D>, x: T): map<T, D>
    requires ValidPipeline(c) && ValidStore(c, s) && x in c.tables
  {
    map y | y in c.consults[x] :: Recompute(c, s, y)
  }

  lemma ReadsAt<T(!new), D>(c: Pipeline<T, D>, s: Store<T, D>, x: T, y: T)
    requires ValidPipeline(c) && ValidStore(c, s) && x in c.tables
    ensures y in Reads(c, s, x) <==> y in c.consults[x]
    ensures y in FreshReads(c, s, x) <==> y in c.consults[x]
    ensures y in c.consults[x] ==>
              && y in c.tables && Reads(c, s, x)[y] == Read(c, s, y)
              && FreshReads(c, s, x)[y] == Recompute(c, s, y)
  {
  }

  lemma BuildsReads<T(!new), D>(c: Pipeline<T, D>, s: Store<T, D>, x: T)
    requires ValidPipeline(c) && ValidStore(c, s) && x in c.tables
    ensures BuildNow(c, s, x) == c.build(x, Reads(c, s, x))
    ensures !IsBase(c, x) ==> Recompute(c, s, x) == c.build(x, FreshReads(c, s, x))
  {
  }

  /** The stored tables a read of `x` gets its rows from, through any views. */
  ghost function Sources<T(!new), D>(c: Pipeline<T, D>, x: T): (sources: set<T>)
    requires ValidPipeline(c) && x in c.tables
    decreases c.rank[x]
  {
    if Stored(c, x) then {x} else Inputs(c, x)
  }

  /** The stored tables that building `x` gets its rows from. */
  ghost function Inputs<T(!new), D>(c: Pipeline<T, D>, x: T): (inputs: set<T>)
    requires ValidPipeline(c) && x in c.tables
    decreases c.rank[x], 0
  {
    set y, z | y in c.consults[x] && z in Sources(c, y) :: z
  }

  /******* Steps *******/

  /** `Edit` puts any rows into any stored table, `Rebuild` what its inputs now give. */
  datatype Step<T, D> = Edit(t: T, rows: D) | Rebuild(t: T)

  predicate Enabled<T(==), D>(c: Pipeline<T, D>, step: Step<T, D>) {
    match step
    case Edit(t, _) => Stored(c, t)
    case Rebuild(t) => Derived(c, t)
  }

  ghost function Next<T(!new), D>(c: Pipeline<T, D>, s: Store<T, D>, step: Step<T, D>): (next: Store<T, D>)
    requires ValidPipeline(c) && ValidStore(c, s) && Enabled(c, step)
    ensures ValidStore(c, next)
  {
    var rows := match step case Edit(_, rows) => rows case Rebuild(t) => BuildNow(c, s, t);
    Store(s.content[step.t := rows], MoveToEnd(s.log, c.name(step.t)))
  }

  ghost function Run<T(!new), D>(c: Pipeline<T, D>, s: Store<T, D>, steps: seq<Step<T, D>>): (end: Store<T, D>)
    requires ValidPipeline(c) && ValidStore(c, s)
    requires forall step :: step in steps ==> Enabled(c, step)
    ensures ValidStore(c, end)
    decreases |steps|
  {
    if steps == [] then s
    else Run(c, Next(c, s, steps[0]), steps[1..])
  }

  lemma {:induction false} RunAppend<T(!new), D>(
      c: Pipeline<T, D>, s: Store<T, D>, a: seq<Step<T, D>>, b: seq<Step<T, D>>)
    requires ValidPipeline(c) && ValidStore(c, s)
    requires forall step :: step in a + b ==> Enabled(c, step)
    requires forall step :: step in a || step in b ==> Enabled(c, step)
    ensures Run(c, s, a + b) == Run(c, Run(c, s, a), b)
    decreases |a|
  {
    if a == [] {
      assert a + b == b;
    } else {
      assert (a + b)[1..] == a[1..] + b && (a + b)[0] == a[0];
      RunAppend(c, Next(c, s, a[0]), a[1..], b);
    }
  }

  /** A table that no step of a run writes keeps its rows. */
  lemma {:induction false} RunKeeps<T(!new), D>(
      c: Pipeline<T, D>, s: Store<T, D>, steps: seq<Step<T, D>>, x: T)
    requires ValidPipeline(c) && ValidStore(c, s) && Stored(c, x)
    requires forall step :: step in steps ==> Enabled(c, step) && step.t != x
    ensures Run(c, s, steps).content[x] == s.content[x]
    decreases |steps|
  {
    if steps != [] {
      RunKeeps(c, Next(c, s, steps[0]), steps[1..], x);
    }
  }

  /******* Histories *******/

  /** What a run leaves of a step: the table it wrote, and whether by a rebuild. */
  datatype Entry<T> = Entry(t: T, rebuild: bool)

  function History<T, D>(steps: seq<Step<T, D>>): (entries: seq<Entry<T>>)
    ensures |entries| == |steps|
    ensures forall i :: 0 <= i < |steps| ==> entries[i] == Entry(steps[i].t, steps[i].Rebuild?)
  {
    seq(|steps|, i requires 0 <= i < |steps| => Entry(steps[i].t, steps[i].Rebuild?))
  }

  function Touched<T>(entries: seq<Entry<T>>): (tables: seq<T>)
    ensures |tables| == |entries| && forall i :: 0 <= i < |entries| ==> tables[i] == entries[i].t
  {
    seq(|entries|, i requires 0 <= i < |entries| => entries[i].t)
  }

  /** The names under which a history was logged. */
  function Names<T, D>(c: Pipeline<T, D>, entries: seq<Entry<T>>): (names: seq<T>)
    ensures |names| == |entries| && forall i :: 0 <= i < |entries| ==> names[i] == c.name(entries[i].t)
  {
    seq(|entries|, i requires 0 <= i < |entries| => c.name(entries[i].t))
  }

  function LastWrite<T(==)>(entries: seq<Entry<T>>, t: T): (i: int)
    ensures -1 <= i < |entries|
    ensures i >= 0 ==> entries[i].t == t
    ensures forall k :: i < k < |entries| ==> entries[k].t != t
  {
    LastOf(Touched(entries), t)
  }

  lemma LastWriteAppend<T>(a: seq<Entry<T>>, b: seq<Entry<T>>, t: T)
    ensures LastWrite(a + b, t) == if LastWrite(b, t) >= 0 then |a| + LastWrite(b, t) else LastWrite(a, t)
  {
    assert Touched(a + b) == Touched(a) + Touched(b);
    LastOfAppend(Touched(a), Touched(b), t);
  }

  /** The last write of a table was a rebuild. */
  predicate LastRebuilt<T(==)>(entries: seq<Entry<T>>, t: T) {
    LastWrite(entries, t) >= 0 && entries[LastWrite(entries, t)].rebuild
  }

  /** No input of `x` has been written since `x` was. */
  ghost predicate InputsOlder<T(!new), D>(c: Pipeline<T, D>, entries: seq<Entry<T>>, x: T)
    requires ValidPipeline(c) && x in c.tables
  {
    forall z :: z in Inputs(c, x) ==> LastWrite(entries, z) < LastWrite(entries, x)
  }

  lemma {:induction false} RunLogs<T(!new), D>(c: Pipeline<T, D>, s: Store<T, D>, steps: seq<Step<T, D>>)
    requires ValidPipeline(c) && ValidStore(c, s)
    requires forall step :: step in steps ==> Enabled(c, step)
    ensures Run(c, s, steps).log == LogAll(s.log, Names(c, History(steps)))
    decreases |steps|
  {
    if steps != [] {
      RunLogs(c, Next(c, s, steps[0]), steps[1..]);
      assert Names(c, History(steps))[1..] == Names(c, History(steps[1..]));
    }
  }

  lemma {:induction false} SourcesBelow<T(!new), D>(c: Pipeline<T, D>, x: T, z: T)
    requires ValidPipeline(c) && x in c.tables && z in Sources(c, x)
    ensures Stored(c, z) && c.rank[z] <= c.rank[x]
    ensures !Stored(c, x) ==> c.rank[z] < c.rank[x]
    decreases c.rank[x]
  {
    if !Stored(c, x) {
      var y :| y in c.consults[x] && z in Sources(c, y);
      SourcesBelow(c, y, z);
    }
  }

  lemma InputsBelow<T(!new), D>(c: Pipeline<T, D>, x: T, z: T)
    requires ValidPipeline(c) && x in c.tables && z in Inputs(c, x)
    ensures Stored(c, z) && c.rank[z] < c.rank[x]
  {
    var y :| y in c.consults[x] && z in Sources(c, y);
    SourcesBelow(c, y, z);
  }

  /** A builder that goes through no view gets its rows from exactly the tables it names. */
  lemma InputsAreConsulted<T(!new), D>(c: Pipeline<T, D>, x: T)
    requires ValidPipeline(c) && x in c.tables
    requires forall y :: y in c.consults[x] ==> Stored(c, y)
    ensures Inputs(c, x) == c.consults[x]
  {
    forall y | y in c.consults[x]
      ensures Sources(c, y) == {y}
    {
    }
    forall z
      ensures z in Inputs(c, x) <==> z in c.consults[x]
    {
      if z in c.consults[x] {
        assert z in Sources(c, z);
      }
    }
  }

  /** A read depends on its sources only. */
  lemma {:induction false} ReadFrame<T(!new), D>(c: Pipeline<T, D>, s: Store<T, D>, s': Store<T, D>, x: T)
    requires ValidPipeline(c) && ValidStore(c, s) && ValidStore(c, s') && x in c.tables
    requires forall z :: z in Sources(c, x) && Stored(c, z) ==> s.content[z] == s'.content[z]
    ensures Read(c, s, x) == Read(c, s', x)
    decreases c.rank[x], 1
  {
    if !Stored(c, x) {
      BuildFrame(c, s, s', x);
    }
  }

  lemma {:induction false} BuildFrame<T(!new), D>(c: Pipeline<T, D>, s: Store<T, D>, s': Store<T, D>, x: T)
    requires ValidPipeline(c) && ValidStore(c, s) && ValidStore(c, s') && x in c.tables
    requires forall z :: z in Inputs(c, x) && Stored(c, z) ==> s.content[z] == s'.content[z]
    ensures BuildNow(c, s, x) == BuildNow(c, s', x)
    decreases c.rank[x], 0
  {
    forall y | y in c.consults[x]
      ensures Read(c, s, y) == Read(c, s', y)
    {
      ReadFrame(c, s, s', y);
    }
    assert (map y | y in c.consults[x] :: Read(c, s, y)) == (map y | y in c.consults[x] :: Read(c, s', y));
  }

  lemma KeptSince<T(!new), D>(c: Pipeline<T, D>, s: Store<T, D>, steps: seq<Step<T, D>>, k: nat, z: T)
    requires ValidPipeline(c) && ValidStore(c, s) && Stored(c, z) && LastWrite(History(steps), z) <= k < |steps|
    requires forall step :: step in steps ==> Enabled(c, step)
    ensures forall step :: step in steps[k + 1..] ==> Enabled(c, step)
    ensures Run(c, s, steps[k + 1..]).content[z] == s.content[z]
  {
    var rest := steps[k + 1..];
    forall step | step in rest
      ensures Enabled(c, step) && step.t != z
    {
      var i :| 0 <= i < |rest| && rest[i] == step;
      assert step == steps[k + 1 + i] && History(steps)[k + 1 + i].t == step.t;
    }
    RunKeeps(c, s, rest, z);
  }

  lemma RunSplit<T(!new), D>(c: Pipeline<T, D>, s: Store<T, D>, steps: seq<Step<T, D>>, k: nat)
    requires ValidPipeline(c) && ValidStore(c, s) && k < |steps|
    requires forall step :: step in steps ==> Enabled(c, step)
    ensures (forall step :: step in steps[..k] || step in steps[k + 1..] ==> Enabled(c, step)) && Enabled(c, steps[k])
    ensures Run(c, s, steps) == Run(c, Next(c, Run(c, s, steps[..k]), steps[k]), steps[k + 1..])
  {
    assert steps[k] in steps;
    assert steps == steps[..k] + steps[k..];
    RunAppend(c, s, steps[..k], steps[k..]);
    assert steps[k..][0] == steps[k] && steps[k..][1..] == steps[k + 1..];
  }

  lemma NeverWritten<T(!new), D>(c: Pipeline<T, D>, s: Store<T, D>, steps: seq<Step<T, D>>, x: T)
    requires ValidPipeline(c) && ValidStore(c, s) && Stored(c, x) && LastWrite(History(steps), x) < 0
    requires forall step :: step in steps ==> Enabled(c, step)
    ensures Run(c, s, steps).content[x] == s.content[x]
  {
    forall step | step in steps
      ensures step.t != x
    {
      var i :| 0 <= i < |steps| && steps[i] == step;
      assert History(steps)[i].t == step.t;
    }
    RunKeeps(c, s, steps, x);
  }

  lemma LastEdited<T(!new), D>(c: Pipeline<T, D>, s: Store<T, D>, steps: seq<Step<T, D>>, x: T)
    requires ValidPipeline(c) && ValidStore(c, s) && Stored(c, x)
    requires forall step :: step in steps ==> Enabled(c, step)
    requires LastWrite(History(steps), x) >= 0 && steps[LastWrite(History(steps), x)].Edit?
    ensures Run(c, s, steps).content[x] == steps[LastWrite(History(steps), x)].rows
  {
    var k := LastWrite(History(steps), x);
    RunSplit(c, s, steps, k);
    KeptSince(c, Next(c, Run(c, s, steps[..k]), steps[k]), steps, k, x);
  }

  /**
   * In every run a computed table whose last write was a rebuild, with no input
   * written since, holds what building it now would give.
   */
  lemma RebuiltIsCurrent<T(!new), D>(c: Pipeline<T, D>, s0: Store<T, D>, steps: seq<Step<T, D>>, x: T)
    requires ValidPipeline(c) && ValidStore(c, s0) && Derived(c, x)
    requires forall step :: step in steps ==> Enabled(c, step)
    requires LastRebuilt(History(steps), x) && InputsOlder(c, History(steps), x)
    ensures Run(c, s0, steps).content[x] == BuildNow(c, Run(c, s0, steps), x)
  {
    var k := LastWrite(History(steps), x);
    RunSplit(c, s0, steps, k);
    var before := Run(c, s0, steps[..k]);
    var built := Next(c, before, steps[k]);
    var end := Run(c, s0, steps);
    KeptSince(c, built, steps, k, x);
    forall z | z in Inputs(c, x)
      ensures Stored(c, z) && before.content[z] == end.content[z]
    {
      InputsBelow(c, x, z);
      KeptSince(c, built, steps, k, z);
    }
    BuildFrame(c, before, end, x);
  }

  /******* Soundness of "clean" *******/

  /** A set of tables that contains whatever its members are computed from, each as its inputs now give it. */
  ghost predicate Settled<T(!new), D>(c: Pipeline<T, D>, s: Store<T, D>, tables: set<T>)
    requires ValidPipeline(c) && ValidStore(c, s)
  {
    forall x :: x in tables && Derived(c, x) ==> Inputs(c, x) <= tables && s.content[x] == BuildNow(c, s, x)
  }

  lemma SourcesOfInput<T(!new), D>(c: Pipeline<T, D>, x: T, y: T)
    requires ValidPipeline(c) && x in c.tables && y in c.consults[x]
    ensures Sources(c, y) <= Inputs(c, x)
  {
  }

  /** A recomputation starts from the base tables and sees nothing else. */
  lemma {:induction false} RecomputeFrame<T(!new), D>(c: Pipeline<T, D>, s: Store<T, D>, s': Store<T, D>, x: T)
    requires ValidPipeline(c) && ValidStore(c, s) && ValidStore(c, s') && x in c.tables
    requires forall z :: IsBase(c, z) ==> s.content[z] == s'.content[z]
    ensures Recompute(c, s, x) == Recompute(c, s', x)
    decreases c.rank[x]
  {
    if !IsBase(c, x) {
      forall y | y in c.consults[x]
        ensures Recompute(c, s, y) == Recompute(c, s', y)
      {
        RecomputeFrame(c, s, s', y);
      }
      assert (map y | y in c.consults[x] :: Recompute(c, s, y)) == (map y | y in c.consults[x] :: Recompute(c, s', y));
    }
  }

  /** Inside a settled set every read gives what a full recomputation gives. */
  lemma {:induction false} SettledReadsFresh<T(!new), D>(c: Pipeline<T, D>, s: Store<T, D>, tables: set<T>, x: T)
    requires ValidPipeline(c) && ValidStore(c, s) && Settled(c, s, tables)
    requires x in c.tables && Sources(c, x) <= tables
    ensures Read(c, s, x) == Recompute(c, s, x)
    decreases c.rank[x]
  {
    if !IsBase(c, x) {
      assert Inputs(c, x) <= tables;
      forall y | y in c.consults[x]
        ensures Read(c, s, y) == Recompute(c, s, y)
      {
        SourcesOfInput(c, x, y);
        SettledReadsFresh(c, s, tables, y);
      }
      assert (map y | y in c.consults[x] :: Read(c, s, y)) == (map y | y in c.consults[x] :: Recompute(c, s, y));
      assert BuildNow(c, s, x) == Recompute(c, s, x);
    }
  }

  /** `t` rests on `x`, or is `x`, as far as the dependency graph says. */
  ghost predicate Feeds<T(!new), D>(c: Pipeline<T, D>, x: T, t: T) {
    ReachesOrIs(c.graph, c.name(x), c.name(t))
  }

  /** No other table is logged under the name of `x`. */
  ghost predicate Sole<T(!new), D>(c: Pipeline<T, D>, x: T) {
    forall y :: c.name(y) == c.name(x) ==> y == x
  }

  /** The read of `z` to fill `x` is declared in the dependency graph, or listed. */
  ghost predicate DeclaresRead<T(!new), D>(c: Pipeline<T, D>, t: T, undeclared: set<(T, T)>, x: T, z: T)
    requires ValidPipeline(c)
  {
    Derived(c, x) && Feeds(c, x, t) && z in Inputs(c, x) ==>
      && Feeds(c, z, t)
      && ((z, x) in undeclared || (Reaches(c.graph, c.name(z), c.name(x)) && Sole(c, x)))
  }

  /**
   * Everything that filling `t` or a table above it reads is declared in the
   * dependency graph, but for the listed pairs (read table, filled table).
   */
  ghost predicate DeclaresReads<T(!new), D>(c: Pipeline<T, D>, t: T, undeclared: set<(T, T)>)
    requires ValidPipeline(c)
  {
    forall x, z :: DeclaresRead(c, t, undeclared, x, z)
  }

  /** Every computed table that `t` rests on was last written by a rebuild. */
  ghost predicate AllRebuilt<T(!new), D>(c: Pipeline<T, D>, entries: seq<Entry<T>>, t: T) {
    forall v :: Derived(c, v) && Feeds(c, v, t) ==> LastRebuilt(entries, v)
  }

  /** The guards that undeclared reads call for: the reader was filled after the table it reads. */
  ghost predicate GuardsHold<T(!new)>(entries: seq<Entry<T>>, undeclared: set<(T, T)>) {
    forall z, x :: (z, x) in undeclared ==> LastWrite(entries, z) < LastWrite(entries, x)
  }

  /** What the staleness check says of `t` after a history that began with an empty changelog. */
  ghost predicate ReportedClean<T(!new), D>(c: Pipeline<T, D>, entries: seq<Entry<T>>, t: T) {
    Verdict(c.graph, c.name(t), LogAll([], Names(c, entries))) == Clean
  }

  lemma LastName<T(!new), D>(c: Pipeline<T, D>, entries: seq<Entry<T>>, t: T)
    ensures LastWrite(entries, t) <= LastOf(Names(c, entries), c.name(t))
    ensures Sole(c, t) ==> LastWrite(entries, t) == LastOf(Names(c, entries), c.name(t))
  {
    var i, j := LastWrite(entries, t), LastOf(Names(c, entries), c.name(t));
    if i >= 0 {
      assert Names(c, entries)[i] == c.name(t);
    }
    if j >= 0 && Sole(c, t) {
      assert entries[j].t == t;
    }
  }

  /** A declared read that the check passed: the table read was written earlier. */
  lemma CleanReadIsOlder<T(!new), D>(c: Pipeline<T, D>, entries: seq<Entry<T>>, t: T, x: T, z: T)
    requires ReportedClean(c, entries, t) && Feeds(c, x, t) && Sole(c, x)
    requires Reaches(c.graph, c.name(z), c.name(x)) && LastWrite(entries, x) >= 0
    ensures LastWrite(entries, z) < LastWrite(entries, x)
  {
    var names := Names(c, entries);
    LastName(c, entries, x);
    LastName(c, entries, z);
    if LastWrite(entries, z) >= 0 {
      LogHolds(names, c.name(z));
      LogHolds(names, c.name(x));
      assert Before(LogAll([], names), c.name(z), c.name(x));
      LogByLast(names, c.name(z), c.name(x));
    }
  }

  /** A rebuilt table of a clean history whose undeclared reads are guarded is as its inputs now give it. */
  lemma CleanIsCurrent<T(!new), D>(
      c: Pipeline<T, D>, s0: Store<T, D>, steps: seq<Step<T, D>>, t: T, undeclared: set<(T, T)>, x: T)
    requires ValidPipeline(c) && ValidStore(c, s0)
    requires forall step :: step in steps ==> Enabled(c, step)
    requires DeclaresReads(c, t, undeclared) && ReportedClean(c, History(steps), t)
    requires Derived(c, x) && Feeds(c, x, t) && LastRebuilt(History(steps), x)
    requires forall z :: (z, x) in undeclared ==> LastWrite(History(steps), z) < LastWrite(History(steps), x)
    ensures Run(c, s0, steps).content[x] == BuildNow(c, Run(c, s0, steps), x)
  {
    forall z | z in Inputs(c, x)
      ensures LastWrite(History(steps), z) < LastWrite(History(steps), x)
    {
      assert DeclaresRead(c, t, undeclared, x, z);
      if (z, x) !in undeclared {
        CleanReadIsOlder(c, History(steps), t, x, z);
      }
    }
    RebuiltIsCurrent(c, s0, steps, x);
  }

  /** Where everything that `t` rests on is as its inputs now give it, so is `t` as the base tables give it. */
  lemma CurrentIsFresh<T(!new), D>(c: Pipeline<T, D>, s: Store<T, D>, t: T, undeclared: set<(T, T)>)
    requires ValidPipeline(c) && ValidStore(c, s) && Stored(c, t) && DeclaresReads(c, t, undeclared)
    requires forall x :: Derived(c, x) && Feeds(c, x, t) ==> s.content[x] == BuildNow(c, s, x)
    ensures s.content[t] == Recompute(c, s, t)
  {
    var tables := set v | v in c.tables && Feeds(c, v, t);
    forall x | x in tables && Derived(c, x)
      ensures Inputs(c, x) <= tables
    {
      forall z | z in Inputs(c, x)
        ensures z in tables
      {
        assert DeclaresRead(c, t, undeclared, x, z);
        InputsBelow(c, x, z);
      }
    }
    SettledReadsFresh(c, s, tables, t);
  }

  /**
   * Soundness.  From any stored contents and an empty changelog, after any run of
   * edits and rebuilds: a stored table that is reported clean, all of whose computed
   * ancestors were last written by a rebuild and whose undeclared reads are guarded,
   * holds exactly what a full recomputation from the present base tables would give.
   */
  lemma CleanIsFresh<T(!new), D>(
      c: Pipeline<T, D>, s0: Store<T, D>, steps: seq<Step<T, D>>, t: T, undeclared: set<(T, T)>)
    requires ValidPipeline(c) && ValidStore(c, s0)
    requires forall step :: step in steps ==> Enabled(c, step)
    requires Stored(c, t) && DeclaresReads(c, t, undeclared) && ReportedClean(c, History(steps), t)
    requires AllRebuilt(c, History(steps), t) && GuardsHold(History(steps), undeclared)
    ensures Run(c, s0, steps).content[t] == Recompute(c, Run(c, s0, steps), t)
  {
    var end := Run(c, s0, steps);
    forall x | Derived(c, x) && Feeds(c, x, t)
      ensures end.content[x] == BuildNow(c, end, x)
    {
      CleanIsCurrent(c, s0, steps, t, undeclared, x);
    }
    CurrentIsFresh(c, end, t, undeclared);
  }

  /******* The table object *******/

  class Database<T(==, !new), D(==)> {
    var content: map<T, D>
    var log: seq<T>

    ghost function View(): Store<T, D>
      reads this
    {
      Store(content, log)
    }

    constructor (content: map<T, D>)
      ensures View() == Store(content, [])
    {
      this.content, log := content, [];
    }

    /** `_delete_and_replace_db`: delete, append, record the change. */
    method DeleteAndReplace(t: T, rows: D)
      modifies this
      ensures View() == Store(old(content)[t := rows], MoveToEnd(old(log), t))
    {
      content := map x | x in content && x != t :: content[x];
      content := content[t := rows];
      log := MoveToEnd(log, t);
    }

    /** A refresh task: build the rows from what the task reads now, then replace the table. */
    method Refresh(c: Pipeline<T, D>, t: T)
      requires ValidPipeline(c) && ValidStore(c, View()) && Derived(c, t) && c.name(t) == t
      modifies this
      ensures ValidStore(c, View())
      ensures View() == Next(c, old(View()), Rebuild(t))
    {
      var rows := BuildNow(c, Store(content, log), t);
      DeleteAndReplace(t, rows);
    }
  }

  /** An edit of a table that is no ancestor of `t` leaves the verdict on `t` and its rows as they were. */
  lemma UndeclaredReadGoesUnnoticed<T(!new), D>(c: Pipeline<T, D>, s: Store<T, D>, t: T, y: T, rows: D)
    requires ValidPipeline(c) && ValidStore(c, s)
    requires Stored(c, t) && Stored(c, y) && !Feeds(c, y, t)
    ensures Verdict(c.graph, c.name(t), Next(c, s, Edit(y, rows)).log) == Verdict(c.graph, c.name(t), s.log)
    ensures Next(c, s, Edit(y, rows)).content[t] == s.content[t]
  {
    var log', n, m := Next(c, s, Edit(y, rows)).log, c.name(t), c.name(y);
    MoveToEndOrder(s.log, m, n, n);
    forall u, v | Reaches(c.graph, u, v) && ReachesOrIs(c.graph, v, n)
      ensures u in log' && v in log' <==> u in s.log && v in s.log
      ensures Before(log', u, v) <==> Before(s.log, u, v)
    {
      if v != n {
        ReachesJoin(c.graph, u, v, n);
      }
      MoveToEndOrder(s.log, m, u, v);
      MoveToEndOrder(s.log, m, v, u);
    }
  }
}
