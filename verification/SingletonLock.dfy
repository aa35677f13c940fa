/**
 * The task locks of `Singleton`: clients submit tasks through `apply_async`, workers
 * finish them, and all of them share a key-value store with an atomic set-if-absent.
 * A task id is the position of its call.
 */
module SingletonLock {
  type Key = string

  /** Where a call of `apply_async` is. */
  datatype Pc =
    | Trying
    | Submitting
    | Unlocking
    | Getting
    | Submitted
    | Raised
    | Duplicate(of: nat)

  /**
   * A call, with counts kept for the proofs: its failed attempts to lock, its own
   * steps, and how often its key has been unlocked since it began.
   */
  datatype Call = Call(key: Key, pc: Pc, fails: nat, steps: nat, unlocks: nat)

  /** `flight` holds the tasks that are queued or running. */
  datatype State = State(locks: map<Key, nat>, calls: seq<Call>, flight: set<nat>)

  datatype Step =
    | Start(key: Key)
    | TryLock(call: nat)
    | Enqueue(call: nat)
    | EnqueueFails(call: nat)
    | Unlock(call: nat)
    | Get(call: nat)
    | Finish(task: nat)
    | SendTask(key: Key)

  const INIT := State(map[], [], {})

  /** `DEL`: every call for the key sees one more unlock. */
  function Delete(st: State, key: Key): (next: State)
    ensures |next.calls| == |st.calls|
    ensures forall i :: 0 <= i < |st.calls| ==>
              next.calls[i] == if st.calls[i].key == key then st.calls[i].(unlocks := st.calls[i].unlocks + 1)
                               else st.calls[i]
  {
    st.(locks := st.locks - {key},
        calls := seq(|st.calls|, i requires 0 <= i < |st.calls| =>
          if st.calls[i].key == key then st.calls[i].(unlocks := st.calls[i].unlocks + 1) else st.calls[i]))
  }

  predicate At(st: State, c: nat, pc: Pc) {
    c < |st.calls| && st.calls[c].pc == pc
  }

  function Move(st: State, c: nat, pc: Pc): (next: State)
    requires c < |st.calls|
  {
    var call := st.calls[c];
    st.(calls := st.calls[c := call.(pc := pc, steps := call.steps + 1,
                                     fails := if pc == Getting then call.fails + 1 else call.fails)])
  }

  /** A step that is not enabled changes nothing. */
  function Next(st: State, step: Step): State {
    match step
    case Start(key) => st.(calls := st.calls + [Call(key, Trying, 0, 0, 0)])
    case TryLock(c) =>
      if !At(st, c, Trying) then st
      else if st.calls[c].key in st.locks then Move(st, c, Getting)
      else Move(st.(locks := st.locks[st.calls[c].key := c]), c, Submitting)
    case Enqueue(c) =>
      if At(st, c, Submitting) then Move(st.(flight := st.flight + {c}), c, Submitted) else st
    case EnqueueFails(c) =>
      if At(st, c, Submitting) then Move(st, c, Unlocking) else st
    case Unlock(c) =>
      if At(st, c, Unlocking) then Move(Delete(st, st.calls[c].key), c, Raised) else st
    case Get(c) =>
      if !At(st, c, Getting) then st
      else
        var key := st.calls[c].key;
        Move(st, c, if key in st.locks then Duplicate(st.locks[key]) else Trying)
    case Finish(t) =>
      if t in st.flight && t < |st.calls| then Delete(st, st.calls[t].key).(flight := st.flight - {t}) else st
    case SendTask(key) =>
      st.(calls := st.calls + [Call(key, Submitted, 0, 0, 0)], flight := st.flight + {|st.calls|})
  }

  function Run(st: State, steps: seq<Step>): State {
    if steps == [] then st else Next(Run(st, steps[..|steps| - 1]), steps[|steps| - 1])
  }

  lemma RunSnoc(st: State, steps: seq<Step>, step: Step)
    ensures Run(st, steps + [step]) == Next(Run(st, steps), step)
  {
    assert (steps + [step])[..|steps|] == steps;
  }

  lemma {:induction false} RunAppend(st: State, a: seq<Step>, b: seq<Step>)
    ensures Run(st, a + b) == Run(Run(st, a), b)
    decreases |b|
  {
    if b == [] {
      assert a + b == a;
    } else {
      RunAppend(st, a, b[..|b| - 1]);
      assert a + b == (a + b[..|b| - 1]) + [b[|b| - 1]];
      RunSnoc(st, a + b[..|b| - 1], b[|b| - 1]);
    }
  }

  /******* Mutual exclusion *******/

  /** Between taking the lock and giving it back. */
  predicate Holds(st: State, t: nat) {
    t < |st.calls| && (st.calls[t].pc == Submitting || st.calls[t].pc == Unlocking || t in st.flight)
  }

  /** A key is set exactly while some task holds it, and names that task. */
  ghost predicate LocksMatch(st: State) {
    && (forall t :: t in st.flight ==> At(st, t, Submitted))
    && (forall t: nat :: Holds(st, t) ==> st.calls[t].key in st.locks && st.locks[st.calls[t].key] == t)
    && (forall k :: k in st.locks ==> Holds(st, st.locks[k]) && st.calls[st.locks[k]].key == k)
  }

  lemma StartKeepsLocks(st: State, key: Key)
    requires LocksMatch(st)
    ensures LocksMatch(Next(st, Start(key)))
  {
    var next := Next(st, Start(key));
    assert forall t: nat :: Holds(next, t) ==> Holds(st, t);
  }

  lemma TryLockKeepsLocks(st: State, c: nat)
    requires LocksMatch(st)
    ensures LocksMatch(Next(st, TryLock(c)))
  {
    var next := Next(st, TryLock(c));
    if At(st, c, Trying) {
      assert !Holds(st, c);
      assert forall t: nat :: t != c ==> (Holds(next, t) <==> Holds(st, t));
    }
  }

  /** A step of a call that leaves the locks and the holders as they are. */
  lemma MoveKeepsLocks(st: State, step: Step)
    requires LocksMatch(st) && (step.Enqueue? || step.EnqueueFails? || step.Get?)
    ensures LocksMatch(Next(st, step))
  {
    var next := Next(st, step);
    assert next.locks == st.locks;
    assert forall t: nat :: Holds(next, t) <==> Holds(st, t);
  }

  /** When a holder unlocks, its key goes and every other holder stays. */
  lemma UnlockKeepsLocks(st: State, step: Step, t: nat)
    requires LocksMatch(st) && Holds(st, t)
    requires step == Finish(t) || (step == Unlock(t) && At(st, t, Unlocking))
    requires step == Finish(t) ==> t in st.flight
    ensures LocksMatch(Next(st, step))
  {
    var next := Next(st, step);
    assert t in st.flight ==> At(st, t, Submitted);
    assert next.locks == st.locks - {st.calls[t].key};
    assert !Holds(next, t);
    assert forall i: nat :: i != t ==> (Holds(next, i) <==> Holds(st, i));
  }

  lemma StepKeepsLocks(st: State, step: Step)
    requires LocksMatch(st) && !step.SendTask?
    ensures LocksMatch(Next(st, step))
  {
    match step {
      case Start(key) => StartKeepsLocks(st, key);
      case TryLock(c) => TryLockKeepsLocks(st, c);
      case Unlock(c) =>
        if At(st, c, Unlocking) {
          UnlockKeepsLocks(st, step, c);
        }
      case Finish(t) =>
        if t in st.flight {
          assert At(st, t, Submitted);
          UnlockKeepsLocks(st, step, t);
        }
      case _ => MoveKeepsLocks(st, step);
    }
  }

  predicate NoBypass(steps: seq<Step>) {
    forall step :: step in steps ==> !step.SendTask?
  }

  lemma {:induction false} RunKeepsLocks(st: State, steps: seq<Step>)
    requires LocksMatch(st) && NoBypass(steps)
    ensures LocksMatch(Run(st, steps))
  {
    if steps != [] {
      RunKeepsLocks(st, steps[..|steps| - 1]);
      StepKeepsLocks(Run(st, steps[..|steps| - 1]), steps[|steps| - 1]);
    }
  }

  /**
   * In every run a key has at most one task being submitted or in flight, and the key
   * is set exactly when there is one, to its id - failed submissions included.
   */
  lemma MutualExclusion(steps: seq<Step>, i: nat, j: nat, k: Key)
    requires NoBypass(steps)
    ensures var st := Run(INIT, steps);
            && (Holds(st, i) && Holds(st, j) && st.calls[i].key == st.calls[j].key ==> i == j)
            && (k in st.locks <==> exists t: nat :: Holds(st, t) && st.calls[t].key == k)
            && (Holds(st, i) ==> st.calls[i].key in st.locks && st.locks[st.calls[i].key] == i)
  {
    RunKeepsLocks(INIT, steps);
  }

  /** Once every call has ended and every task is finished, no key is left behind. */
  lemma NothingLeftLocked(steps: seq<Step>)
    requires NoBypass(steps)
    requires var st := Run(INIT, steps);
             st.flight == {} && forall c :: c in st.calls ==> c.pc != Submitting && c.pc != Unlocking
    ensures Run(INIT, steps).locks == map[]
  {
    RunKeepsLocks(INIT, steps);
    var st := Run(INIT, steps);
    forall t: nat
      ensures !Holds(st, t)
    {
      if t < |st.calls| {
        assert st.calls[t] in st.calls;
      }
    }
    assert st.locks.Keys == {};
  }

  /** A finished task is no longer in flight and leaves its key to the next call that tries. */
  lemma FinishFreesKey(st: State, t: nat, c: nat)
    requires LocksMatch(st) && t in st.flight && At(st, c, Trying) && st.calls[c].key == st.calls[t].key
    ensures var done := Next(st, Finish(t));
            && done.flight == st.flight - {t} && done.locks == st.locks - {st.calls[t].key} && !Holds(done, t)
            && At(Next(done, TryLock(c)), c, Submitting)
            && st.calls[t].key in Next(done, TryLock(c)).locks && Next(done, TryLock(c)).locks[st.calls[t].key] == c
  {
    assert At(st, t, Submitted);
    var done := Next(st, Finish(t));
    assert At(done, t, Submitted) && At(done, c, Trying);
  }

  /** The steps by which a holder gives its key back. */
  function Release(st: State, t: nat): (steps: seq<Step>)
    ensures NoBypass(steps)
  {
    if At(st, t, Submitting) then [Enqueue(t), Finish(t)]
    else if At(st, t, Unlocking) then [Unlock(t)]
    else [Finish(t)]
  }

  lemma RunOne(st: State, step: Step)
    ensures Run(st, [step]) == Next(st, step)
  {
    assert [step][..0] == [];
  }

  lemma RunTwo(st: State, a: Step, b: Step)
    ensures Run(st, [a, b]) == Next(Next(st, a), b)
  {
    assert [a, b][..1] == [a];
    RunOne(st, a);
  }

  lemma HolderCanRelease(st: State, t: nat)
    requires LocksMatch(st) && Holds(st, t)
    ensures Run(st, Release(st, t)).locks == st.locks - {st.calls[t].key}
  {
    if At(st, t, Submitting) {
      RunTwo(st, Enqueue(t), Finish(t));
      assert At(Next(st, Enqueue(t)), t, Submitted);
    } else if At(st, t, Unlocking) {
      RunOne(st, Unlock(t));
    } else {
      assert At(st, t, Submitted);
      RunOne(st, Finish(t));
    }
  }

  lemma NoBypassAppend(a: seq<Step>, b: seq<Step>)
    requires NoBypass(a) && NoBypass(b)
    ensures NoBypass(a + b)
  {
  }

  /** Nothing is queued, running or half submitted, and no key is set. */
  predicate Idle(st: State) {
    && st.flight == {} && st.locks == map[]
    && forall c :: c in st.calls ==> c.pc != Submitting && c.pc != Unlocking
  }

  lemma UnlockedIsIdle(st: State)
    requires LocksMatch(st) && st.locks == map[]
    ensures Idle(st)
  {
    forall t | t in st.flight
      ensures false
    {
      assert At(st, t, Submitted);
      assert Holds(st, t);
    }
    forall i | 0 <= i < |st.calls|
      ensures st.calls[i].pc != Submitting && st.calls[i].pc != Unlocking
    {
      assert !Holds(st, i);
    }
  }

  /** Every run without a bypass can go on, without one, until nothing is left in flight or locked. */
  lemma {:induction false} CanDrain(st: State) returns (rest: seq<Step>)
    requires LocksMatch(st)
    ensures NoBypass(rest) && Idle(Run(st, rest))
    decreases |st.locks|
  {
    if st.locks == map[] {
      rest := [];
      UnlockedIsIdle(st);
    } else {
      var k :| k in st.locks;
      var t := st.locks[k];
      var first := Release(st, t);
      HolderCanRelease(st, t);
      RunKeepsLocks(st, first);
      assert |st.locks - {k}| < |st.locks| by {
        assert (st.locks - {k}).Keys == st.locks.Keys - {k};
      }
      var then_ := CanDrain(Run(st, first));
      rest := first + then_;
      RunAppend(st, first, then_);
      NoBypassAppend(first, then_);
    }
  }

  lemma EveryRunCanDrain(steps: seq<Step>) returns (rest: seq<Step>)
    requires NoBypass(steps)
    ensures NoBypass(steps + rest) && Idle(Run(INIT, steps + rest))
  {
    RunKeepsLocks(INIT, steps);
    rest := CanDrain(Run(INIT, steps));
    RunAppend(INIT, steps, rest);
    NoBypassAppend(steps, rest);
  }

  /******* Exclusion past the locks *******/

  ghost predicate Exclusive(st: State) {
    forall i: nat, j: nat :: Holds(st, i) && Holds(st, j) && st.calls[i].key == st.calls[j].key ==> i == j
  }

  /** Each holder has its key to itself, and the key is set, to whatever id. */
  ghost predicate Shielded(st: State) {
    Exclusive(st) && forall t: nat :: Holds(st, t) ==> st.calls[t].key in st.locks
  }

  /** What is queued or running has been submitted: true of every run, locks or no locks. */
  ghost predicate FlightSubmitted(st: State) {
    forall t :: t in st.flight ==> At(st, t, Submitted)
  }

  lemma StepKeepsFlight(st: State, step: Step)
    requires FlightSubmitted(st)
    ensures FlightSubmitted(Next(st, step))
  {
  }

  lemma {:induction false} RunKeepsFlight(steps: seq<Step>)
    ensures FlightSubmitted(Run(INIT, steps))
  {
    if steps != [] {
      RunKeepsFlight(steps[..|steps| - 1]);
      StepKeepsFlight(Run(INIT, steps[..|steps| - 1]), steps[|steps| - 1]);
    }
  }

  /** A step after which only old holders hold, and no key is given back. */
  lemma SameHoldersStayShielded(st: State, next: State)
    requires Shielded(st) && |st.calls| <= |next.calls| && st.locks.Keys <= next.locks.Keys
    requires forall t: nat :: t < |st.calls| ==> next.calls[t].key == st.calls[t].key
    requires forall t: nat :: Holds(next, t) ==> Holds(st, t)
    ensures Shielded(next)
  {
  }

  lemma TryLockKeepsShield(st: State, c: nat)
    requires FlightSubmitted(st) && Shielded(st)
    ensures Shielded(Next(st, TryLock(c)))
  {
    var next := Next(st, TryLock(c));
    if At(st, c, Trying) {
      assert forall t: nat :: Holds(next, t) && t != c ==> Holds(st, t) && next.calls[t].key == st.calls[t].key;
      assert !Holds(st, c);
      if st.calls[c].key in st.locks {
        assert !Holds(next, c);
      } else {
        assert forall t: nat :: Holds(st, t) ==> st.calls[t].key != st.calls[c].key;
      }
    }
  }

  /** A holder that gives its key back was the only one of that key. */
  lemma UnlockKeepsShield(st: State, step: Step, t: nat)
    requires FlightSubmitted(st) && Shielded(st) && Holds(st, t)
    requires step == Finish(t) || (step == Unlock(t) && At(st, t, Unlocking))
    requires step == Finish(t) ==> t in st.flight
    ensures Shielded(Next(st, step))
  {
    var next := Next(st, step);
    assert t in st.flight ==> At(st, t, Submitted);
    assert next.locks == st.locks - {st.calls[t].key};
    assert forall i: nat :: Holds(next, i) ==> Holds(st, i) && i != t && next.calls[i].key == st.calls[i].key;
  }

  lemma StepKeepsShield(st: State, step: Step)
    requires FlightSubmitted(st) && Shielded(st) && !step.SendTask?
    ensures Shielded(Next(st, step))
  {
    match step {
      case TryLock(c) => TryLockKeepsShield(st, c);
      case Unlock(c) =>
        if At(st, c, Unlocking) {
          UnlockKeepsShield(st, step, c);
        }
      case Finish(t) =>
        if t in st.flight && t < |st.calls| {
          UnlockKeepsShield(st, step, t);
        }
      case _ => SameHoldersStayShielded(st, Next(st, step));
    }
  }

  lemma {:induction false} RunKeepsShield(st: State, steps: seq<Step>)
    requires FlightSubmitted(st) && Shielded(st) && NoBypass(steps)
    ensures FlightSubmitted(Run(st, steps)) && Shielded(Run(st, steps))
  {
    if steps != [] {
      var before := Run(st, steps[..|steps| - 1]);
      RunKeepsShield(st, steps[..|steps| - 1]);
      StepKeepsFlight(before, steps[|steps| - 1]);
      StepKeepsShield(before, steps[|steps| - 1]);
    }
  }

  /** A new call joins a holder whose key is not set. */
  lemma JoinsHolder(st: State, t: nat) returns (rest: seq<Step>)
    requires Holds(st, t) && st.calls[t].key !in st.locks
    ensures NoBypass(rest) && !Exclusive(Run(st, rest))
  {
    var key, n := st.calls[t].key, |st.calls|;
    rest := [Start(key), TryLock(n)];
    RunTwo(st, Start(key), TryLock(n));
    var started := Next(st, Start(key));
    assert At(started, n, Trying) && Holds(started, t);
    var end := Run(st, rest);
    assert Holds(end, n) && Holds(end, t) && end.calls[n].key == end.calls[t].key;
  }

  /**
   * From whatever state: no run without further bypass ever lets two tasks of a key be
   * submitted or in flight at once - exactly when none do now and the key of each is set.
   */
  lemma ExclusionLastsExactlyWhen(st: State)
    requires FlightSubmitted(st)
    ensures Shielded(st) <==> forall rest :: NoBypass(rest) ==> Exclusive(Run(st, rest))
  {
    if Shielded(st) {
      forall rest | NoBypass(rest)
        ensures Exclusive(Run(st, rest))
      {
        RunKeepsShield(st, rest);
      }
    } else if !Exclusive(st) {
      assert Run(st, []) == st;
      assert NoBypass([]) && !Exclusive(Run(st, []));
    } else {
      var t: nat :| Holds(st, t) && st.calls[t].key !in st.locks;
      var rest := JoinsHolder(st, t);
    }
  }

  /** A task sent past the lock is not shielded: its key is another's, or not set. */
  lemma SentIsUnshielded(st: State, key: Key)
    requires LocksMatch(st)
    ensures !Shielded(Next(st, SendTask(key)))
  {
    var next, n := Next(st, SendTask(key)), |st.calls|;
    assert Holds(next, n) && next.calls[n].key == key;
    if key in st.locks {
      var t := st.locks[key];
      assert Holds(st, t) && st.calls[t].key == key && t != n;
      assert Holds(next, t) && next.calls[t].key == key;
    }
  }

  /**
   * `celery_app.send_task` queues a task without its lock, and the task unlocks its key
   * when done.  While locks and holders match, a step keeps exclusion for good - in
   * every later run without a bypass - exactly when it is no such bypass: one is
   * enough, whatever the key and whoever holds it.
   */
  lemma BypassBreaksExclusion(st: State, step: Step)
    requires LocksMatch(st)
    ensures !step.SendTask? <==> forall rest :: NoBypass(rest) ==> Exclusive(Run(Next(st, step), rest))
  {
    StepKeepsFlight(st, step);
    ExclusionLastsExactlyWhen(Next(st, step));
    if step.SendTask? {
      SentIsUnshielded(st, step.key);
    } else {
      StepKeepsLocks(st, step);
    }
  }

  /******* Retries *******/

  ghost predicate Bounded(st: State, c: Call) {
    match c.pc
    case Trying => c.fails <= c.unlocks && c.steps == 2 * c.fails
    case Getting => c.fails <= c.unlocks + (if c.key in st.locks then 1 else 0) && c.steps + 1 == 2 * c.fails
    case Submitting => c.fails <= c.unlocks && c.steps == 2 * c.fails + 1
    case Unlocking => c.fails <= c.unlocks && c.steps == 2 * c.fails + 2
    case Submitted => c.fails <= c.unlocks && c.steps <= 2 * c.fails + 2
    case Raised => c.fails <= c.unlocks && c.steps == 2 * c.fails + 3
    case Duplicate(_) => c.fails <= c.unlocks + 1 && c.steps == 2 * c.fails
  }

  ghost predicate AllBounded(st: State) {
    forall i :: 0 <= i < |st.calls| ==> Bounded(st, st.calls[i])
  }

  lemma DeleteKeepsBounded(st: State, key: Key, c: Call)
    requires Bounded(st, c)
    ensures Bounded(Delete(st, key), if c.key == key then c.(unlocks := c.unlocks + 1) else c)
  {
  }

  lemma OwnStepKeepsBounded(st: State, step: Step, i: nat)
    requires i < |st.calls| && Bounded(st, st.calls[i])
    requires step in [TryLock(i), Enqueue(i), EnqueueFails(i), Unlock(i), Get(i)]
    ensures Bounded(Next(st, step), Next(st, step).calls[i])
  {
  }

  lemma OtherStepKeepsBounded(st: State, step: Step, i: nat)
    requires i < |st.calls| && Bounded(st, st.calls[i])
    requires step !in [TryLock(i), Enqueue(i), EnqueueFails(i), Unlock(i), Get(i)]
    ensures Bounded(Next(st, step), Next(st, step).calls[i])
  {
    match step {
      case Unlock(c) =>
        if c < |st.calls| {
          DeleteKeepsBounded(st, st.calls[c].key, st.calls[i]);
        }
      case Finish(t) =>
        if t < |st.calls| {
          DeleteKeepsBounded(st, st.calls[t].key, st.calls[i]);
        }
      case _ =>
    }
  }

  lemma StepKeepsBounded(st: State, step: Step)
    requires AllBounded(st)
    ensures AllBounded(Next(st, step))
  {
    var next := Next(st, step);
    forall i | 0 <= i < |next.calls|
      ensures Bounded(next, next.calls[i])
    {
      if i < |st.calls| {
        if step in [TryLock(i), Enqueue(i), EnqueueFails(i), Unlock(i), Get(i)] {
          OwnStepKeepsBounded(st, step, i);
        } else {
          OtherStepKeepsBounded(st, step, i);
        }
      }
    }
  }

  lemma {:induction false} RunKeepsBounded(st: State, steps: seq<Step>)
    requires AllBounded(st)
    ensures AllBounded(Run(st, steps))
  {
    if steps != [] {
      RunKeepsBounded(st, steps[..|steps| - 1]);
      StepKeepsBounded(Run(st, steps[..|steps| - 1]), steps[|steps| - 1]);
    }
  }

  predicate Ended(pc: Pc) {
    pc == Submitted || pc == Raised || pc.Duplicate?
  }

  /** The steps a call can take next. */
  function Choices(c: nat, pc: Pc): seq<Step> {
    match pc
    case Trying => [TryLock(c)]
    case Getting => [Get(c)]
    case Submitting => [Enqueue(c), EnqueueFails(c)]
    case Unlocking => [Unlock(c)]
    case _ => []
  }

  /**
   * A call fails to lock at most once more than its key is unlocked while it lasts, so
   * it ends within `2 * unlocks + 3` steps of its own; until it has ended it can
   * always take one more, whatever the others do.
   */
  lemma RetryBound(steps: seq<Step>, c: nat)
    requires c < |Run(INIT, steps).calls|
    ensures var st := Run(INIT, steps);
            && st.calls[c].fails <= st.calls[c].unlocks + 1
            && st.calls[c].steps <= 2 * st.calls[c].unlocks + 3
            && (Ended(st.calls[c].pc) <==> Choices(c, st.calls[c].pc) == [])
            && (forall step :: step in Choices(c, st.calls[c].pc) ==>
                  Next(st, step).calls[c].steps == st.calls[c].steps + 1)
  {
    RunKeepsBounded(INIT, steps);
    var st := Run(INIT, steps);
    assert Bounded(st, st.calls[c]);
  }

  /******* What a duplicate means *******/

  /** A call that got the lock at some time. */
  predicate Acquired(pc: Pc) {
    pc == Submitting || pc == Unlocking || pc == Submitted || pc == Raised
  }

  ghost predicate DuplicatesMeanHolders(st: State) {
    forall i :: 0 <= i < |st.calls| && st.calls[i].pc.Duplicate? ==>
      var d := st.calls[i].pc.of;
      d < |st.calls| && d != i && st.calls[d].key == st.calls[i].key && Acquired(st.calls[d].pc)
  }

  /** The id a `GET` returns is that of the task that holds the key at that moment. */
  lemma DuplicateHeldTheKey(steps: seq<Step>, c: nat)
    requires NoBypass(steps) && At(Run(INIT, steps), c, Getting)
    ensures var st := Run(INIT, steps);
            var pc := Next(st, Get(c)).calls[c].pc;
            if pc.Duplicate? then Holds(st, pc.of) && st.calls[pc.of].key == st.calls[c].key
            else pc == Trying && forall t: nat :: Holds(st, t) ==> st.calls[t].key != st.calls[c].key
  {
    RunKeepsLocks(INIT, steps);
  }

  lemma StepKeepsDuplicates(st: State, step: Step)
    requires LocksMatch(st) && DuplicatesMeanHolders(st) && !step.SendTask?
    ensures DuplicatesMeanHolders(Next(st, step))
  {
    var next := Next(st, step);
    forall i | 0 <= i < |next.calls| && next.calls[i].pc.Duplicate?
      ensures var d := next.calls[i].pc.of;
              d < |next.calls| && d != i && next.calls[d].key == next.calls[i].key && Acquired(next.calls[d].pc)
    {
      if i < |st.calls| && st.calls[i].pc.Duplicate? {
        var d := st.calls[i].pc.of;
        assert d < |st.calls| && Acquired(st.calls[d].pc);
      }
    }
  }

  /** Whenever `apply_async` answers with an existing task, that id belongs to a call that had locked the same key. */
  lemma {:induction false} DuplicatesAreReal(steps: seq<Step>)
    requires NoBypass(steps)
    ensures DuplicatesMeanHolders(Run(INIT, steps))
  {
    if steps != [] {
      DuplicatesAreReal(steps[..|steps| - 1]);
      RunKeepsLocks(INIT, steps[..|steps| - 1]);
      StepKeepsDuplicates(Run(INIT, steps[..|steps| - 1]), steps[|steps| - 1]);
    }
  }

  lemma {:induction false} SubmittedStays(st: State, t: nat, steps: seq<Step>)
    requires At(st, t, Submitted)
    ensures At(Run(st, steps), t, Submitted)
  {
    if steps != [] {
      SubmittedStays(st, t, steps[..|steps| - 1]);
    }
  }

  /** A submission that has not gone through can still fail. */
  lemma SubmissionCanFail(st: State, holder: nat) returns (rest: seq<Step>)
    requires At(st, holder, Submitting) || At(st, holder, Unlocking)
    ensures NoBypass(rest) && At(Run(st, rest), holder, Raised)
  {
    if At(st, holder, Submitting) {
      rest := [EnqueueFails(holder), Unlock(holder)];
      RunTwo(st, EnqueueFails(holder), Unlock(holder));
      assert At(Next(st, EnqueueFails(holder)), holder, Unlocking);
    } else {
      rest := [Unlock(holder)];
      assert rest[..0] == [];
      assert Run(st, rest) == Next(st, Unlock(holder));
    }
  }

  /**
   * An answer "duplicate of" names the holder of the key.  No later run lets the
   * submission of that task fail - exactly when it had gone through before the answer;
   * a holder that is still submitting, or already giving its lock back, may never run.
   */
  lemma DuplicateRunsExactlyWhen(st: State, holder: nat, asking: nat)
    requires LocksMatch(st) && Holds(st, holder) && At(st, asking, Getting)
    requires st.calls[holder].key == st.calls[asking].key
    ensures At(Next(st, Get(asking)), asking, Duplicate(holder))
    ensures At(st, holder, Submitted) <==>
            forall rest :: NoBypass(rest) ==> !At(Run(Next(st, Get(asking)), rest), holder, Raised)
  {
    var answered := Next(st, Get(asking));
    if At(st, holder, Submitted) {
      forall rest | NoBypass(rest)
        ensures !At(Run(answered, rest), holder, Raised)
      {
        SubmittedStays(answered, holder, rest);
      }
    } else {
      var rest := SubmissionCanFail(answered, holder);
      assert NoBypass(rest);
    }
  }
}
