/**
 * `Singleton.apply_async` as its loop runs it, against a store that other clients and
 * workers change between any two of its own operations.
 */
module Singletons {
  import opened Options
  import opened SingletonLock

  /** `RedisBackend`: each operation is atomic. */
  class RedisBackend {
    var keys: map<Key, nat>

    constructor ()
      ensures keys == map[]
    {
      keys := map[];
    }

    /** SET with NX. */
    method Lock(lock: Key, taskId: nat) returns (set_: bool)
      modifies this
      ensures set_ == (lock !in old(keys))
      ensures keys == if set_ then old(keys)[lock := taskId] else old(keys)
    {
      set_ := lock !in keys;
      if set_ {
        keys := keys[lock := taskId];
      }
    }

    method Unlock(lock: Key)
      modifies this
      ensures keys == old(keys) - {lock}
    {
      keys := keys - {lock};
    }

    method Get(lock: Key) returns (taskId: Option<nat>)
      ensures taskId == if lock in keys then Some(keys[lock]) else None
    {
      taskId := if lock in keys then Some(keys[lock]) else None;
    }
  }

  /** A step that another call, or a worker, takes. */
  predicate OfOthers(step: Step, c: nat) {
    match step
    case Start(_) => true
    case TryLock(i) => i != c
    case Enqueue(i) => i != c
    case EnqueueFails(i) => i != c
    case Unlock(i) => i != c
    case Get(i) => i != c
    case Finish(_) => true
    case SendTask(_) => true
  }

  predicate AllOfOthers(batch: seq<Step>, c: nat) {
    forall step :: step in batch ==> OfOthers(step, c)
  }

  lemma OthersLeaveCallAlone(st: State, step: Step, c: nat)
    requires c < |st.calls| && OfOthers(step, c)
    ensures c < |Next(st, step).calls|
    ensures var now, was := Next(st, step).calls[c], st.calls[c];
            now == was.(unlocks := now.unlocks)
  {
  }

  lemma {:induction false} BatchLeavesCallAlone(st: State, batch: seq<Step>, c: nat)
    requires c < |st.calls| && AllOfOthers(batch, c)
    ensures c < |Run(st, batch).calls|
    ensures var now, was := Run(st, batch).calls[c], st.calls[c];
            now == was.(unlocks := now.unlocks)
  {
    if batch != [] {
      BatchLeavesCallAlone(st, batch[..|batch| - 1], c);
      OthersLeaveCallAlone(Run(st, batch[..|batch| - 1]), batch[|batch| - 1], c);
    }
  }

  /** How a call ends: the new task, an error of the broker, or an answer about a duplicate. */
  datatype Answer = AsyncResult(id: nat) | BrokerError | DuplicateTaskError(id: nat)

  predicate Answers(pc: Pc, c: nat, raiseOnDuplicate: bool, answer: Answer) {
    match pc
    case Submitted => answer == AsyncResult(c)
    case Raised => answer == BrokerError
    case Duplicate(d) => answer == if raiseOnDuplicate then DuplicateTaskError(d) else AsyncResult(d)
    case _ => false
  }

  /** The world of one call: the store, the step system it belongs to, and what the others will do. */
  class World {
    const backend: RedisBackend
    var st: State
    var schedule: seq<seq<Step>>
    ghost var trace: seq<Step>

    constructor (st: State, backend: RedisBackend, schedule: seq<seq<Step>>)
      requires backend.keys == st.locks
      ensures this.backend == backend && this.st == st && this.schedule == schedule && trace == []
    {
      this.backend, this.st, this.schedule, trace := backend, st, schedule, [];
    }

    /** The store shows the locks of the step system, which has come from `from` by `trace`. */
    ghost predicate Valid(from: State, c: nat)
      reads this, backend
    {
      && backend.keys == st.locks && st == Run(from, trace) && c < |st.calls|
      && forall batch :: batch in schedule ==> AllOfOthers(batch, c)
    }

    ghost predicate Is(c: nat, key: Key, pc: Pc)
      reads this
    {
      At(st, c, pc) && st.calls[c].key == key
    }

    /** The call's own step, beside the operation on the store that it stands for. */
    method Take(ghost from: State, step: Step)
      requires st == Run(from, trace)
      modifies this`st, this`trace
      ensures st == Next(old(st), step) && trace == old(trace) + [step]
      ensures st == Run(from, trace)
    {
      RunSnoc(from, trace, step);
      trace := trace + [step];
      st := Next(st, step);
    }

    /** The others take their next batch of steps, if any is left. */
    method Others(ghost from: State, c: nat)
      requires Valid(from, c)
      modifies this, backend
      ensures Valid(from, c) && old(trace) <= trace
      ensures st.calls[c] == old(st.calls[c]).(unlocks := st.calls[c].unlocks)
      ensures old(schedule) == [] ==> schedule == [] && st == old(st)
      ensures old(schedule) != [] ==> |schedule| < |old(schedule)|
    {
      if schedule != [] {
        var batch := schedule[0];
        assert batch in schedule;
        BatchLeavesCallAlone(st, batch, c);
        RunAppend(from, trace, batch);
        schedule := schedule[1..];
        st := Run(st, batch);
        trace := trace + batch;
        backend.keys := st.locks;
      }
    }

    /** `aquire_lock`. */
    method AcquireLock(ghost from: State, c: nat, key: Key) returns (acquired: bool)
      requires Valid(from, c) && Is(c, key, Trying)
      modifies this, backend
      ensures Valid(from, c) && old(trace) <= trace && schedule == old(schedule)
      ensures acquired == (key !in old(st.locks)) && Is(c, key, if acquired then Submitting else Getting)
    {
      acquired := backend.Lock(key, c);
      Take(from, TryLock(c));
    }

    method Queue(ghost from: State, c: nat, key: Key)
      requires Valid(from, c) && Is(c, key, Submitting)
      modifies this
      ensures Valid(from, c) && old(trace) <= trace && schedule == old(schedule) && Is(c, key, Submitted)
    {
      Take(from, Enqueue(c));
    }

    method FailToQueue(ghost from: State, c: nat, key: Key)
      requires Valid(from, c) && Is(c, key, Submitting)
      modifies this
      ensures Valid(from, c) && old(trace) <= trace && schedule == old(schedule) && Is(c, key, Unlocking)
    {
      Take(from, EnqueueFails(c));
    }

    method GiveBack(ghost from: State, c: nat, key: Key)
      requires Valid(from, c) && Is(c, key, Unlocking)
      modifies this, backend
      ensures Valid(from, c) && old(trace) <= trace && schedule == old(schedule) && Is(c, key, Raised)
    {
      backend.Unlock(key);
      Take(from, Unlock(c));
    }

    /** `lock_and_run`; None when the lock is taken. */
    method LockAndRun(ghost from: State, c: nat, key: Key, brokerFails: bool) returns (task: Option<Answer>)
      requires Valid(from, c) && Is(c, key, Trying)
      modifies this, backend
      ensures Valid(from, c) && old(trace) <= trace && |schedule| <= |old(schedule)|
      ensures task.None? <==> key in old(st.locks)
      ensures task.None? ==> Is(c, key, Getting) && schedule == old(schedule)
      ensures task.Some? ==> task.value == (if brokerFails then BrokerError else AsyncResult(c))
                             && Is(c, key, if brokerFails then Raised else Submitted)
    {
      var acquired := AcquireLock(from, c, key);
      if !acquired {
        return None;
      }
      Others(from, c);
      if brokerFails {
        FailToQueue(from, c, key);
        Others(from, c);
        GiveBack(from, c, key);
        return Some(BrokerError);
      }
      Queue(from, c, key);
      return Some(AsyncResult(c));
    }

    /** `get_existing_task_id`. */
    method GetExistingTaskId(ghost from: State, c: nat, key: Key) returns (existing: Option<nat>)
      requires Valid(from, c) && Is(c, key, Getting)
      modifies this
      ensures Valid(from, c) && old(trace) <= trace && schedule == old(schedule)
      ensures existing == if key in old(st.locks) then Some(old(st.locks)[key]) else None
      ensures st.locks == old(st.locks)
      ensures Is(c, key, if existing.Some? then Duplicate(existing.value) else Trying)
    {
      existing := backend.Get(key);
      Take(from, Get(c));
    }

    /** `lock_and_run` and, where that does not end the call, `get_existing_task_id`. */
    method Attempt(ghost from: State, c: nat, key: Key, brokerFails: bool)
        returns (task: Option<Answer>, existing: Option<nat>)
      requires Valid(from, c) && Is(c, key, Trying)
      modifies this, backend
      ensures Valid(from, c) && old(trace) <= trace && |schedule| <= |old(schedule)|
      ensures task.Some? ==> task.value == (if brokerFails then BrokerError else AsyncResult(c))
                             && Is(c, key, if brokerFails then Raised else Submitted)
      ensures task.None? ==> Is(c, key, if existing.Some? then Duplicate(existing.value) else Trying)
      ensures task.None? && existing.None? ==> key !in st.locks
      ensures key !in old(st.locks) ==> task.Some?
    {
      existing := None;
      task := LockAndRun(from, c, key, brokerFails);
      if task.None? {
        Others(from, c);
        existing := GetExistingTaskId(from, c, key);
      }
    }

    /**
     * `apply_async`, from the call's first step to its answer: it ends whatever the
     * others do, as one of the runs of the step system, with the answer its call ended on.
     */
    method ApplyAsync(ghost from: State, c: nat, key: Key, brokerFails: bool, raiseOnDuplicate: bool)
        returns (answer: Answer)
      requires Valid(from, c) && Is(c, key, Trying)
      modifies this, backend
      ensures Valid(from, c) && old(trace) <= trace
      ensures Ended(st.calls[c].pc) && st.calls[c].key == key
      ensures Answers(st.calls[c].pc, c, raiseOnDuplicate, answer)
      ensures answer == AsyncResult(c) <== st.calls[c].pc == Submitted
      ensures answer == BrokerError <==> st.calls[c].pc == Raised
      ensures st.calls[c].pc.Duplicate? ==>
                answer == if raiseOnDuplicate then DuplicateTaskError(st.calls[c].pc.of)
                          else AsyncResult(st.calls[c].pc.of)
    {
      var task, existing := Attempt(from, c, key, brokerFails);
      if task.Some? {
        return task.value;
      }
      while existing.None?
        invariant Valid(from, c) && old(trace) <= trace
        invariant Is(c, key, if existing.Some? then Duplicate(existing.value) else Trying)
        invariant existing.None? ==> key !in st.locks
        decreases |schedule|
      {
        Others(from, c);
        task, existing := Attempt(from, c, key, brokerFails);
        if task.Some? {
          return task.value;
        }
      }
      return if raiseOnDuplicate then DuplicateTaskError(existing.value) else AsyncResult(existing.value);
    }
  }
}
