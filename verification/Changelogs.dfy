/**
 * The stored changelog (`database/changelog.py`): one time stamp per table name,
 * updated or inserted each time a table is written.
 */
module Changelogs {
  import opened Staleness

  function Without<T(==)>(log: seq<T>, t: T): (rest: seq<T>)
    ensures t !in rest && |rest| <= |log|
  {
    if log == [] then []
    else if log[0] == t then Without(log[1..], t)
    else [log[0]] + Without(log[1..], t)
  }

  /** Logging a table makes it the latest entry and keeps the order of the others. */
  function MoveToEnd<T(==)>(log: seq<T>, t: T): (moved: seq<T>)
    ensures t in moved
  {
    Without(log, t) + [t]
  }

  lemma {:induction false} WithoutAbsent<T>(log: seq<T>, t: T)
    requires t !in log
    ensures Without(log, t) == log
  {
    if log != [] {
      WithoutAbsent(log[1..], t);
    }
  }

  lemma {:induction false} WithoutKeepsOthers<T>(log: seq<T>, t: T, u: T)
    requires u != t
    ensures u in Without(log, t) <==> u in log
  {
    if log != [] {
      WithoutKeepsOthers(log[1..], t, u);
    }
  }

  lemma {:induction false} WithoutKeepsOrder<T>(log: seq<T>, t: T, u: T, v: T)
    requires u != t && v != t
    ensures Before(Without(log, t), u, v) <==> Before(log, u, v)
  {
    if log != [] {
      var rest := log[1..];
      WithoutKeepsOrder(rest, t, u, v);
      WithoutKeepsOthers(rest, t, u);
      WithoutKeepsOthers(rest, t, v);
      if log[0] != t {
        var w := Without(rest, t);
        assert ([log[0]] + w)[1..] == w;
        assert u in log <==> u == log[0] || u in rest;
        assert v in log <==> v == log[0] || v in rest;
      }
    }
  }

  lemma {:induction false} IndexPrefix<T>(a: seq<T>, b: seq<T>, u: T)
    requires u in a
    ensures Index(a + b, u) == Index(a, u)
  {
    if a[0] != u {
      assert (a + b)[1..] == a[1..] + b;
      IndexPrefix(a[1..], b, u);
    }
  }

  lemma {:induction false} IndexLast<T>(a: seq<T>, u: T)
    requires u !in a
    ensures Index(a + [u], u) == |a|
  {
    if a != [] {
      assert (a + [u])[1..] == a[1..] + [u];
      IndexLast(a[1..], u);
    }
  }

  lemma MoveToEndOrder<T>(log: seq<T>, t: T, u: T, v: T)
    ensures u in MoveToEnd(log, t) <==> u in log || u == t
    ensures u != t && v != t ==> (Before(MoveToEnd(log, t), u, v) <==> Before(log, u, v))
    ensures u != t && u in log ==> Before(MoveToEnd(log, t), u, t)
    ensures !Before(MoveToEnd(log, t), t, v)
  {
    var w := Without(log, t);
    IndexLast(w, t);
    forall x | x in w
      ensures Index(w + [t], x) == Index(w, x)
    {
      IndexPrefix(w, [t], x);
    }
    if u != t {
      WithoutKeepsOthers(log, t, u);
      if v != t {
        WithoutKeepsOthers(log, t, v);
        WithoutKeepsOrder(log, t, u, v);
      }
    }
  }

  /** `log` lists the stamped names by ascending stamp, as the reader's sort does. */
  ghost predicate Represents<T(!new)>(stamps: map<T, int>, log: seq<T>) {
    && (forall t :: t in log <==> t in stamps)
    && forall i, j :: 0 <= i < j < |log| ==> stamps[log[i]] < stamps[log[j]]
  }

  class ChangeLog<T(==, !new)> {
    var stamps: map<T, int>

    constructor ()
      ensures stamps == map[] && Represents(stamps, [])
    {
      stamps := map[];
    }

    /** Update or insert the time stamp of one table. */
    method SyncLog(t: T, now: int)
      modifies this
      ensures stamps == old(stamps)[t := now]
    {
      ghost var before := stamps;
      if t in stamps {
        stamps := map u | u in stamps :: if u == t then now else stamps[u];
      } else {
        stamps := stamps + map[t := now];
      }
      assert stamps == before[t := now];
    }
  }

  lemma {:induction false} WithoutAscends<T(!new)>(stamps: map<T, int>, log: seq<T>, t: T)
    requires forall u :: u in log ==> u in stamps
    requires forall i, j :: 0 <= i < j < |log| ==> stamps[log[i]] < stamps[log[j]]
    ensures forall u :: u in Without(log, t) ==> u in log
    ensures forall i, j :: 0 <= i < j < |Without(log, t)| ==>
              stamps[Without(log, t)[i]] < stamps[Without(log, t)[j]]
  {
    if log != [] {
      var rest := log[1..];
      WithoutAscends(stamps, rest, t);
      forall u | u in rest
        ensures stamps[log[0]] < stamps[u]
      {
        var k :| 0 <= k < |rest| && rest[k] == u;
        assert log[k + 1] == u;
      }
    }
  }

  /** A new stamp moves its table to the end exactly when it is later than the stamps of all others. */
  lemma RestampMovesToEnd<T(!new)>(stamps: map<T, int>, log: seq<T>, t: T, now: int)
    requires Represents(stamps, log)
    ensures Represents(stamps[t := now], MoveToEnd(log, t)) <==> forall u :: u in stamps && u != t ==> stamps[u] < now
  {
    var w := Without(log, t);
    var moved := MoveToEnd(log, t);
    WithoutAscends(stamps, log, t);
    forall u
      ensures u in moved <==> u in stamps[t := now]
    {
      MoveToEndOrder(log, t, u, u);
    }
    if forall u :: u in stamps && u != t ==> stamps[u] < now {
      forall i, j | 0 <= i < j < |moved|
        ensures stamps[t := now][moved[i]] < stamps[t := now][moved[j]]
      {
        assert moved[i] == w[i] && w[i] in w;
        if j < |w| {
          assert moved[j] == w[j] && w[j] in w;
        }
      }
    }
    if Represents(stamps[t := now], moved) {
      forall u | u in stamps && u != t
        ensures stamps[u] < now
      {
        var i := Index(moved, u);
        assert moved[i] == u && moved[|w|] == t && i < |w|;
      }
    }
  }

  /** The order that is read back is the order of the stamps. */
  lemma RepresentedOrder<T(!new)>(stamps: map<T, int>, log: seq<T>, u: T, v: T)
    requires Represents(stamps, log) && u in stamps && v in stamps
    ensures Before(log, u, v) <==> stamps[u] < stamps[v]
  {
    var i, j := Index(log, u), Index(log, v);
    assert log[i] == u && log[j] == v;
  }

  lemma LatestIsLast<T(!new)>(stamps: map<T, int>, a: seq<T>, b: seq<T>)
    requires Represents(stamps, a) && Represents(stamps, b) && a != []
    ensures b != [] && a[|a| - 1] == b[|b| - 1]
  {
    var x := a[|a| - 1];
    assert x in b;
    var y := b[|b| - 1];
    assert y in a;
    var i, j := Index(a, y), Index(b, x);
    assert a[i] == y && b[j] == x;
  }

  lemma LastIsNotBefore<T(!new)>(stamps: map<T, int>, a: seq<T>)
    requires Represents(stamps, a) && a != []
    ensures a[|a| - 1] !in a[..|a| - 1]
  {
  }

  lemma FrontRepresents<T(!new)>(stamps: map<T, int>, a: seq<T>)
    requires Represents(stamps, a) && a != []
    ensures Represents(stamps - {a[|a| - 1]}, a[..|a| - 1])
  {
    var front, x := a[..|a| - 1], a[|a| - 1];
    LastIsNotBefore(stamps, a);
    assert a == front + [x];
    forall t
      ensures t in front <==> t in stamps - {x}
    {
      assert t in a <==> t in front || t == x;
    }
    assert forall i :: 0 <= i < |front| ==> front[i] == a[i] && front[i] in front;
  }

  /** Sorting by time stamp has one answer. */
  lemma {:induction false} RepresentedByOne<T(!new)>(stamps: map<T, int>, a: seq<T>, b: seq<T>)
    requires Represents(stamps, a) && Represents(stamps, b)
    ensures a == b
    decreases |a|
  {
    if a == [] {
      if b != [] {
        LatestIsLast(stamps, b, a);
      }
    } else {
      LatestIsLast(stamps, a, b);
      FrontRepresents(stamps, a);
      FrontRepresents(stamps, b);
      RepresentedByOne(stamps - {a[|a| - 1]}, a[..|a| - 1], b[..|b| - 1]);
      assert a == a[..|a| - 1] + [a[|a| - 1]] && b == b[..|b| - 1] + [b[|b| - 1]];
    }
  }

  /******* Many tables *******/

  /** The changelog after logging some tables one after another. */
  function LogAll<T(==)>(log: seq<T>, tables: seq<T>): seq<T>
    decreases |tables|
  {
    if tables == [] then log else LogAll(MoveToEnd(log, tables[0]), tables[1..])
  }

  lemma {:induction false} WithoutAppend<T>(a: seq<T>, b: seq<T>, t: T)
    ensures Without(a + b, t) == Without(a, t) + Without(b, t)
  {
    if a == [] {
      assert a + b == b;
    } else {
      assert (a + b)[1..] == a[1..] + b;
      WithoutAppend(a[1..], b, t);
    }
  }

  lemma {:induction false} WithoutCommutes<T>(a: seq<T>, t: T, u: T)
    ensures Without(Without(a, t), u) == Without(Without(a, u), t)
  {
    if a != [] {
      WithoutCommutes(a[1..], t, u);
    }
  }

  lemma MoveWithout<T>(log: seq<T>, x: T, v: T)
    requires x != v
    ensures Without(MoveToEnd(log, x), v) == Without(Without(log, v), x) + [x]
  {
    WithoutAppend(Without(log, x), [x], v);
    WithoutCommutes(log, x, v);
  }

  lemma {:induction false} LogsAlike<T>(a: seq<T>, b: seq<T>, v: T, tables: seq<T>)
    requires Without(a, v) == Without(b, v) && v in tables
    ensures LogAll(a, tables) == LogAll(b, tables)
    decreases |tables|
  {
    var x := tables[0];
    if x != v {
      MoveWithout(a, x, v);
      MoveWithout(b, x, v);
      LogsAlike(MoveToEnd(a, x), MoveToEnd(b, x), v, tables[1..]);
    }
  }

  /** A name that is logged again later might as well not have been logged before. */
  lemma LoggedAgain<T>(log: seq<T>, v: T, tables: seq<T>)
    requires v in tables
    ensures LogAll(MoveToEnd(log, v), tables) == LogAll(log, tables)
  {
    WithoutAppend(Without(log, v), [v], v);
    WithoutAbsent(Without(log, v), v);
    LogsAlike(MoveToEnd(log, v), log, v, tables);
  }

  lemma {:induction false} LogAllSnoc<T>(log: seq<T>, tables: seq<T>, t: T)
    ensures LogAll(log, tables + [t]) == MoveToEnd(LogAll(log, tables), t)
    decreases |tables|
  {
    if tables == [] {
      assert [] + [t] == [t] && [t][1..] == [];
    } else {
      assert (tables + [t])[1..] == tables[1..] + [t];
      LogAllSnoc(MoveToEnd(log, tables[0]), tables[1..], t);
    }
  }

  lemma {:induction false} LogAllAppend<T>(log: seq<T>, a: seq<T>, b: seq<T>)
    ensures LogAll(log, a + b) == LogAll(LogAll(log, a), b)
    decreases |a|
  {
    if a == [] {
      assert a + b == b;
    } else {
      assert (a + b)[1..] == a[1..] + b;
      LogAllAppend(MoveToEnd(log, a[0]), a[1..], b);
    }
  }

  /** The last position at which a table is listed, or -1. */
  function LastOf<T(==)>(tables: seq<T>, t: T): (i: int)
    ensures -1 <= i < |tables|
    ensures i >= 0 ==> tables[i] == t
    ensures forall k :: i < k < |tables| ==> tables[k] != t
  {
    if tables == [] then -1
    else if tables[|tables| - 1] == t then |tables| - 1
    else LastOf(tables[..|tables| - 1], t)
  }

  lemma LastOfSnoc<T>(tables: seq<T>, t: T, u: T)
    ensures LastOf(tables + [t], u) == if t == u then |tables| else LastOf(tables, u)
  {
    assert (tables + [t])[..|tables|] == tables;
  }

  lemma {:induction false} LastOfAppend<T>(a: seq<T>, b: seq<T>, t: T)
    ensures LastOf(a + b, t) == if LastOf(b, t) >= 0 then |a| + LastOf(b, t) else LastOf(a, t)
    decreases |b|
  {
    if b == [] {
      assert a + b == a;
    } else {
      var front, x := b[..|b| - 1], b[|b| - 1];
      assert a + b == (a + front) + [x] && b == front + [x];
      LastOfAppend(a, front, t);
      LastOfSnoc(a + front, x, t);
      LastOfSnoc(front, x, t);
    }
  }

  lemma {:induction false} LogHolds<T>(tables: seq<T>, u: T)
    ensures u in LogAll([], tables) <==> LastOf(tables, u) >= 0
  {
    if tables != [] {
      var front, t := tables[..|tables| - 1], tables[|tables| - 1];
      assert tables == front + [t];
      LogAllSnoc([], front, t);
      LogHolds(front, u);
      LastOfSnoc(front, t, u);
      MoveToEndOrder(LogAll([], front), t, u, u);
    }
  }

  /** A changelog that starts empty is in the order of the last writes. */
  lemma {:induction false} LogByLast<T>(tables: seq<T>, u: T, v: T)
    requires u != v && LastOf(tables, u) >= 0 && LastOf(tables, v) >= 0
    ensures Before(LogAll([], tables), u, v) <==> LastOf(tables, u) < LastOf(tables, v)
  {
    var front, t := tables[..|tables| - 1], tables[|tables| - 1];
    assert tables == front + [t];
    LogAllSnoc([], front, t);
    LastOfSnoc(front, t, u);
    LastOfSnoc(front, t, v);
    LogHolds(front, u);
    MoveToEndOrder(LogAll([], front), t, u, v);
    if t != u && t != v {
      LogByLast(front, u, v);
    }
  }
}
