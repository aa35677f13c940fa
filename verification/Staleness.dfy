/**
 * The staleness check of `database/dependencies.py`: is a table newer than
 * everything it is computed from, all the way up?
 *
 * A changelog is the sequence of table names ordered by their time stamp.
 */
module Staleness {
  import opened Digraphs

  datatype Answer = Dirty | Clean | NetworkXError

  /** `list.index`: the first position. */
  function Index<T(==)>(log: seq<T>, t: T): (i: nat)
    requires t in log
    ensures i < |log| && log[i] == t && t !in log[..i]
  {
    if log[0] == t then 0 else 1 + Index(log[1..], t)
  }

  /** The entries of the changelog that are predecessors. */
  function Slim<T(==, !new)>(log: seq<T>, preds: set<T>): (slim: seq<T>)
    ensures forall t :: t in slim <==> t in log && t in preds
  {
    if log == [] then []
    else if log[0] in preds then [log[0]] + Slim(log[1..], preds)
    else Slim(log[1..], preds)
  }

  /** `max([changelog.index(i) for i in slim])`, which fails on an empty list. */
  function MaxIndex<T(==, !new)>(log: seq<T>, slim: seq<T>): (m: nat)
    requires slim != [] && forall t :: t in slim ==> t in log
    ensures forall t :: t in slim ==> Index(log, t) <= m
    ensures exists t :: t in slim && Index(log, t) == m
  {
    var first := Index(log, slim[0]);
    if |slim| == 1 then first
    else
      var rest := MaxIndex(log, slim[1..]);
      if first >= rest then first else rest
  }

  predicate CheckIfSorted<T(==, !new)>(preds: set<T>, t: T, log: seq<T>)
    requires t in log && forall p :: p in preds ==> p in log
    ensures CheckIfSorted(preds, t, log) <==> forall p :: p in preds ==> Index(log, p) < Index(log, t)
  {
    preds == {} ||
    (assert exists p :: p in preds;
     var slim := Slim(log, preds);
     assert exists p :: p in slim;
     Index(log, t) > MaxIndex(log, slim))
  }

  /** Recursion down the predecessors; every call is on a strictly earlier changelog entry. */
  predicate CheckIfDepsAreSorted<T(==, !new)>(g: Digraph<T>, t: T, log: seq<T>)
    requires t in log && forall n :: n in g.nodes ==> n in log
    decreases Index(log, t)
  {
    var preds := Predecessors(g, t);
    CheckIfSorted(preds, t, log) && forall p :: p in preds ==> CheckIfDepsAreSorted(g, p, log)
  }

  ghost predicate ReachesOrIs<T(!new)>(g: Digraph<T>, v: T, t: T) {
    v == t || Reaches(g, v, t)
  }

  ghost predicate Before<T>(log: seq<T>, u: T, v: T) {
    u in log && v in log && Index(log, u) < Index(log, v)
  }

  /** Every logged table feeding into a logged table that `t` rests on is older than the table it feeds. */
  ghost predicate InOrder<T(!new)>(g: Digraph<T>, t: T, log: seq<T>) {
    forall u, v :: u in log && v in log && Reaches(g, u, v) && ReachesOrIs(g, v, t) ==> Before(log, u, v)
  }

  ghost function LastEdgeOf<T(!new)>(h: Digraph<T>, u: T, t: T): (w: T)
    requires WellFormed(h) && Reaches(h, u, t)
    ensures w in Predecessors(h, t) && ReachesOrIs(h, u, w)
  {
    assert exists w :: w in Predecessors(h, t) && ReachesOrIs(h, u, w) by {
      var w := LastEdge(h, u, t);
    }
    var w :| w in Predecessors(h, t) && ReachesOrIs(h, u, w);
    w
  }

  lemma {:induction false} SortedMeansInOrder<T(!new)>(h: Digraph<T>, t: T, log: seq<T>)
    requires WellFormed(h) && t in log && forall n :: n in h.nodes ==> n in log
    requires CheckIfDepsAreSorted(h, t, log)
    ensures InOrder(h, t, log)
    decreases Index(log, t)
  {
    forall u, v | Reaches(h, u, v) && ReachesOrIs(h, v, t)
      ensures Before(log, u, v)
    {
      ReachesInside(h, u, v);
      var w := if v == t then LastEdgeOf(h, u, t) else LastEdgeOf(h, v, t);
      SortedMeansInOrder(h, w, log);
      if v == t && w != u {
        assert Before(log, u, w);
      }
    }
  }

  lemma {:induction false} InOrderMeansSorted<T(!new)>(h: Digraph<T>, t: T, log: seq<T>)
    requires WellFormed(h) && t in log && forall n :: n in h.nodes ==> n in log
    requires InOrder(h, t, log)
    ensures CheckIfDepsAreSorted(h, t, log)
    decreases Index(log, t)
  {
    forall p | p in Predecessors(h, t)
      ensures Index(log, p) < Index(log, t) && CheckIfDepsAreSorted(h, p, log)
    {
      EdgeIsThrough(h.edges, h.nodes, p, t);
      assert Reaches(h, p, t) && Before(log, p, t);
      forall u, v | Reaches(h, u, v) && ReachesOrIs(h, v, p)
        ensures ReachesOrIs(h, v, t)
      {
        if v != p {
          ReachesJoin(h, v, p, t);
        }
      }
      InOrderMeansSorted(h, p, log);
    }
  }

  /** Order on the simplified graph is order on the original graph. */
  lemma InOrderSimplified<T(!new)>(g: Digraph<T>, t: T, log: seq<T>)
    requires WellFormed(g) && t in log && t in g.nodes
    ensures InOrder(Simplified(g, set n | n in log), t, log) <==> InOrder(g, t, log)
  {
    var names := set n | n in log;
    var h := Simplified(g, names);
    forall u, v | u in log && v in log
      ensures Reaches(h, u, v) <==> Reaches(g, u, v)
    {
      SimplifiedEdge(g, names, u, v);
      if Reaches(h, u, v) {
        ReachesInside(h, u, v);
      }
      if Reaches(g, u, v) {
        ReachesInside(g, u, v);
      }
      if u in g.nodes && v in g.nodes {
        SimplifiedKeepsReachability(g, names, u, v);
      }
    }
  }

  /** The answer `is_dirty` gives, by paths of the original graph alone. */
  ghost function Verdict<T(!new)>(g: Digraph<T>, t: T, log: seq<T>): Answer {
    if t !in g.nodes || t !in log then NetworkXError
    else if InOrder(g, t, log) then Clean
    else Dirty
  }

  /**
   * `is_dirty`.  It answers for every graph, cyclic ones included, and every
   * changelog, repeated names included; it fails only where the table itself is
   * missing from the simplified graph.
   */
  method IsDirty<T(==, !new)>(g: DiGraph<T>, t: T, log: seq<T>) returns (answer: Answer)
    requires WellFormed(g.View())
    ensures answer == Verdict(g.View(), t, log)
  {
    var ng := SimplifyGraph(g, log);
    ghost var names := set n | n in log;
    if t !in ng.nodes {
      return NetworkXError;
    }
    var h := Digraph(ng.nodes, ng.edges);
    assert h == Simplified(g.View(), names);
    SimplifiedEdge(g.View(), names, t, t);
    InOrderSimplified(g.View(), t, log);
    if CheckIfDepsAreSorted(h, t, log) {
      SortedMeansInOrder(h, t, log);
      answer := Clean;
    } else {
      if InOrder(h, t, log) {
        InOrderMeansSorted(h, t, log);
      }
      answer := Dirty;
    }
  }

  /** A clean table is later than each logged ancestor, and so is each logged ancestor in turn. */
  lemma CleanAncestors<T(!new)>(g: Digraph<T>, t: T, v: T, log: seq<T>)
    requires WellFormed(g) && Verdict(g, t, log) == Clean
    requires v in log && Reaches(g, v, t)
    ensures Verdict(g, v, log) == Clean && Before(log, v, t)
  {
    ReachesInside(g, v, t);
    forall u, w | Reaches(g, u, w) && ReachesOrIs(g, w, v)
      ensures ReachesOrIs(g, w, t)
    {
      if w != v {
        ReachesJoin(g, w, v, t);
      }
    }
  }
}
