/**
 * Directed graphs, paths, and the elimination of nodes that are not listed
 * (`simplify_graph`).  An edge `(u, v)` says that `v` is computed from `u`.
 */
module Digraphs {

  datatype Digraph<T(==)> = Digraph(nodes: set<T>, edges: set<(T, T)>)

  ghost predicate WellFormed<T(!new)>(g: Digraph<T>) {
    forall u, v :: (u, v) in g.edges ==> u in g.nodes && v in g.nodes
  }

  function Predecessors<T(==)>(g: Digraph<T>, v: T): set<T> {
    set u | u in g.nodes && (u, v) in g.edges
  }

  /** `p` walks along edges and takes at least one. */
  ghost predicate IsPath<T>(edges: set<(T, T)>, p: seq<T>) {
    |p| >= 2 && forall i :: 0 <= i < |p| - 1 ==> (p[i], p[i + 1]) in edges
  }

  ghost predicate Connects<T>(edges: set<(T, T)>, inner: set<T>, p: seq<T>, u: T, v: T) {
    && IsPath(edges, p)
    && p[0] == u
    && p[|p| - 1] == v
    && forall i :: 0 < i < |p| - 1 ==> p[i] in inner
  }

  /** Some path of length at least one leads from `u` to `v` with every interior node in `inner`. */
  ghost predicate Through<T(!new)>(edges: set<(T, T)>, inner: set<T>, u: T, v: T) {
    exists p: seq<T> :: Connects(edges, inner, p, u, v)
  }

  /** Reachability by a path of length at least one. */
  ghost predicate Reaches<T(!new)>(g: Digraph<T>, u: T, v: T) {
    Through(g.edges, g.nodes, u, v)
  }

  ghost predicate Acyclic<T(!new)>(g: Digraph<T>) {
    forall u :: u in g.nodes ==> !Reaches(g, u, u)
  }

  /** What simplification means, stated by paths and without any order of elimination. */
  ghost function Simplified<T(!new)>(g: Digraph<T>, listed: set<T>): Digraph<T> {
    var kept := g.nodes * listed;
    Digraph(kept, set u, v | u in kept && v in kept && Through(g.edges, g.nodes - listed, u, v) :: (u, v))
  }

  /******* Paths *******/

  lemma ThroughMonotone<T(!new)>(edges: set<(T, T)>, small: set<T>, large: set<T>, u: T, v: T)
    requires small <= large
    requires Through(edges, small, u, v)
    ensures Through(edges, large, u, v)
  {
    var p :| Connects(edges, small, p, u, v);
    assert Connects(edges, large, p, u, v);
  }

  lemma ThroughNothing<T(!new)>(edges: set<(T, T)>, u: T, v: T)
    ensures Through(edges, {}, u, v) <==> (u, v) in edges
  {
    if (u, v) in edges {
      assert Connects(edges, {}, [u, v], u, v);
    }
    if Through(edges, {}, u, v) {
      var none: set<T> := {};
      var p :| Connects(edges, none, p, u, v);
      assert p[1] !in none && |p| == 2;
      assert (p[0], p[0 + 1]) in edges;
    }
  }

  lemma EdgeIsThrough<T(!new)>(edges: set<(T, T)>, inner: set<T>, u: T, v: T)
    requires (u, v) in edges
    ensures Through(edges, inner, u, v)
  {
    assert Connects(edges, inner, [u, v], u, v);
  }

  lemma ThroughJoin<T(!new)>(edges: set<(T, T)>, inner: set<T>, u: T, m: T, v: T)
    requires Through(edges, inner, u, m) && Through(edges, inner, m, v)
    requires m in inner
    ensures Through(edges, inner, u, v)
  {
    var p :| Connects(edges, inner, p, u, m);
    var q :| Connects(edges, inner, q, m, v);
    var r := p + q[1..];
    forall i | 0 <= i < |r| - 1
      ensures (r[i], r[i + 1]) in edges
    {
      if i >= |p| - 1 {
        assert r[i] == q[i - (|p| - 1)];
      }
    }
    assert Connects(edges, inner, r, u, v);
  }

  lemma ReachesInside<T(!new)>(g: Digraph<T>, u: T, v: T)
    requires WellFormed(g) && Reaches(g, u, v)
    ensures u in g.nodes && v in g.nodes
  {
    var p :| Connects(g.edges, g.nodes, p, u, v);
    assert (p[0], p[1]) in g.edges && (p[|p| - 2], p[|p| - 2 + 1]) in g.edges;
  }

  lemma ReachesJoin<T(!new)>(g: Digraph<T>, u: T, m: T, v: T)
    requires WellFormed(g)
    requires Reaches(g, u, m) && Reaches(g, m, v)
    ensures Reaches(g, u, v)
  {
    ReachesInside(g, u, m);
    ThroughJoin(g.edges, g.nodes, u, m, v);
  }

  /** A nonempty path ends with an edge, reached from its start unless it is that edge alone. */
  lemma LastEdge<T(!new)>(g: Digraph<T>, u: T, v: T) returns (w: T)
    requires WellFormed(g) && Reaches(g, u, v)
    ensures (w, v) in g.edges && w in Predecessors(g, v)
    ensures w == u || Reaches(g, u, w)
  {
    var p :| Connects(g.edges, g.nodes, p, u, v);
    w := p[|p| - 2];
    assert (p[|p| - 2], p[|p| - 2 + 1]) in g.edges;
    if |p| > 2 {
      assert Connects(g.edges, g.nodes, p[..|p| - 1], u, w);
    }
  }

  /** Cutting a path at an interior node leaves two shorter paths. */
  lemma Cut<T(!new)>(edges: set<(T, T)>, inner: set<T>, p: seq<T>, u: T, v: T, k: int)
    requires Connects(edges, inner, p, u, v) && 0 < k < |p| - 1
    ensures Connects(edges, inner, p[..k + 1], u, p[k])
    ensures Connects(edges, inner, p[k..], p[k], v)
  {
    var a, b := p[..k + 1], p[k..];
    forall i | 0 <= i < |b| - 1
      ensures (b[i], b[i + 1]) in edges
    {
      assert (p[k + i], p[k + i + 1]) in edges;
    }
    assert IsPath(edges, a);
    assert IsPath(edges, b);
  }

  /** Allowing one more interior node `n` adds exactly the paths that stop at `n` once. */
  lemma {:induction false} PathUsesNodeOnce<T(!new)>(
      edges: set<(T, T)>, inner: set<T>, n: T, p: seq<T>, u: T, v: T)
    requires Connects(edges, inner + {n}, p, u, v)
    ensures Through(edges, inner, u, v) || (Through(edges, inner, u, n) && Through(edges, inner, n, v))
    decreases |p|
  {
    if k :| 0 < k < |p| - 1 && p[k] == n {
      Cut(edges, inner + {n}, p, u, v, k);
      PathUsesNodeOnce(edges, inner, n, p[..k + 1], u, n);
      PathUsesNodeOnce(edges, inner, n, p[k..], n, v);
    } else {
      assert Connects(edges, inner, p, u, v);
    }
  }

  lemma ThroughOneMore<T(!new)>(edges: set<(T, T)>, inner: set<T>, n: T, u: T, v: T)
    ensures Through(edges, inner + {n}, u, v) <==>
            Through(edges, inner, u, v) || (Through(edges, inner, u, n) && Through(edges, inner, n, v))
  {
    if Through(edges, inner + {n}, u, v) {
      var p :| Connects(edges, inner + {n}, p, u, v);
      PathUsesNodeOnce(edges, inner, n, p, u, v);
    } else if Through(edges, inner, u, v) {
      ThroughMonotone(edges, inner, inner + {n}, u, v);
    } else if Through(edges, inner, u, n) && Through(edges, inner, n, v) {
      ThroughMonotone(edges, inner, inner + {n}, u, n);
      ThroughMonotone(edges, inner, inner + {n}, n, v);
      ThroughJoin(edges, inner + {n}, u, n, v);
    }
  }

  /******* The graph object and its elimination loop *******/

  class DiGraph<T(==, !new)> {
    var nodes: set<T>
    var edges: set<(T, T)>

    ghost function View(): Digraph<T>
      reads this
    {
      Digraph(nodes, edges)
    }

    constructor (nodes: set<T>, edges: set<(T, T)>)
      ensures this.nodes == nodes && this.edges == edges
    {
      this.nodes, this.edges := nodes, edges;
    }

    method AddEdge(u: T, v: T)
      modifies this
      ensures nodes == old(nodes) + {u, v} && edges == old(edges) + {(u, v)}
    {
      nodes, edges := nodes + {u, v}, edges + {(u, v)};
    }

    /** Removes the node together with every edge that touches it. */
    method RemoveNode(n: T)
      modifies this
      ensures nodes == old(nodes) - {n}
      ensures edges == set e | e in old(edges) && e.0 != n && e.1 != n
    {
      nodes, edges := nodes - {n}, set e | e in edges && e.0 != n && e.1 != n;
    }

    /** Connects every predecessor of `n` to every successor, in any order, and drops `n`. */
    method Bypass(n: T)
      requires WellFormed(View()) && n in nodes
      modifies this
      ensures nodes == old(nodes) - {n}
      ensures forall u, v :: (u, v) in edges <==>
                u != n && v != n && ((u, v) in old(edges) || ((u, n) in old(edges) && (n, v) in old(edges)))
    {
      var preds := set e | e in edges && e.1 == n :: e.0;
      var succs := set e | e in edges && e.0 == n :: e.1;
      var pairs := set i, o | i in preds && o in succs :: (i, o);
      assert forall i :: i in preds <==> (i, n) in edges by {
        assert forall i :: (i, n) in edges ==> (i, n).0 in preds;
      }
      assert forall o :: o in succs <==> (n, o) in edges by {
        assert forall o :: (n, o) in edges ==> (n, o).1 in succs;
      }
      while pairs != {}
        invariant nodes == old(nodes)
        invariant forall i, o :: (i, o) in pairs ==> (i, n) in old(edges) && (n, o) in old(edges)
        invariant forall i, o :: (i, o) in edges || (i, o) in pairs <==>
                    (i, o) in old(edges) || ((i, n) in old(edges) && (n, o) in old(edges))
        decreases pairs
      {
        var e :| e in pairs;
        assert e == (e.0, e.1);
        AddEdge(e.0, e.1);
        pairs := pairs - {e};
      }
      RemoveNode(n);
      assert forall u, v :: (u, v) in edges ==> (u, v).0 != n && (u, v).1 != n;
    }
  }

  ghost predicate Eliminated<T(!new)>(g: Digraph<T>, gone: set<T>, h: Digraph<T>) {
    && h.nodes == g.nodes - gone
    && forall u, v :: (u, v) in h.edges <==> u in h.nodes && v in h.nodes && Through(g.edges, gone, u, v)
  }

  lemma BypassEliminates<T(!new)>(g: Digraph<T>, gone: set<T>, n: T, before: Digraph<T>, after: Digraph<T>)
    requires Eliminated(g, gone, before) && n in before.nodes
    requires after.nodes == before.nodes - {n}
    requires forall u, v :: (u, v) in after.edges <==>
               u != n && v != n &&
               ((u, v) in before.edges || ((u, n) in before.edges && (n, v) in before.edges))
    ensures Eliminated(g, gone + {n}, after)
  {
    assert after.nodes == g.nodes - (gone + {n});
    forall u, v
      ensures (u, v) in after.edges <==> u in after.nodes && v in after.nodes && Through(g.edges, gone + {n}, u, v)
    {
      ThroughOneMore(g.edges, gone, n, u, v);
    }
  }

  /**
   * The nested loops over an arbitrary order of nodes and of predecessor/successor
   * pairs arrive at the graph that the paths define, whatever the order.
   */
  method SimplifyGraph<T(==, !new)>(g: DiGraph<T>, listed: seq<T>) returns (ng: DiGraph<T>)
    requires WellFormed(g.View())
    ensures fresh(ng)
    ensures ng.View() == Simplified(g.View(), set t | t in listed)
  {
    ng := new DiGraph(g.nodes, g.edges);
    ghost var og := g.View();
    ghost var gone: set<T> := {};
    forall u, v
      ensures (u, v) in og.edges <==> u in og.nodes && v in og.nodes && Through(og.edges, {}, u, v)
    {
      ThroughNothing(og.edges, u, v);
    }
    var todo := g.nodes;
    while todo != {}
      invariant todo <= g.nodes
      invariant g.View() == og && fresh(ng)
      invariant gone == set n | n in g.nodes - todo && n !in listed
      invariant Eliminated(og, gone, ng.View())
      decreases todo
    {
      var n :| n in todo;
      todo := todo - {n};
      if n !in listed {
        ghost var before := ng.View();
        ng.Bypass(n);
        BypassEliminates(og, gone, n, before, ng.View());
        gone := gone + {n};
      }
    }
    ghost var names := set t | t in listed;
    assert gone == og.nodes - names;
    assert og.nodes - gone == og.nodes * names;
    var result: Digraph<T> := ng.View();
    forall e
      ensures e in result.edges <==> e in Simplified(og, names).edges
    {
      assert e == (e.0, e.1);
    }
  }

  /******* What simplification keeps *******/

  lemma SimplifiedEdge<T(!new)>(g: Digraph<T>, listed: set<T>, u: T, v: T)
    ensures (u, v) in Simplified(g, listed).edges <==>
            u in g.nodes * listed && v in g.nodes * listed && Through(g.edges, g.nodes - listed, u, v)
    ensures WellFormed(Simplified(g, listed))
  {
  }

  lemma {:induction false} PathSurvives<T(!new)>(g: Digraph<T>, listed: set<T>, p: seq<T>, u: T, v: T)
    requires WellFormed(g)
    requires Connects(g.edges, g.nodes, p, u, v)
    requires u in g.nodes * listed && v in g.nodes * listed
    ensures Reaches(Simplified(g, listed), u, v)
    decreases |p|
  {
    var h := Simplified(g, listed);
    if k :| 0 < k < |p| - 1 && p[k] in listed {
      Cut(g.edges, g.nodes, p, u, v, k);
      PathSurvives(g, listed, p[..k + 1], u, p[k]);
      PathSurvives(g, listed, p[k..], p[k], v);
      ReachesJoin(h, u, p[k], v);
    } else {
      assert Connects(g.edges, g.nodes - listed, p, u, v);
      SimplifiedEdge(g, listed, u, v);
      EdgeIsThrough(h.edges, h.nodes, u, v);
    }
  }

  lemma {:induction false} PathExpands<T(!new)>(g: Digraph<T>, listed: set<T>, p: seq<T>, u: T, v: T)
    requires WellFormed(g)
    requires Connects(Simplified(g, listed).edges, Simplified(g, listed).nodes, p, u, v)
    ensures Reaches(g, u, v)
    decreases |p|
  {
    var h := Simplified(g, listed);
    if |p| == 2 {
      assert (p[0], p[0 + 1]) in h.edges;
      SimplifiedEdge(g, listed, u, v);
      ThroughMonotone(g.edges, g.nodes - listed, g.nodes, u, v);
    } else {
      Cut(h.edges, h.nodes, p, u, v, 1);
      PathExpands(g, listed, p[..2], u, p[1]);
      PathExpands(g, listed, p[1..], p[1], v);
      ReachesJoin(g, u, p[1], v);
    }
  }

  /** Among listed nodes simplification neither adds nor loses reachability. */
  lemma SimplifiedKeepsReachability<T(!new)>(g: Digraph<T>, listed: set<T>, u: T, v: T)
    requires WellFormed(g)
    requires u in g.nodes * listed && v in g.nodes * listed
    ensures Reaches(Simplified(g, listed), u, v) <==> Reaches(g, u, v)
  {
    var h := Simplified(g, listed);
    if Reaches(h, u, v) {
      var p :| Connects(h.edges, h.nodes, p, u, v);
      PathExpands(g, listed, p, u, v);
    }
    if Reaches(g, u, v) {
      var p :| Connects(g.edges, g.nodes, p, u, v);
      PathSurvives(g, listed, p, u, v);
    }
  }

  /** The simplified graph is acyclic exactly when no listed node lies on a cycle of the original. */
  lemma SimplifiedAcyclic<T(!new)>(g: Digraph<T>, listed: set<T>)
    requires WellFormed(g)
    ensures Acyclic(Simplified(g, listed)) <==> forall u :: u in g.nodes * listed ==> !Reaches(g, u, u)
  {
    forall u | u in g.nodes * listed
      ensures Reaches(Simplified(g, listed), u, u) <==> Reaches(g, u, u)
    {
      SimplifiedKeepsReachability(g, listed, u, u);
    }
  }
}
