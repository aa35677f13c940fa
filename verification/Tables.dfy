/** The tables and views of the application and the graph the staleness check consults. */
module Tables {
  import opened Digraphs
  import opened Staleness

  /**
   * The tables and views of the dependency list.  `tmnt_facility_attribute` is stored
   * in two parts: `TmntFacilityAttribute` is what users enter, `FacilitySubbasins` the
   * columns `subbasin` and `basinname` that a task computes.  The second part has no
   * name of its own in the list or in the changelog.
   */
  datatype Table =
    | Met | TmntFacility | TmntFacilityDelineation | Subbasin | TmntSourceControl | TmntFacilityAttribute
    | TmntFacilityCost | GlobalCostSetting | Scenario | TmntV | LguBoundary | GraphEdge | LguLoad
    | UpstreamLoadReduced | LguLoadToStructural | ResultBlob | ResultV | LoadToDsSrcCtrl
    | DownstreamLoadReduced | SubbasinResult | FacilitySubbasins

  /** The adjacency list: each table with the tables it depends on. */
  function DependsOn(t: Table): set<Table> {
    match t
    case Met => {}
    case TmntFacility => {}
    case TmntFacilityDelineation => {}
    case Subbasin => {}
    case TmntSourceControl => {}
    case TmntFacilityAttribute => {}
    case GlobalCostSetting => {}
    case TmntFacilityCost => {GlobalCostSetting}
    case Scenario => {GlobalCostSetting}
    case TmntV => {TmntFacilityAttribute, TmntFacility, TmntFacilityCost}
    case LguBoundary => {Subbasin, TmntFacilityDelineation}
    case GraphEdge => {LguBoundary, TmntFacilityAttribute, TmntFacility}
    case LguLoad => {LguBoundary}
    case UpstreamLoadReduced => {LguLoad, TmntSourceControl, LguBoundary}
    case LguLoadToStructural => {UpstreamLoadReduced, LguLoad}
    case ResultBlob => {LguLoadToStructural, GraphEdge, TmntFacilityAttribute, Met, TmntFacility}
    case ResultV => {ResultBlob}
    case LoadToDsSrcCtrl => {ResultBlob}
    case DownstreamLoadReduced => {LoadToDsSrcCtrl, TmntSourceControl, LguBoundary}
    case SubbasinResult => {LoadToDsSrcCtrl, DownstreamLoadReduced}
    case FacilitySubbasins => {}
  }

  /** The names in the list. */
  predicate HeadsLine(t: Table) {
    t != FacilitySubbasins
  }

  /** A table depends on nothing, or is one of those that the list computes. */
  lemma ByLine(t: Table)
    ensures DependsOn(t) == {} || t == TmntFacilityCost || t == Scenario || t == TmntV || t == LguBoundary
            || t == GraphEdge || t == LguLoad || t == UpstreamLoadReduced || t == LguLoadToStructural || t == ResultBlob
            || t == ResultV || t == LoadToDsSrcCtrl || t == DownstreamLoadReduced || t == SubbasinResult
  {
  }

  function AllTables(): set<Table> {
    set t: Table | HeadsLine(t)
  }

  /** The list is written against the flow of information and is reversed once. */
  function DependencyGraph(): Digraph<Table> {
    Digraph(AllTables(), set u, v | v in AllTables() && u in DependsOn(v) :: (u, v))
  }

  lemma EveryTable(t: Table)
    ensures t in AllTables() <==> t != FacilitySubbasins
  {
  }

  lemma Edges(u: Table, v: Table)
    ensures (u, v) in DependencyGraph().edges <==> u in DependsOn(v)
    ensures WellFormed(DependencyGraph())
  {
    EveryTable(v);
    forall a, b | b in AllTables() && a in DependsOn(b)
      ensures a in AllTables()
    {
      EveryTable(a);
      ByLine(b);
    }
  }

  /** A number that grows along every edge grows along every path. */
  lemma {:induction false} GrowsAlongPaths<T(!new)>(g: Digraph<T>, number: T -> int, p: seq<T>, u: T, v: T)
    requires forall a, b :: (a, b) in g.edges ==> number(a) < number(b)
    requires Connects(g.edges, g.nodes, p, u, v)
    ensures number(u) < number(v)
    decreases |p|
  {
    assert (p[0], p[0 + 1]) in g.edges;
    if |p| > 2 {
      Cut(g.edges, g.nodes, p, u, v, 1);
      GrowsAlongPaths(g, number, p[1..], p[1], v);
    }
  }

  /** A region that edges never enter from outside is never entered by a path from outside. */
  lemma {:induction false} NeverEntered<T(!new)>(g: Digraph<T>, inside: T -> bool, p: seq<T>, u: T, v: T)
    requires forall a, b :: (a, b) in g.edges && inside(b) ==> inside(a)
    requires Connects(g.edges, g.nodes, p, u, v) && inside(v)
    ensures inside(u)
    decreases |p|
  {
    assert (p[0], p[0 + 1]) in g.edges;
    if |p| > 2 {
      Cut(g.edges, g.nodes, p, u, v, 1);
      NeverEntered(g, inside, p[1..], p[1], v);
    }
  }

  /** A topological number of every table. */
  function Level(t: Table): int {
    match t
    case Met => 0
    case TmntFacility => 0
    case TmntFacilityDelineation => 0
    case Subbasin => 0
    case TmntSourceControl => 0
    case TmntFacilityAttribute => 0
    case GlobalCostSetting => 0
    case TmntFacilityCost => 1
    case Scenario => 1
    case TmntV => 2
    case LguBoundary => 1
    case GraphEdge => 2
    case LguLoad => 2
    case UpstreamLoadReduced => 3
    case LguLoadToStructural => 4
    case ResultBlob => 5
    case ResultV => 6
    case LoadToDsSrcCtrl => 6
    case DownstreamLoadReduced => 7
    case SubbasinResult => 8
    case FacilitySubbasins => 1
  }

  lemma LevelGrows(u: Table, v: Table)
    requires u in DependsOn(v)
    ensures Level(u) < Level(v) <= 8
  {
    ByLine(v);
  }

  lemma GraphAcyclic()
    ensures Acyclic(DependencyGraph())
  {
    var g := DependencyGraph();
    forall a, b | (a, b) in g.edges
      ensures Level(a) < Level(b)
    {
      Edges(a, b);
      LevelGrows(a, b);
    }
    forall u | Reaches(g, u, u)
      ensures false
    {
      var p :| Connects(g.edges, g.nodes, p, u, u);
      GrowsAlongPaths(g, t => Level(t), p, u, u);
    }
  }

  lemma DirectlyReaches(u: Table, v: Table)
    requires u in DependsOn(v)
    ensures Reaches(DependencyGraph(), u, v)
  {
    Edges(u, v);
    EdgeIsThrough(DependencyGraph().edges, DependencyGraph().nodes, u, v);
  }

  lemma ReachesVia(u: Table, m: Table, v: Table)
    requires Reaches(DependencyGraph(), m, v) && u in DependsOn(m)
    ensures Reaches(DependencyGraph(), u, v)
  {
    DirectlyReaches(u, m);
    Edges(u, m);
    ReachesJoin(DependencyGraph(), u, m, v);
  }

  predicate IsResultAncestor(t: Table) {
    && !t.TmntFacilityCost? && !t.GlobalCostSetting? && !t.Scenario? && !t.TmntV? && !t.ResultV?
    && !t.SubbasinResult? && !t.FacilitySubbasins?
  }

  lemma ResultAncestorsClosed(a: Table, b: Table)
    requires a in DependsOn(b) && (IsResultAncestor(b) || b == SubbasinResult)
    ensures IsResultAncestor(a)
  {
    ByLine(b);
  }

  lemma ResultAncestorsInside(u: Table)
    requires Reaches(DependencyGraph(), u, SubbasinResult)
    ensures IsResultAncestor(u)
  {
    var g := DependencyGraph();
    var inside := t => IsResultAncestor(t) || t == SubbasinResult;
    forall a, b | (a, b) in g.edges && inside(b)
      ensures inside(a)
    {
      Edges(a, b);
      ResultAncestorsClosed(a, b);
    }
    var p :| Connects(g.edges, g.nodes, p, u, SubbasinResult);
    NeverEntered(g, inside, p, u, SubbasinResult);
    GraphAcyclic();
  }

  lemma ResultAncestorsReach(u: Table)
    requires IsResultAncestor(u)
    ensures Reaches(DependencyGraph(), u, SubbasinResult)
    decreases 8 - Level(u), 1
  {
    match u {
      case DownstreamLoadReduced => DirectlyReaches(u, SubbasinResult);
      case LoadToDsSrcCtrl => DirectlyReaches(u, SubbasinResult);
      case TmntSourceControl => ResultStep(u, DownstreamLoadReduced);
      case LguBoundary => ResultStep(u, DownstreamLoadReduced);
      case ResultBlob => ResultStep(u, LoadToDsSrcCtrl);
      case LguLoadToStructural => ResultStep(u, ResultBlob);
      case GraphEdge => ResultStep(u, ResultBlob);
      case TmntFacilityAttribute => ResultStep(u, ResultBlob);
      case Met => ResultStep(u, ResultBlob);
      case TmntFacility => ResultStep(u, ResultBlob);
      case UpstreamLoadReduced => ResultStep(u, LguLoadToStructural);
      case LguLoad => ResultStep(u, LguLoadToStructural);
      case Subbasin => ResultStep(u, LguBoundary);
      case TmntFacilityDelineation => ResultStep(u, LguBoundary);
    }
  }

  lemma ResultStep(u: Table, m: Table)
    requires u in DependsOn(m) && IsResultAncestor(m)
    ensures Reaches(DependencyGraph(), u, SubbasinResult)
    decreases 8 - Level(u), 0
  {
    LevelGrows(u, m);
    ResultAncestorsReach(m);
    ReachesVia(u, m, SubbasinResult);
  }

  /** Exactly the tables that `subbasin_result` rests on. */
  lemma ResultAncestorsAreAll(u: Table)
    ensures Reaches(DependencyGraph(), u, SubbasinResult) <==> IsResultAncestor(u)
  {
    if Reaches(DependencyGraph(), u, SubbasinResult) {
      ResultAncestorsInside(u);
    } else if IsResultAncestor(u) {
      ResultAncestorsReach(u);
    }
  }

  /** Nothing but the subbasins and the delineations is declared to feed `lgu_boundary`. */
  lemma BoundaryAncestors(u: Table)
    ensures Reaches(DependencyGraph(), u, LguBoundary) <==> u in {Subbasin, TmntFacilityDelineation}
  {
    var g := DependencyGraph();
    if Reaches(g, u, LguBoundary) {
      var inside := (t: Table) => t in {Subbasin, TmntFacilityDelineation, LguBoundary};
      forall a, b | (a, b) in g.edges && inside(b)
        ensures inside(a)
      {
        Edges(a, b);
      }
      var p :| Connects(g.edges, g.nodes, p, u, LguBoundary);
      NeverEntered(g, inside, p, u, LguBoundary);
      GraphAcyclic();
    }
    DirectlyReaches(Subbasin, LguBoundary);
    DirectlyReaches(TmntFacilityDelineation, LguBoundary);
  }

  lemma OneStepBack(u: Table, v: Table) returns (w: Table)
    requires Reaches(DependencyGraph(), u, v)
    ensures w in DependsOn(v) && (w == u || Reaches(DependencyGraph(), u, w))
  {
    Edges(v, v);
    w := LastEdge(DependencyGraph(), u, v);
    Edges(w, v);
  }

  /** Costs and scenarios rest on the cost settings alone. */
  lemma CostAncestors(u: Table)
    ensures Reaches(DependencyGraph(), u, TmntFacilityCost) <==> u == GlobalCostSetting
    ensures Reaches(DependencyGraph(), u, Scenario) <==> u == GlobalCostSetting
    ensures !Reaches(DependencyGraph(), u, GlobalCostSetting)
  {
    if Reaches(DependencyGraph(), u, GlobalCostSetting) {
      var w := OneStepBack(u, GlobalCostSetting);
      assert false;
    }
    if Reaches(DependencyGraph(), u, TmntFacilityCost) {
      var w := OneStepBack(u, TmntFacilityCost);
    }
    if Reaches(DependencyGraph(), u, Scenario) {
      var w := OneStepBack(u, Scenario);
    }
    DirectlyReaches(GlobalCostSetting, TmntFacilityCost);
    DirectlyReaches(GlobalCostSetting, Scenario);
  }

  lemma RootsHaveNone(u: Table, t: Table)
    requires DependsOn(t) == {}
    ensures !Reaches(DependencyGraph(), u, t)
  {
    if Reaches(DependencyGraph(), u, t) {
      var w := OneStepBack(u, t);
      assert false;
    }
  }

  /** What the view of the facilities rests on. */
  lemma FacilityViewAncestors(u: Table)
    ensures Reaches(DependencyGraph(), u, TmntV) <==>
            u in {TmntFacilityAttribute, TmntFacility, TmntFacilityCost, GlobalCostSetting}
  {
    CostAncestors(u);
    if Reaches(DependencyGraph(), u, TmntV) {
      var w := OneStepBack(u, TmntV);
      RootsHaveNone(u, TmntFacilityAttribute);
      RootsHaveNone(u, TmntFacility);
    }
    DirectlyReaches(TmntFacilityAttribute, TmntV);
    DirectlyReaches(TmntFacility, TmntV);
    DirectlyReaches(TmntFacilityCost, TmntV);
    ReachesVia(GlobalCostSetting, TmntFacilityCost, TmntV);
  }

  /** The view of the results rests on the solver's output and on what that rests on. */
  lemma ResultViewAncestors(u: Table)
    ensures Reaches(DependencyGraph(), u, ResultV) <==>
            u == ResultBlob || Reaches(DependencyGraph(), u, ResultBlob)
  {
    if Reaches(DependencyGraph(), u, ResultV) {
      var w := OneStepBack(u, ResultV);
    }
    DirectlyReaches(ResultBlob, ResultV);
    if Reaches(DependencyGraph(), u, ResultBlob) {
      Edges(u, u);
      ReachesJoin(DependencyGraph(), u, ResultBlob, ResultV);
    }
  }

  /** A table that depends on nothing is clean whenever it is logged. */
  lemma RootIsClean(t: Table, log: seq<Table>)
    requires DependsOn(t) == {} && t in log && t != FacilitySubbasins
    ensures Verdict(DependencyGraph(), t, log) == Clean
  {
    var g := DependencyGraph();
    EveryTable(t);
    Edges(t, t);
    forall u, v | Reaches(g, u, v) && ReachesOrIs(g, v, t)
      ensures false
    {
      var s := if v == t then u else v;
      var w := LastEdge(g, s, t);
      Edges(w, t);
    }
  }
}
