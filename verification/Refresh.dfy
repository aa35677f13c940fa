/**
 * The nightly refresh and the results pipeline over the real tables
 * (`bg_worker.Workflows.refresh_all`, `tasks.py`), and what the staleness check is
 * worth for what those tasks really read.
 */
module Refresh {
  import opened Digraphs
  import opened Staleness
  import opened Changelogs
  import opened Warehouse
  import opened Workflows
  import opened Tables

  /** `delete_and_refresh_all_results_tables`, in the order in which it rewrites tables. */
  function ResultsChain(): seq<Table> {
    [UpstreamLoadReduced, LguLoadToStructural, GraphEdge, ResultBlob, LoadToDsSrcCtrl,
     DownstreamLoadReduced, SubbasinResult]
  }

  function ResultsPlan(): Plan<Table> {
    [[ResultsChain()]]
  }

  function RefreshAllPlan(): Plan<Table> {
    [[[Met], [TmntFacility], [TmntFacilityDelineation], [Subbasin]],
     [[TmntFacilityAttribute], [LguBoundary, LguLoad]],
     [ResultsChain()]]
  }

  /** `update_tmnt_attributes` writes and logs only when it finds new facilities. */
  function Optional(): set<Table> {
    {TmntFacilityAttribute}
  }

  /******* The two stagings respect the graph *******/

  /** Where each table sits in the refresh; (3, 0, 0) for a table that is not in it. */
  function RefreshSlot(t: Table): (nat, nat, nat) {
    match t
    case Met => (0, 0, 0)
    case TmntFacility => (0, 1, 0)
    case TmntFacilityDelineation => (0, 2, 0)
    case Subbasin => (0, 3, 0)
    case TmntFacilityAttribute => (1, 0, 0)
    case LguBoundary => (1, 1, 0)
    case LguLoad => (1, 1, 1)
    case UpstreamLoadReduced => (2, 0, 0)
    case LguLoadToStructural => (2, 0, 1)
    case GraphEdge => (2, 0, 2)
    case ResultBlob => (2, 0, 3)
    case LoadToDsSrcCtrl => (2, 0, 4)
    case DownstreamLoadReduced => (2, 0, 5)
    case SubbasinResult => (2, 0, 6)
    case _ => (3, 0, 0)
  }

  lemma RefreshSlots(s: nat, k: nat, i: nat, v: Table)
    ensures At(RefreshAllPlan(), s, k, i, v) <==> (s, k, i) == RefreshSlot(v) && s < 3
  {
    var plan := RefreshAllPlan();
    var (a, b, c) := RefreshSlot(v);
    if a < 3 {
      assert plan[a][b][c] == v;
    }
  }

  lemma ResultsSlots(s: nat, k: nat, i: nat, v: Table)
    ensures At(ResultsPlan(), s, k, i, v) <==> (2, k, i) == RefreshSlot(v) && s == 0
  {
    var plan := ResultsPlan();
    var (a, b, c) := RefreshSlot(v);
    if a == 2 {
      assert plan[0][b][c] == v;
    }
  }

  lemma InRefresh(v: Table)
    ensures InPlan(RefreshAllPlan(), v) <==> RefreshSlot(v).0 < 3
  {
    var (a, b, c) := RefreshSlot(v);
    RefreshSlots(a, b, c, v);
    forall s: nat, k: nat, i: nat
      ensures At(RefreshAllPlan(), s, k, i, v) ==> a < 3
    {
      RefreshSlots(s, k, i, v);
    }
  }

  lemma InResults(v: Table)
    ensures InPlan(ResultsPlan(), v) <==> RefreshSlot(v).0 == 2
  {
    var (a, b, c) := RefreshSlot(v);
    ResultsSlots(0, b, c, v);
    forall s: nat, k: nat, i: nat
      ensures At(ResultsPlan(), s, k, i, v) ==> a == 2
    {
      ResultsSlots(s, k, i, v);
    }
  }

  lemma PlansDistinct()
    ensures Distinct(RefreshAllPlan()) && Distinct(ResultsPlan())
  {
    forall s: nat, k: nat, i: nat, v
      ensures At(RefreshAllPlan(), s, k, i, v) ==> (s, k, i) == RefreshSlot(v)
      ensures At(ResultsPlan(), s, k, i, v) ==> (2, k, i) == RefreshSlot(v) && s == 0
    {
      RefreshSlots(s, k, i, v);
      ResultsSlots(s, k, i, v);
    }
  }

  /** A table's slot lies behind the slots of the tables it depends on. */
  lemma SlotsFollowDependencies(u: Table, v: Table)
    requires u in DependsOn(v) && (IsResultAncestor(v) || v == SubbasinResult)
    ensures RefreshSlot(v).0 < 3 && v !in Optional()
    ensures RefreshSlot(u).0 < 3 ==>
              SlotBefore(RefreshSlot(u).0, RefreshSlot(u).1, RefreshSlot(u).2,
                         RefreshSlot(v).0, RefreshSlot(v).1, RefreshSlot(v).2)
    ensures RefreshSlot(v).0 != 2 ==> RefreshSlot(u).0 != 2
  {
    ByLine(v);
  }

  lemma RefreshRespects()
    ensures Respects(DependencyGraph(), RefreshAllPlan(), Optional(), SubbasinResult)
  {
    var g, plan := DependencyGraph(), RefreshAllPlan();
    forall u, v | (u, v) in g.edges && ReachesOrIs(g, v, SubbasinResult)
      ensures InPlan(plan, v) && v !in Optional() && Precedes(plan, u, v)
    {
      Edges(u, v);
      ResultAncestorsAreAll(v);
      SlotsFollowDependencies(u, v);
      InRefresh(v);
      forall s: nat, k: nat, i: nat, s': nat, k': nat, i': nat | At(plan, s, k, i, u) && At(plan, s', k', i', v)
        ensures SlotBefore(s, k, i, s', k', i')
      {
        RefreshSlots(s, k, i, u);
        RefreshSlots(s', k', i', v);
      }
    }
  }

  lemma ResultsRespects()
    ensures Respects(DependencyGraph(), ResultsPlan(), {}, SubbasinResult)
  {
    var g, plan := DependencyGraph(), ResultsPlan();
    forall u, v | (u, v) in g.edges && ReachesOrIs(g, v, SubbasinResult)
      ensures InPlan(plan, v) ==> Precedes(plan, u, v)
      ensures !InPlan(plan, v) ==> !InPlan(plan, u)
    {
      Edges(u, v);
      ResultAncestorsAreAll(v);
      SlotsFollowDependencies(u, v);
      InResults(u);
      InResults(v);
      forall s: nat, k: nat, i: nat, s': nat, k': nat, i': nat | At(plan, s, k, i, u) && At(plan, s', k', i', v)
        ensures SlotBefore(s, k, i, s', k', i')
      {
        ResultsSlots(s, k, i, u);
        ResultsSlots(s', k', i', v);
      }
    }
  }

  /******* Whole runs *******/

  /** Of the tables above the results a refresh leaves only the source controls alone, which users enter. */
  lemma RefreshKeepsClean(log0: seq<Table>)
    ensures KeptClean(DependencyGraph(), RefreshAllPlan(), SubbasinResult, log0)
  {
    var g, plan := DependencyGraph(), RefreshAllPlan();
    forall v | v in g.nodes && v in log0 && ReachesOrIs(g, v, SubbasinResult) && !InPlan(plan, v)
      ensures Verdict(g, v, log0) == Clean
    {
      InRefresh(v);
      ResultAncestorsAreAll(v);
      assert v == TmntSourceControl;
      RootIsClean(v, log0);
    }
  }

  /** Whatever the interleaving, a refresh that completes leaves `subbasin_result` clean. */
  lemma RefreshAllEndsClean(log0: seq<Table>, events: seq<Event>)
    requires CanRun(RefreshAllPlan(), Optional(), Start(RefreshAllPlan(), log0), events)
    requires Completed(RefreshAllPlan(), After(RefreshAllPlan(), Optional(), Start(RefreshAllPlan(), log0), events))
    ensures Verdict(DependencyGraph(), SubbasinResult,
                    After(RefreshAllPlan(), Optional(), Start(RefreshAllPlan(), log0), events).log) == Clean
  {
    PlansDistinct();
    RefreshRespects();
    Edges(Met, Met);
    EveryTable(SubbasinResult);
    InRefresh(SubbasinResult);
    RefreshKeepsClean(log0);
    CompletedRun(DependencyGraph(), RefreshAllPlan(), Optional(), SubbasinResult, log0, events);
  }

  /** A table that was logged before was clean then. */
  ghost predicate CleanIfLogged(t: Table, log: seq<Table>) {
    t in log ==> Verdict(DependencyGraph(), t, log) == Clean
  }

  /** Of the tables that the pipeline leaves alone, only its two inputs are not roots. */
  lemma TwoInputsDecide(log0: seq<Table>)
    ensures KeptClean(DependencyGraph(), ResultsPlan(), SubbasinResult, log0)
            <==> CleanIfLogged(LguLoad, log0) && CleanIfLogged(LguBoundary, log0)
  {
    var g, plan := DependencyGraph(), ResultsPlan();
    Edges(Met, Met);
    InResults(LguLoad);
    InResults(LguBoundary);
    ResultAncestorsAreAll(LguLoad);
    ResultAncestorsAreAll(LguBoundary);
    if CleanIfLogged(LguLoad, log0) && CleanIfLogged(LguBoundary, log0) {
      forall v | v in g.nodes && v in log0 && ReachesOrIs(g, v, SubbasinResult) && !InPlan(plan, v)
        ensures Verdict(g, v, log0) == Clean
      {
        InResults(v);
        ResultAncestorsAreAll(v);
        if v != LguLoad && v != LguBoundary {
          RootIsClean(v, log0);
        }
      }
    }
  }

  /**
   * Running the results pipeline alone ends clean exactly when the loads and the
   * boundaries it starts from, where they are logged, were clean.
   */
  lemma ResultsPipelineEndsClean(log0: seq<Table>, events: seq<Event>)
    requires CanRun(ResultsPlan(), {}, Start(ResultsPlan(), log0), events)
    requires Completed(ResultsPlan(), After(ResultsPlan(), {}, Start(ResultsPlan(), log0), events))
    ensures Verdict(DependencyGraph(), SubbasinResult,
                    After(ResultsPlan(), {}, Start(ResultsPlan(), log0), events).log) == Clean
            <==> CleanIfLogged(LguLoad, log0) && CleanIfLogged(LguBoundary, log0)
  {
    PlansDistinct();
    ResultsRespects();
    Edges(Met, Met);
    InResults(SubbasinResult);
    TwoInputsDecide(log0);
    CompletedRun(DependencyGraph(), ResultsPlan(), {}, SubbasinResult, log0, events);
  }

  /** A refresh that stops early, for whatever reason, after rewriting anything the results rest on. */
  lemma AbandonedRefreshIsDirty(log0: seq<Table>, events: seq<Event>, a: Table)
    requires SubbasinResult in log0 && IsResultAncestor(a)
    requires CanRun(RefreshAllPlan(), Optional(), Start(RefreshAllPlan(), log0), events)
    requires a in After(RefreshAllPlan(), Optional(), Start(RefreshAllPlan(), log0), events).written
    requires SubbasinResult !in After(RefreshAllPlan(), Optional(), Start(RefreshAllPlan(), log0), events).written
    ensures Verdict(DependencyGraph(), SubbasinResult,
                    After(RefreshAllPlan(), Optional(), Start(RefreshAllPlan(), log0), events).log) == Dirty
  {
    PlansDistinct();
    Edges(Met, Met);
    ResultAncestorsAreAll(a);
    AbandonedRun(DependencyGraph(), RefreshAllPlan(), Optional(), SubbasinResult, a, log0, events);
  }

  /******* What the tasks really read *******/

  /**
   * The tables from which each task or view takes its rows.  Three of these reads are
   * not in the dependency list: the boundary overlay filters the delineations by the
   * facility table, and the task that fills the attribute table locates the
   * facilities in the subbasins.
   */
  function Consults(t: Table): set<Table> {
    match t
    case FacilitySubbasins => {TmntFacility, Subbasin}
    case TmntV => {TmntFacilityAttribute, FacilitySubbasins, TmntFacility, TmntFacilityCost, ResultBlob}
    case LguBoundary => {Subbasin, TmntFacilityDelineation, TmntFacility}
    case GraphEdge => {LguBoundary, TmntFacilityAttribute, FacilitySubbasins, TmntFacility}
    case LguLoad => {LguBoundary}
    case UpstreamLoadReduced => {LguLoad, TmntSourceControl, LguBoundary}
    case LguLoadToStructural => {UpstreamLoadReduced, LguLoad}
    case ResultBlob =>
      {LguLoadToStructural, GraphEdge, TmntFacilityAttribute, FacilitySubbasins, Met, TmntFacility, LguBoundary}
    case ResultV => {ResultBlob}
    case LoadToDsSrcCtrl => {ResultBlob}
    case DownstreamLoadReduced => {LoadToDsSrcCtrl, TmntSourceControl, LguBoundary}
    case SubbasinResult => {LoadToDsSrcCtrl, DownstreamLoadReduced, LguLoad, LguBoundary}
    case _ => {}
  }

  /** A computed table that `subbasin_result` rests on, or `subbasin_result`. */
  predicate IsComputed(t: Table) {
    || t.FacilitySubbasins? || t.LguBoundary? || t.GraphEdge? || t.LguLoad? || t.UpstreamLoadReduced?
    || t.LguLoadToStructural? || t.ResultBlob? || t.LoadToDsSrcCtrl? || t.DownstreamLoadReduced? || t.SubbasinResult?
  }

  lemma ByReads(t: Table)
    ensures Consults(t) == {} || t == TmntV || t == ResultV || t == FacilitySubbasins || t == LguBoundary
            || t == GraphEdge || t == LguLoad || t == UpstreamLoadReduced || t == LguLoadToStructural || t == ResultBlob
            || t == LoadToDsSrcCtrl || t == DownstreamLoadReduced || t == SubbasinResult
    ensures IsComputed(t) <==> Consults(t) != {} && t != TmntV && t != ResultV
  {
  }

  /** Both parts of the attribute table are logged under its name. */
  function Name(t: Table): Table {
    if t == FacilitySubbasins then TmntFacilityAttribute else t
  }

  function Rank(t: Table): nat {
    if t == TmntV then 6 else Level(t) as nat
  }

  function AllParts(): set<Table> {
    AllTables() + {FacilitySubbasins}
  }

  function Application<D>(build: (Table, map<Table, D>) -> D): Pipeline<Table, D> {
    Pipeline(DependencyGraph(), AllParts(), {TmntV, ResultV}, Name,
             map t | t in AllParts() :: Consults(t), build, map t | t in AllParts() :: Rank(t))
  }

  lemma ConsultsBelow(x: Table, y: Table)
    requires y in Consults(x)
    ensures Rank(y) < Rank(x)
  {
    ByReads(x);
  }

  lemma EveryPart(t: Table)
    ensures t in AllParts() && Name(t) in AllTables()
  {
    EveryTable(t);
    EveryTable(Name(t));
  }

  /** How the application stores one table, and from what it fills it. */
  ghost predicate Part<D>(c: Pipeline<Table, D>, x: Table) {
    && x in c.tables && c.name(x) == Name(x)
    && x in c.consults && c.consults[x] == Consults(x)
    && (Stored(c, x) <==> x != TmntV && x != ResultV)
  }

  /** The names, reads and storage of the application, whatever its builders. */
  ghost predicate Resembles<D>(c: Pipeline<Table, D>) {
    && ValidPipeline(c) && c.graph == DependencyGraph()
    && Part(c, SubbasinResult) && forall x :: Part(c, x)
  }

  lemma ApplicationPart<D>(build: (Table, map<Table, D>) -> D, x: Table)
    ensures Part(Application(build), x)
  {
    EveryPart(x);
  }

  lemma ApplicationRanks<D>(build: (Table, map<Table, D>) -> D, x: Table, y: Table)
    requires y in Consults(x)
    ensures x in Application(build).rank && y in Application(build).rank
    ensures Application(build).rank[y] < Application(build).rank[x]
  {
    EveryPart(x);
    EveryPart(y);
    ConsultsBelow(x, y);
  }

  lemma ApplicationKeys<D>(build: (Table, map<Table, D>) -> D)
    ensures Application(build).consults.Keys == Application(build).tables == Application(build).rank.Keys
    ensures Application(build).views <= Application(build).tables
  {
    EveryPart(TmntV);
    EveryPart(ResultV);
  }

  lemma ApplicationIsValid<D>(build: (Table, map<Table, D>) -> D)
    ensures ValidPipeline(Application(build))
  {
    var c := Application(build);
    Edges(Met, Met);
    ApplicationKeys(build);
    forall x | x in c.tables
      ensures c.name(x) in c.graph.nodes
    {
      EveryPart(x);
    }
    forall x, y | x in c.consults && y in c.consults[x]
      ensures y in c.tables && c.rank[y] < c.rank[x]
    {
      ApplicationPart(build, x);
      ApplicationRanks(build, x, y);
    }
  }

  lemma ApplicationResembles<D>(build: (Table, map<Table, D>) -> D)
    ensures Resembles(Application(build))
  {
    ApplicationIsValid(build);
    forall x
      ensures Part(Application(build), x)
    {
      ApplicationPart(build, x);
    }
  }

  lemma NamesFeed(v: Table)
    ensures ReachesOrIs(DependencyGraph(), Name(v), SubbasinResult) <==>
            IsResultAncestor(Name(v)) || Name(v) == SubbasinResult
  {
    ResultAncestorsAreAll(Name(v));
  }

  lemma StoredParts<D>(c: Pipeline<Table, D>, v: Table)
    requires Resembles(c)
    ensures Part(c, v)
    ensures Derived(c, v) <==> Consults(v) != {} && v != TmntV && v != ResultV
    ensures Feeds(c, v, SubbasinResult) <==> ReachesOrIs(DependencyGraph(), Name(v), SubbasinResult)
  {
    assert Part(c, v) && Part(c, SubbasinResult);
  }

  lemma ComputedIsAncestor(v: Table)
    requires IsComputed(v)
    ensures IsResultAncestor(Name(v)) || Name(v) == SubbasinResult
    ensures IsResultAncestor(Name(v)) || v == SubbasinResult
  {
  }

  /** The computed tables above the results are the same ones, seen from either side. */
  lemma ComputedFeeds<D>(c: Pipeline<Table, D>, v: Table)
    requires Resembles(c)
    ensures Part(c, v)
    ensures Derived(c, v) <==> IsComputed(v)
    ensures Feeds(c, v, SubbasinResult) <==> IsResultAncestor(Name(v)) || v == SubbasinResult
    ensures Derived(c, v) && Feeds(c, v, SubbasinResult) <==> IsComputed(v)
  {
    StoredParts(c, v);
    ByReads(v);
    NamesFeed(v);
    if IsComputed(v) {
      ComputedIsAncestor(v);
    }
  }

  lemma NoViewConsulted(x: Table, y: Table)
    requires IsComputed(x) && y in Consults(x)
    ensures y != TmntV && y != ResultV
  {
    ByReads(x);
  }

  lemma ComputedInputs<D>(c: Pipeline<Table, D>, x: Table)
    requires Resembles(c) && IsComputed(x)
    ensures Part(c, x) && Inputs(c, x) == Consults(x)
  {
    assert Part(c, x);
    forall y | y in c.consults[x]
      ensures Stored(c, y)
    {
      assert Part(c, y);
      NoViewConsulted(x, y);
    }
    InputsAreConsulted(c, x);
  }

  lemma ReadsStored<D>(c: Pipeline<Table, D>, s: Store<Table, D>, x: Table, y: Table)
    requires Resembles(c) && ValidStore(c, s) && IsComputed(x) && Part(c, x)
    ensures y in Reads(c, s, x) <==> y in Consults(x)
    ensures y in Reads(c, s, x) ==> y in s.content && Reads(c, s, x)[y] == s.content[y]
  {
    ReadsAt(c, s, x, y);
    assert Part(c, y);
    if y in Consults(x) {
      NoViewConsulted(x, y);
    }
  }

  lemma FreshReadsAt<D>(c: Pipeline<Table, D>, s: Store<Table, D>, x: Table, y: Table)
    requires Resembles(c) && ValidStore(c, s) && IsComputed(x) && Part(c, x)
    ensures y in FreshReads(c, s, x) <==> y in Consults(x)
    ensures y in FreshReads(c, s, x) ==> y in c.tables && FreshReads(c, s, x)[y] == Recompute(c, s, y)
  {
    ReadsAt(c, s, x, y);
  }

  lemma BuildsFromReads<D>(c: Pipeline<Table, D>, s: Store<Table, D>, x: Table)
    requires Resembles(c) && ValidStore(c, s) && IsComputed(x)
    ensures Part(c, x) && x in s.content
    ensures BuildNow(c, s, x) == c.build(x, Reads(c, s, x))
    ensures Recompute(c, s, x) == c.build(x, FreshReads(c, s, x))
  {
    ComputedFeeds(c, x);
    BuildsReads(c, s, x);
  }

  /** Unless it is computed or a view, a table is its own recomputation. */
  lemma RecomputesBase<D>(c: Pipeline<Table, D>, s: Store<Table, D>, x: Table)
    requires Resembles(c) && ValidStore(c, s) && !IsComputed(x) && x != TmntV && x != ResultV
    ensures Part(c, x) && x in s.content && Recompute(c, s, x) == s.content[x]
  {
    ComputedFeeds(c, x);
  }

  function Undeclared(): set<(Table, Table)> {
    {(TmntFacility, LguBoundary), (TmntFacility, FacilitySubbasins), (Subbasin, FacilitySubbasins)}
  }

  lemma AttributesAreARoot(u: Table)
    ensures !Reaches(DependencyGraph(), u, TmntFacilityAttribute)
  {
    if Reaches(DependencyGraph(), u, TmntFacilityAttribute) {
      Edges(Met, Met);
      var w := LastEdge(DependencyGraph(), u, TmntFacilityAttribute);
      Edges(w, TmntFacilityAttribute);
    }
  }

  /** Every declared dependency is read; seven reads are no direct dependency. */
  lemma DirectReads(x: Table, y: Table)
    requires IsComputed(x) || x == TmntV || x == ResultV
    ensures y in DependsOn(x) ==> y in Consults(x)
    ensures y in Consults(x) && Name(y) !in DependsOn(x) <==>
            || (y, x) in Undeclared() || (y == ResultBlob && x == TmntV) || (y == LguBoundary && x == ResultBlob)
            || ((y == LguLoad || y == LguBoundary) && x == SubbasinResult)
    ensures FacilitySubbasins in Consults(x) <==> x in {TmntV, GraphEdge, ResultBlob}
  {
    ByReads(x);
  }

  /** Of all that is read to fill `subbasin_result` and the tables above it, exactly three reads are not declared. */
  lemma OnlyUndeclaredReads(x: Table, y: Table)
    requires IsComputed(x) && y in Consults(x)
    ensures Reaches(DependencyGraph(), Name(y), Name(x)) <==> (y, x) !in Undeclared()
    ensures IsResultAncestor(Name(y))
  {
    ByReads(x);
    BoundaryAncestors(y);
    AttributesAreARoot(y);
    if Name(y) in DependsOn(x) {
      DirectlyReaches(Name(y), x);
    } else if x == ResultBlob {
      DirectlyReaches(GraphEdge, ResultBlob);
      ReachesVia(LguBoundary, GraphEdge, ResultBlob);
    } else if x == SubbasinResult {
      ResultAncestorsAreAll(y);
    }
  }

  /** A computed table with a declared read has its name to itself. */
  lemma DeclaredReaderIsSole(x: Table, z: Table)
    requires IsComputed(x) && z in Consults(x) && (z, x) !in Undeclared()
    ensures Reaches(DependencyGraph(), Name(z), x) && x != FacilitySubbasins && x != TmntFacilityAttribute
  {
    OnlyUndeclaredReads(x, z);
    AttributesAreARoot(Name(z));
  }

  lemma SoleName<D>(c: Pipeline<Table, D>, x: Table)
    requires Resembles(c) && x != FacilitySubbasins && x != TmntFacilityAttribute
    ensures Sole(c, x)
  {
    assert Part(c, x);
    forall y | c.name(y) == c.name(x)
      ensures y == x
    {
      assert Part(c, y);
    }
  }

  lemma ReadIsDeclared<D>(c: Pipeline<Table, D>, x: Table, z: Table)
    requires Resembles(c) && IsComputed(x) && z in Consults(x)
    ensures Feeds(c, z, SubbasinResult)
    ensures (z, x) in Undeclared() || (Reaches(c.graph, c.name(z), c.name(x)) && Sole(c, x))
  {
    OnlyUndeclaredReads(x, z);
    ComputedFeeds(c, z);
    if (z, x) !in Undeclared() {
      DeclaredReaderIsSole(x, z);
      SoleName(c, x);
      assert Part(c, x) && Part(c, z);
    }
  }

  lemma DeclaredAt<D>(c: Pipeline<Table, D>, x: Table, z: Table)
    requires Resembles(c)
    ensures DeclaresRead(c, SubbasinResult, Undeclared(), x, z)
  {
    ComputedFeeds(c, x);
    if IsComputed(x) && z in Inputs(c, x) {
      ComputedInputs(c, x);
      ReadIsDeclared(c, x, z);
    }
  }

  lemma ApplicationDeclares<D>(c: Pipeline<Table, D>)
    requires Resembles(c)
    ensures DeclaresReads(c, SubbasinResult, Undeclared())
  {
    var undeclared := Undeclared();
    forall x, z
      ensures DeclaresRead(c, SubbasinResult, undeclared, x, z)
    {
      DeclaredAt(c, x, z);
    }
  }

  /** Every computed table above the results was last written by a rebuild. */
  ghost predicate ResultsRebuilt(entries: seq<Entry<Table>>) {
    forall v :: IsComputed(v) ==> LastRebuilt(entries, v)
  }

  /** The boundaries were cut after the facilities were replaced; the facilities were located after both. */
  predicate Guarded(entries: seq<Entry<Table>>) {
    && LastWrite(entries, TmntFacility) < LastWrite(entries, LguBoundary)
    && LastWrite(entries, TmntFacility) < LastWrite(entries, FacilitySubbasins)
    && LastWrite(entries, Subbasin) < LastWrite(entries, FacilitySubbasins)
  }

  /**
   * Soundness for the real reads: reported clean, with every computed table last
   * written by a rebuild and the three undeclared reads in order, `subbasin_result`
   * is what a recomputation from the base tables gives.
   */
  lemma CleanResultsAreFresh<D>(c: Pipeline<Table, D>, s0: Store<Table, D>, steps: seq<Step<Table, D>>)
    requires Resembles(c) && ValidStore(c, s0)
    requires forall step :: step in steps ==> Enabled(c, step)
    requires ReportedClean(c, History(steps), SubbasinResult)
    requires ResultsRebuilt(History(steps)) && Guarded(History(steps))
    ensures Run(c, s0, steps).content[SubbasinResult] == Recompute(c, Run(c, s0, steps), SubbasinResult)
  {
    ApplicationDeclares(c);
    forall v | Derived(c, v) && Feeds(c, v, SubbasinResult)
      ensures LastRebuilt(History(steps), v)
    {
      ComputedFeeds(c, v);
    }
    CleanIsFresh(c, s0, steps, SubbasinResult, Undeclared());
  }

  function NamesOf(entries: seq<Entry<Table>>): (names: seq<Table>)
    ensures |names| == |entries| && forall i :: 0 <= i < |entries| ==> names[i] == Name(entries[i].t)
  {
    seq(|entries|, i requires 0 <= i < |entries| => Name(entries[i].t))
  }

  lemma NamesAreNames<D>(c: Pipeline<Table, D>, entries: seq<Entry<Table>>)
    requires Resembles(c)
    ensures Names(c, entries) == NamesOf(entries)
  {
    forall i | 0 <= i < |entries|
      ensures Names(c, entries)[i] == NamesOf(entries)[i]
    {
      assert Part(c, entries[i].t);
    }
  }

  /******* The pipeline as the tasks run it *******/

  lemma InChain(t: Table)
    requires t in ResultsChain()
    ensures IsComputed(t) && Name(t) == t
  {
  }

  ghost predicate AllDerived<D>(c: Pipeline<Table, D>, tables: seq<Table>) {
    forall t :: t in tables ==> Derived(c, t) && c.name(t) == t
  }

  /** The tables of the chain are computed ones, so every one of its rebuilds is possible. */
  lemma ChainIsComputed<D>(c: Pipeline<Table, D>)
    requires Resembles(c)
    ensures AllDerived(c, ResultsChain())
  {
    forall t | t in ResultsChain()
      ensures Derived(c, t) && c.name(t) == t
    {
      InChain(t);
      ComputedFeeds(c, t);
    }
  }

  /** Rebuilds one after another, each reading what the earlier ones wrote. */
  ghost function Rebuilt<D>(c: Pipeline<Table, D>, s: Store<Table, D>, tables: seq<Table>): (end: Store<Table, D>)
    requires ValidPipeline(c) && ValidStore(c, s) && AllDerived(c, tables)
    ensures ValidStore(c, end)
    decreases |tables|
  {
    if tables == [] then s
    else
      assert tables[0] in tables;
      Rebuilt(c, Next(c, s, Rebuild(tables[0])), tables[1..])
  }

  lemma {:induction false} RebuiltLogs<D>(c: Pipeline<Table, D>, s: Store<Table, D>, tables: seq<Table>)
    requires ValidPipeline(c) && ValidStore(c, s) && AllDerived(c, tables)
    ensures Rebuilt(c, s, tables).log == LogAll(s.log, tables)
    decreases |tables|
  {
    if tables != [] {
      assert tables[0] in tables;
      RebuiltLogs(c, Next(c, s, Rebuild(tables[0])), tables[1..]);
    }
  }

  lemma {:induction false} RebuiltAppend<D>(c: Pipeline<Table, D>, s: Store<Table, D>, a: seq<Table>, b: seq<Table>)
    requires ValidPipeline(c) && ValidStore(c, s) && AllDerived(c, a) && AllDerived(c, b) && AllDerived(c, a + b)
    ensures Rebuilt(c, s, a + b) == Rebuilt(c, Rebuilt(c, s, a), b)
    decreases |a|
  {
    if a == [] {
      assert a + b == b;
    } else {
      assert a[0] in a && (a + b)[1..] == a[1..] + b;
      RebuiltAppend(c, Next(c, s, Rebuild(a[0])), a[1..], b);
    }
  }

  /** One more rebuild. */
  method RefreshNext<D(==)>(db: Database<Table, D>, c: Pipeline<Table, D>, ghost s: Store<Table, D>,
                            ghost done: seq<Table>, t: Table)
    requires ValidPipeline(c) && ValidStore(c, s) && AllDerived(c, done) && Derived(c, t) && c.name(t) == t
    requires db.View() == Rebuilt(c, s, done)
    modifies db
    ensures AllDerived(c, done + [t]) && db.View() == Rebuilt(c, s, done + [t])
  {
    db.Refresh(c, t);
    RebuiltAppend(c, s, done, [t]);
    assert Rebuilt(c, Rebuilt(c, s, done), [t]) == Next(c, Rebuilt(c, s, done), Rebuild(t));
  }

  method RefreshTwo<D(==)>(db: Database<Table, D>, c: Pipeline<Table, D>, t: Table, u: Table)
    requires ValidPipeline(c) && ValidStore(c, db.View()) && AllDerived(c, [t]) && AllDerived(c, [t, u])
    modifies db
    ensures db.View() == Rebuilt(c, old(db.View()), [t, u])
  {
    assert t in [t, u] && u in [t, u];
    RefreshNext(db, c, db.View(), [], t);
    assert [] + [t] == [t];
    RefreshNext(db, c, old(db.View()), [t], u);
    assert [t] + [u] == [t, u];
  }

  method DeleteAndRefreshUpstreamSrcCtrlTables<D(==)>(db: Database<Table, D>, c: Pipeline<Table, D>)
    requires ValidPipeline(c) && ValidStore(c, db.View())
    requires AllDerived(c, [UpstreamLoadReduced]) && AllDerived(c, [UpstreamLoadReduced, LguLoadToStructural])
    modifies db
    ensures db.View() == Rebuilt(c, old(db.View()), [UpstreamLoadReduced, LguLoadToStructural])
  {
    RefreshTwo(db, c, UpstreamLoadReduced, LguLoadToStructural);
  }

  method DeleteAndRefreshDownstreamSrcCtrlTables<D(==)>(db: Database<Table, D>, c: Pipeline<Table, D>)
    requires ValidPipeline(c) && ValidStore(c, db.View())
    requires AllDerived(c, [LoadToDsSrcCtrl]) && AllDerived(c, [LoadToDsSrcCtrl, DownstreamLoadReduced])
    modifies db
    ensures db.View() == Rebuilt(c, old(db.View()), [LoadToDsSrcCtrl, DownstreamLoadReduced])
  {
    RefreshTwo(db, c, LoadToDsSrcCtrl, DownstreamLoadReduced);
  }

  lemma ChainParts<D>(c: Pipeline<Table, D>)
    requires AllDerived(c, ResultsChain())
    ensures AllDerived(c, [UpstreamLoadReduced]) && AllDerived(c, [UpstreamLoadReduced, LguLoadToStructural])
    ensures AllDerived(c, [LoadToDsSrcCtrl]) && AllDerived(c, [LoadToDsSrcCtrl, DownstreamLoadReduced])
    ensures AllDerived(c, ResultsChain()[..2]) && AllDerived(c, ResultsChain()[..4])
    ensures AllDerived(c, ResultsChain()[..6])
    ensures AllDerived(c, [GraphEdge, ResultBlob, SubbasinResult])
    ensures forall t :: t == GraphEdge || t == ResultBlob || t == SubbasinResult ==> Derived(c, t) && c.name(t) == t
    ensures ResultsChain()[..2] == [UpstreamLoadReduced, LguLoadToStructural]
    ensures ResultsChain()[..2] + [GraphEdge] + [ResultBlob] == ResultsChain()[..4]
    ensures ResultsChain()[..4] + [LoadToDsSrcCtrl, DownstreamLoadReduced] == ResultsChain()[..6]
    ensures ResultsChain()[..6] + [SubbasinResult] == ResultsChain()
  {
    assert forall i :: 0 <= i < 7 ==> ResultsChain()[i] in ResultsChain();
  }

  /** `delete_and_refresh_all_results_tables`. */
  method DeleteAndRefreshAllResultsTables<D(==)>(db: Database<Table, D>, c: Pipeline<Table, D>)
    requires ValidPipeline(c) && ValidStore(c, db.View()) && AllDerived(c, ResultsChain())
    modifies db
    ensures db.View() == Rebuilt(c, old(db.View()), ResultsChain())
  {
    ghost var s, chain := db.View(), ResultsChain();
    ChainParts(c);
    DeleteAndRefreshUpstreamSrcCtrlTables(db, c);
    RefreshNext(db, c, s, chain[..2], GraphEdge);
    RefreshNext(db, c, s, chain[..2] + [GraphEdge], ResultBlob);
    DeleteAndRefreshDownstreamSrcCtrlTables(db, c);
    RebuiltAppend(c, s, chain[..4], [LoadToDsSrcCtrl, DownstreamLoadReduced]);
    RefreshNext(db, c, s, chain[..6], SubbasinResult);
  }

  lemma ResultsStraightRun(log0: seq<Table>) returns (events: seq<Event>)
    ensures CanRun(ResultsPlan(), {}, Start(ResultsPlan(), log0), events)
    ensures var end := After(ResultsPlan(), {}, Start(ResultsPlan(), log0), events);
            Completed(ResultsPlan(), end) && end.log == LogAll(log0, ResultsChain())
  {
    events := StraightRunLogs(ResultsChain(), log0);
  }

  /** What the task leaves behind is clean exactly when its two inputs were. */
  lemma PipelineTaskEndsClean<D>(c: Pipeline<Table, D>, s: Store<Table, D>)
    requires Resembles(c) && ValidStore(c, s)
    ensures AllDerived(c, ResultsChain())
    ensures Verdict(DependencyGraph(), SubbasinResult, Rebuilt(c, s, ResultsChain()).log) == Clean
            <==> CleanIfLogged(LguLoad, s.log) && CleanIfLogged(LguBoundary, s.log)
  {
    ChainIsComputed(c);
    RebuiltLogs(c, s, ResultsChain());
    var events := ResultsStraightRun(s.log);
    ResultsPipelineEndsClean(s.log, events);
  }
}
