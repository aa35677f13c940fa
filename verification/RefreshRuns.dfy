/**
 * A completed `refresh_all`, played as edits and rebuilds after any earlier history:
 * what it writes, and when.
 */
module RefreshRuns {
  import opened Staleness
  import opened Changelogs
  import opened Warehouse
  import opened Workflows
  import opened Tables
  import opened Refresh

  /******* Playing a run *******/

  /**
   * What the task of a table does to the database.  The attribute task enters default
   * attributes for new facilities and then writes the located columns, `fill`.
   */
  function TaskSteps<D>(v: Table, rows: Table -> D, fill: Step<Table, D>): seq<Step<Table, D>> {
    if v == TmntFacilityAttribute then [Edit(v, rows(v)), fill]
    else if IsComputed(v) then [Rebuild(v)]
    else [Edit(v, rows(v))]
  }

  ghost function Play<D>(plan: Plan<Table>, optional: set<Table>, p: Progress<Table>, events: seq<Event>,
                         rows: Table -> D, fill: Step<Table, D>): seq<Step<Table, D>>
    requires ValidProgress(plan, p) && CanRun(plan, optional, p, events)
    decreases |events|
  {
    if events == [] then []
    else
      var rest := Play(plan, optional, Advance(plan, optional, p, events[0]), events[1..], rows, fill);
      if events[0].Write? then TaskSteps(plan[p.stage][events[0].k][p.chains[events[0].k].pos], rows, fill) + rest
      else rest
  }

  /** Tables with a name and rows of their own. */
  ghost predicate Named(plan: Plan<Table>) {
    forall s: nat, k: nat, i: nat, v :: At(plan, s, k, i, v) ==> v != FacilitySubbasins && v != TmntV && v != ResultV
  }

  /** What a write event writes. */
  lemma WrittenTable(plan: Plan<Table>, optional: set<Table>, p: Progress<Table>, e: Event)
    requires ValidProgress(plan, p) && CanStep(plan, optional, p, e) && Named(plan) && e.Write?
    ensures var v := plan[p.stage][e.k][p.chains[e.k].pos];
            && v != FacilitySubbasins && v != TmntV && v != ResultV
            && Advance(plan, optional, p, e).log == MoveToEnd(p.log, v)
            && Advance(plan, optional, p, e).written == p.written + {v}
  {
    assert At(plan, p.stage, e.k, p.chains[e.k].pos, plan[p.stage][e.k][p.chains[e.k].pos]);
  }

  lemma HistoryAppend<D>(a: seq<Step<Table, D>>, b: seq<Step<Table, D>>)
    ensures History(a + b) == History(a) + History(b)
    ensures NamesOf(History(a + b)) == NamesOf(History(a)) + NamesOf(History(b))
  {
  }

  lemma TaskLogs<D>(log: seq<Table>, v: Table, rows: Table -> D, fill: Step<Table, D>)
    requires v != FacilitySubbasins && fill.t == FacilitySubbasins
    ensures LogAll(log, NamesOf(History(TaskSteps(v, rows, fill)))) == MoveToEnd(log, v)
  {
    var names := NamesOf(History(TaskSteps(v, rows, fill)));
    if v == TmntFacilityAttribute {
      assert names == [v, v] && names[1..] == [v];
      LoggedAgain(log, v, [v]);
      assert LogAll(log, names) == LogAll(MoveToEnd(log, v), [v]);
    } else {
      assert names == [v];
    }
  }

  /** The steps are logged as the run logs its tables. */
  lemma {:induction false} PlayLogs<D>(plan: Plan<Table>, optional: set<Table>, p: Progress<Table>, events: seq<Event>,
                                       rows: Table -> D, fill: Step<Table, D>)
    requires ValidProgress(plan, p) && CanRun(plan, optional, p, events) && Named(plan) && fill.t == FacilitySubbasins
    ensures LogAll(p.log, NamesOf(History(Play(plan, optional, p, events, rows, fill))))
            == After(plan, optional, p, events).log
    decreases |events|
  {
    if events != [] {
      var next := Advance(plan, optional, p, events[0]);
      PlayLogs(plan, optional, next, events[1..], rows, fill);
      if events[0].Write? {
        var v := plan[p.stage][events[0].k][p.chains[events[0].k].pos];
        var task, rest := TaskSteps(v, rows, fill), Play(plan, optional, next, events[1..], rows, fill);
        WrittenTable(plan, optional, p, events[0]);
        TaskLogs(p.log, v, rows, fill);
        HistoryAppend(task, rest);
        LogAllAppend(p.log, NamesOf(History(task)), NamesOf(History(rest)));
      }
    }
  }

  /** How each step of a played run writes its table. */
  ghost predicate Ordinary<D>(c: Pipeline<Table, D>, step: Step<Table, D>, rows: Table -> D, fill: Step<Table, D>) {
    && Enabled(c, step)
    && (step.t == FacilitySubbasins ==> step == fill)
    && (step.t != FacilitySubbasins ==>
          step == if IsComputed(step.t) then Rebuild(step.t) else Edit(step.t, rows(step.t)))
  }

  lemma TaskIsOrdinary<D>(c: Pipeline<Table, D>, v: Table, rows: Table -> D, fill: Step<Table, D>, step: Step<Table, D>)
    requires Resembles(c) && Enabled(c, fill) && fill.t == FacilitySubbasins
    requires v != FacilitySubbasins && v != TmntV && v != ResultV && step in TaskSteps(v, rows, fill)
    ensures Ordinary(c, step, rows, fill)
  {
    assert Part(c, v);
    ByReads(v);
  }

  lemma {:induction false} PlayIsOrdinary<D>(
      c: Pipeline<Table, D>, plan: Plan<Table>, optional: set<Table>, p: Progress<Table>, events: seq<Event>,
      rows: Table -> D, fill: Step<Table, D>)
    requires Resembles(c) && Enabled(c, fill) && fill.t == FacilitySubbasins
    requires ValidProgress(plan, p) && CanRun(plan, optional, p, events) && Named(plan)
    ensures forall step :: step in Play(plan, optional, p, events, rows, fill) ==> Ordinary(c, step, rows, fill)
    decreases |events|
  {
    if events != [] {
      PlayIsOrdinary(c, plan, optional, Advance(plan, optional, p, events[0]), events[1..], rows, fill);
      if events[0].Write? {
        var v := plan[p.stage][events[0].k][p.chains[events[0].k].pos];
        WrittenTable(plan, optional, p, events[0]);
        forall step | step in TaskSteps(v, rows, fill)
          ensures Ordinary(c, step, rows, fill)
        {
          TaskIsOrdinary(c, v, rows, fill, step);
        }
      }
    }
  }

  /** In a played run the facilities are located right after their attributes are entered, and only then. */
  ghost predicate FillsAfterEntry(entries: seq<Entry<Table>>) {
    LastWrite(entries, FacilitySubbasins) ==
      if LastWrite(entries, TmntFacilityAttribute) >= 0 then LastWrite(entries, TmntFacilityAttribute) + 1 else -1
  }

  lemma TaskWrites<D>(v: Table, rows: Table -> D, fill: Step<Table, D>, u: Table)
    requires v != FacilitySubbasins && fill.t == FacilitySubbasins && u != FacilitySubbasins
    ensures var h := History(TaskSteps(v, rows, fill));
            (LastWrite(h, u) >= 0 <==> u == v) && FillsAfterEntry(h)
  {
    var h := History(TaskSteps(v, rows, fill));
    assert h[0].t == v;
    if v == TmntFacilityAttribute {
      assert h[1].t == FacilitySubbasins && |h| == 2;
    }
  }

  lemma FillsAppend(a: seq<Entry<Table>>, b: seq<Entry<Table>>)
    requires FillsAfterEntry(a) && FillsAfterEntry(b)
    ensures FillsAfterEntry(a + b)
  {
    LastWriteAppend(a, b, TmntFacilityAttribute);
    LastWriteAppend(a, b, FacilitySubbasins);
  }

  lemma {:induction false} PlayFills<D>(
      plan: Plan<Table>, optional: set<Table>, p: Progress<Table>, events: seq<Event>, rows: Table -> D,
      fill: Step<Table, D>)
    requires ValidProgress(plan, p) && CanRun(plan, optional, p, events) && Named(plan) && fill.t == FacilitySubbasins
    ensures FillsAfterEntry(History(Play(plan, optional, p, events, rows, fill)))
    decreases |events|
  {
    if events != [] {
      var next := Advance(plan, optional, p, events[0]);
      PlayFills(plan, optional, next, events[1..], rows, fill);
      if events[0].Write? {
        var v := plan[p.stage][events[0].k][p.chains[events[0].k].pos];
        var task, rest := TaskSteps(v, rows, fill), Play(plan, optional, next, events[1..], rows, fill);
        WrittenTable(plan, optional, p, events[0]);
        HistoryAppend(task, rest);
        TaskWrites(v, rows, fill, v);
        FillsAppend(History(task), History(rest));
      }
    }
  }

  lemma OneTaskMore<D>(v: Table, rows: Table -> D, fill: Step<Table, D>, rest: seq<Step<Table, D>>, u: Table)
    requires v != FacilitySubbasins && fill.t == FacilitySubbasins && u != FacilitySubbasins
    ensures LastWrite(History(TaskSteps(v, rows, fill) + rest), u) >= 0 <==> u == v || LastWrite(History(rest), u) >= 0
  {
    var task := TaskSteps(v, rows, fill);
    HistoryAppend(task, rest);
    TaskWrites(v, rows, fill, u);
    LastWriteAppend(History(task), History(rest), u);
  }

  /** A played run writes the tables that the run lists as written. */
  lemma {:induction false} PlayWrites<D>(
      plan: Plan<Table>, optional: set<Table>, p: Progress<Table>, events: seq<Event>, rows: Table -> D,
      fill: Step<Table, D>, u: Table)
    requires ValidProgress(plan, p) && CanRun(plan, optional, p, events) && Named(plan) && fill.t == FacilitySubbasins
    requires u != FacilitySubbasins
    ensures u in After(plan, optional, p, events).written <==>
            u in p.written || LastWrite(History(Play(plan, optional, p, events, rows, fill)), u) >= 0
    decreases |events|
  {
    if events != [] {
      var next := Advance(plan, optional, p, events[0]);
      PlayWrites(plan, optional, next, events[1..], rows, fill, u);
      if events[0].Write? {
        WrittenTable(plan, optional, p, events[0]);
        OneTaskMore(plan[p.stage][events[0].k][p.chains[events[0].k].pos], rows, fill,
                    Play(plan, optional, next, events[1..], rows, fill), u);
      }
    }
  }

  /******* A refresh after any earlier history *******/

  lemma RefreshIsNamed()
    ensures Named(RefreshAllPlan())
  {
    forall s: nat, k: nat, i: nat, v | At(RefreshAllPlan(), s, k, i, v)
      ensures v != FacilitySubbasins && v != TmntV && v != ResultV
    {
      RefreshSlots(s, k, i, v);
    }
  }

  ghost predicate Completes(log0: seq<Table>, events: seq<Event>) {
    && CanRun(RefreshAllPlan(), Optional(), Start(RefreshAllPlan(), log0), events)
    && Completed(RefreshAllPlan(), After(RefreshAllPlan(), Optional(), Start(RefreshAllPlan(), log0), events))
  }

  ghost function End(log0: seq<Table>, events: seq<Event>): Progress<Table>
    requires Completes(log0, events)
  {
    After(RefreshAllPlan(), Optional(), Start(RefreshAllPlan(), log0), events)
  }

  lemma RefreshWritesAll(log0: seq<Table>, events: seq<Event>, v: Table)
    requires Completes(log0, events) && RefreshSlot(v).0 < 3 && v !in Optional()
    ensures v in End(log0, events).written
  {
    var plan := RefreshAllPlan();
    var (a, b, i) := RefreshSlot(v);
    PlansDistinct();
    StartTracked(plan, Optional(), log0);
    RunTracked(plan, Optional(), log0, Start(plan, log0), events);
    RefreshSlots(a, b, i, v);
    assert Done(plan, End(log0, events), a, b, i);
  }

  lemma StagesPrecede(u: Table, v: Table)
    requires RefreshSlot(u).0 < RefreshSlot(v).0
    ensures Precedes(RefreshAllPlan(), u, v)
  {
    forall s: nat, k: nat, i: nat, s': nat, k': nat, i': nat |
      At(RefreshAllPlan(), s, k, i, u) && At(RefreshAllPlan(), s', k', i', v)
      ensures SlotBefore(s, k, i, s', k', i')
    {
      RefreshSlots(s, k, i, u);
      RefreshSlots(s', k', i', v);
    }
  }

  /** A table of a later stage is logged later. */
  lemma RefreshOrder(log0: seq<Table>, events: seq<Event>, u: Table, v: Table)
    requires Completes(log0, events) && RefreshSlot(u).0 < RefreshSlot(v).0 < 3
    requires u !in Optional() && v in End(log0, events).written
    ensures Before(End(log0, events).log, u, v)
  {
    var plan := RefreshAllPlan();
    PlansDistinct();
    StartTracked(plan, Optional(), log0);
    RunTracked(plan, Optional(), log0, Start(plan, log0), events);
    RefreshWritesAll(log0, events, u);
    StagesPrecede(u, v);
  }

  /**
   * A refresh: the application, what its tables held before anything was logged, the
   * steps before the refresh, its events, the rows that its tasks fetch, and what the
   * attribute task writes.
   */
  datatype Night<!D> = Night(
    c: Pipeline<Table, D>,
    s0: Store<Table, D>,
    earlier: seq<Step<Table, D>>,
    events: seq<Event>,
    rows: Table -> D,
    fill: Step<Table, D>)

  ghost predicate Begins<D>(n: Night<D>) {
    && Resembles(n.c) && ValidStore(n.c, n.s0) && n.s0.log == []
    && (forall step :: step in n.earlier ==> Enabled(n.c, step))
    && Enabled(n.c, n.fill) && n.fill.t == FacilitySubbasins
  }

  /** What the refresh finds. */
  ghost function Found<D>(n: Night<D>): (s: Store<Table, D>)
    requires Begins(n)
    ensures ValidStore(n.c, s)
  {
    Run(n.c, n.s0, n.earlier)
  }

  /** An earlier history from an empty changelog, and a refresh that completes after it. */
  ghost predicate Refreshes<D>(n: Night<D>) {
    Begins(n) && Completes(Found(n).log, n.events)
  }

  /** A run of the refresh, complete or not, can be played. */
  ghost predicate Playable<D>(c: Pipeline<Table, D>, s: Store<Table, D>, events: seq<Event>, fill: Step<Table, D>) {
    && Resembles(c) && ValidStore(c, s) && Enabled(c, fill) && fill.t == FacilitySubbasins
    && CanRun(RefreshAllPlan(), Optional(), Start(RefreshAllPlan(), s.log), events)
  }

  lemma PlayIsEnabled<D>(c: Pipeline<Table, D>, s: Store<Table, D>, events: seq<Event>, rows: Table -> D,
                         fill: Step<Table, D>)
    requires Playable(c, s, events, fill)
    ensures forall step ::
              step in Play(RefreshAllPlan(), Optional(), Start(RefreshAllPlan(), s.log), events, rows, fill) ==>
                Ordinary(c, step, rows, fill)
  {
    RefreshIsNamed();
    PlayIsOrdinary(c, RefreshAllPlan(), Optional(), Start(RefreshAllPlan(), s.log), events, rows, fill);
  }

  /** The steps of a run of the refresh that starts from `s`. */
  ghost function Played<D>(c: Pipeline<Table, D>, s: Store<Table, D>, events: seq<Event>, rows: Table -> D,
                           fill: Step<Table, D>): (steps: seq<Step<Table, D>>)
    requires Playable(c, s, events, fill)
    ensures forall step :: step in steps ==> Enabled(c, step)
  {
    PlayIsEnabled(c, s, events, rows, fill);
    Play(RefreshAllPlan(), Optional(), Start(RefreshAllPlan(), s.log), events, rows, fill)
  }

  /** The whole history: the earlier one, then the steps of the refresh. */
  ghost function Refreshed<D>(n: Night<D>): (steps: seq<Step<Table, D>>)
    requires Refreshes(n)
    ensures forall step :: step in steps ==> Enabled(n.c, step)
  {
    n.earlier + Played(n.c, Found(n), n.events, n.rows, n.fill)
  }

  /** What the refresh leaves. */
  ghost function Left<D>(n: Night<D>): (s: Store<Table, D>)
    requires Refreshes(n)
    ensures ValidStore(n.c, s)
  {
    Run(n.c, n.s0, Refreshed(n))
  }

  /** The changelog after the refresh is the one its run leaves, so the results are reported clean. */
  lemma RefreshedLog<D>(n: Night<D>)
    requires Refreshes(n)
    ensures LogAll([], NamesOf(History(Refreshed(n)))) == End(Found(n).log, n.events).log
    ensures ReportedClean(n.c, History(Refreshed(n)), SubbasinResult)
  {
    var log0 := Found(n).log;
    var play := Play(RefreshAllPlan(), Optional(), Start(RefreshAllPlan(), log0), n.events, n.rows, n.fill);
    RefreshIsNamed();
    RunLogs(n.c, n.s0, n.earlier);
    NamesAreNames(n.c, History(n.earlier));
    HistoryAppend(n.earlier, play);
    LogAllAppend([], NamesOf(History(n.earlier)), NamesOf(History(play)));
    PlayLogs(RefreshAllPlan(), Optional(), Start(RefreshAllPlan(), log0), n.events, n.rows, n.fill);
    NamesAreNames(n.c, History(n.earlier + play));
    RefreshAllEndsClean(log0, n.events);
    assert Part(n.c, SubbasinResult);
  }

  /** What the refresh wrote, and when, in the whole history. */
  lemma RefreshedWrites<D>(n: Night<D>, u: Table)
    requires Refreshes(n) && u != FacilitySubbasins
    ensures var h := History(Refreshed(n));
            u in End(Found(n).log, n.events).written <==> LastWrite(h, u) >= |n.earlier|
  {
    var start := Start(RefreshAllPlan(), Found(n).log);
    var play := Play(RefreshAllPlan(), Optional(), start, n.events, n.rows, n.fill);
    RefreshIsNamed();
    HistoryAppend(n.earlier, play);
    LastWriteAppend(History(n.earlier), History(play), u);
    PlayWrites(RefreshAllPlan(), Optional(), start, n.events, n.rows, n.fill, u);
  }

  lemma RefreshedFills<D>(n: Night<D>)
    requires Refreshes(n)
    ensures var h := History(Refreshed(n));
            var attributes, located := LastWrite(h, TmntFacilityAttribute), LastWrite(h, FacilitySubbasins);
            if attributes >= |n.earlier| then located == attributes + 1 else located < |n.earlier|
  {
    var start := Start(RefreshAllPlan(), Found(n).log);
    var play := Play(RefreshAllPlan(), Optional(), start, n.events, n.rows, n.fill);
    RefreshIsNamed();
    HistoryAppend(n.earlier, play);
    LastWriteAppend(History(n.earlier), History(play), TmntFacilityAttribute);
    LastWriteAppend(History(n.earlier), History(play), FacilitySubbasins);
    PlayFills(RefreshAllPlan(), Optional(), start, n.events, n.rows, n.fill);
  }

  /** An entry that the refresh made. */
  lemma RefreshedEntry<D>(n: Night<D>, i: nat)
    requires Refreshes(n)
    requires |n.earlier| <= i < |Refreshed(n)|
    ensures var e := History(Refreshed(n))[i];
            e.rebuild == if e.t == FacilitySubbasins then n.fill.Rebuild? else IsComputed(e.t)
  {
    var start := Start(RefreshAllPlan(), Found(n).log);
    var play := Play(RefreshAllPlan(), Optional(), start, n.events, n.rows, n.fill);
    RefreshIsNamed();
    PlayIsOrdinary(n.c, RefreshAllPlan(), Optional(), start, n.events, n.rows, n.fill);
    var steps := Refreshed(n);
    assert steps[i] == play[i - |n.earlier|] && play[i - |n.earlier|] in play;
  }

  lemma NameLast(h: seq<Entry<Table>>, x: Table)
    requires x != FacilitySubbasins
    ensures x != TmntFacilityAttribute ==> LastOf(NamesOf(h), x) == LastWrite(h, x)
    ensures x == TmntFacilityAttribute ==>
              LastOf(NamesOf(h), x) == if LastWrite(h, x) < LastWrite(h, FacilitySubbasins)
                                       then LastWrite(h, FacilitySubbasins) else LastWrite(h, x)
  {
    var i, j, k := LastOf(NamesOf(h), x), LastWrite(h, x), LastWrite(h, FacilitySubbasins);
    if j >= 0 {
      assert NamesOf(h)[j] == x;
    }
    if k >= 0 {
      assert NamesOf(h)[k] == TmntFacilityAttribute;
    }
  }

  lemma ComputedIsPlanned(v: Table)
    requires IsComputed(v) && v != FacilitySubbasins
    ensures RefreshSlot(v).0 < 3 && v !in Optional()
  {
    ByReads(v);
  }

  /** All computed tables but the located columns are rebuilt by a refresh. */
  lemma RefreshRebuilds<D>(n: Night<D>, v: Table)
    requires Refreshes(n) && IsComputed(v) && v != FacilitySubbasins
    ensures LastRebuilt(History(Refreshed(n)), v)
  {
    ComputedIsPlanned(v);
    RefreshWritesAll(Found(n).log, n.events, v);
    RefreshedWrites(n, v);
    RefreshedEntry(n, LastWrite(History(Refreshed(n)), v));
  }

  /** Tables of an earlier stage have been written earlier than a name of a later stage was logged. */
  lemma RefreshedInOrder<D>(n: Night<D>, u: Table, v: Table)
    requires Refreshes(n) && u !in Optional()
    requires RefreshSlot(u).0 < RefreshSlot(v).0 < 3 && v in End(Found(n).log, n.events).written
    ensures var names := NamesOf(History(Refreshed(n)));
            LastOf(names, u) < LastOf(names, v)
  {
    var names := NamesOf(History(Refreshed(n)));
    RefreshedLog(n);
    RefreshOrder(Found(n).log, n.events, u, v);
    LogHolds(names, u);
    LogHolds(names, v);
    LogByLast(names, u, v);
  }

  lemma OrderByName(h: seq<Entry<Table>>, u: Table, v: Table)
    requires u != FacilitySubbasins && u != TmntFacilityAttribute
    requires v != FacilitySubbasins && v != TmntFacilityAttribute
    requires LastOf(NamesOf(h), u) < LastOf(NamesOf(h), v)
    ensures LastWrite(h, u) < LastWrite(h, v)
  {
    NameLast(h, u);
    NameLast(h, v);
  }

  lemma BoundaryStages()
    ensures RefreshSlot(TmntFacility).0 < RefreshSlot(LguBoundary).0 < 3
    ensures TmntFacility !in Optional() && LguBoundary !in Optional()
  {
  }

  lemma BoundariesAreYounger<D>(n: Night<D>)
    requires Refreshes(n)
    ensures var h := History(Refreshed(n));
            LastWrite(h, TmntFacility) < LastWrite(h, LguBoundary)
  {
    BoundaryStages();
    RefreshWritesAll(Found(n).log, n.events, LguBoundary);
    RefreshedInOrder(n, TmntFacility, LguBoundary);
    OrderByName(History(Refreshed(n)), TmntFacility, LguBoundary);
  }

  lemma LocatedByName(h: seq<Entry<Table>>, u: Table)
    requires u != FacilitySubbasins && u != TmntFacilityAttribute
    requires LastWrite(h, FacilitySubbasins) == LastWrite(h, TmntFacilityAttribute) + 1
    requires LastOf(NamesOf(h), u) < LastOf(NamesOf(h), TmntFacilityAttribute)
    ensures LastWrite(h, u) < LastWrite(h, FacilitySubbasins)
  {
    NameLast(h, u);
    NameLast(h, TmntFacilityAttribute);
  }

  lemma AttributeStages(u: Table)
    requires u == TmntFacility || u == Subbasin
    ensures RefreshSlot(u).0 < RefreshSlot(TmntFacilityAttribute).0 < 3 && u !in Optional()
  {
  }

  lemma LocatedLast<D>(n: Night<D>, u: Table)
    requires Refreshes(n) && (u == TmntFacility || u == Subbasin)
    ensures var h := History(Refreshed(n));
            LastWrite(h, u) < LastWrite(h, FacilitySubbasins) <==>
            TmntFacilityAttribute in End(Found(n).log, n.events).written
  {
    var h := History(Refreshed(n));
    AttributeStages(u);
    RefreshedWrites(n, TmntFacilityAttribute);
    RefreshedFills(n);
    if TmntFacilityAttribute in End(Found(n).log, n.events).written {
      RefreshedInOrder(n, u, TmntFacilityAttribute);
      LocatedByName(h, u);
    } else {
      RefreshWritesAll(Found(n).log, n.events, u);
      RefreshedWrites(n, u);
    }
  }

  /** Clean, and to be trusted exactly when the attribute task wrote, and wrote what a rebuild would. */
  lemma GuardsByFill<D>(n: Night<D>)
    requires Refreshes(n)
    ensures var h := History(Refreshed(n));
            && ReportedClean(n.c, h, SubbasinResult)
            && (ResultsRebuilt(h) && Guarded(h) <==>
                TmntFacilityAttribute in End(Found(n).log, n.events).written && n.fill.Rebuild?)
  {
    var h := History(Refreshed(n));
    RefreshedLog(n);
    BoundariesAreYounger(n);
    LocatedLast(n, TmntFacility);
    LocatedLast(n, Subbasin);
    RefreshedWrites(n, TmntFacilityAttribute);
    RefreshedFills(n);
    forall v | IsComputed(v) && v != FacilitySubbasins
      ensures LastRebuilt(h, v)
    {
      RefreshRebuilds(n, v);
    }
    if TmntFacilityAttribute in End(Found(n).log, n.events).written {
      RefreshedEntry(n, LastWrite(h, FacilitySubbasins));
    }
    assert IsComputed(FacilitySubbasins);
  }

  /** The refresh can always complete, with its attribute task writing or not. */
  lemma RefreshCompletes(log0: seq<Table>, fills: bool) returns (events: seq<Event>)
    ensures Completes(log0, events)
    ensures TmntFacilityAttribute in End(log0, events).written <==> fills
  {
    var plan, t := RefreshAllPlan(), TmntFacilityAttribute;
    var start := Start(plan, log0);
    if fills {
      events := CanComplete(plan, {}, {}, start, 0);
      var (a, b, i) := RefreshSlot(t);
      PlansDistinct();
      StartTracked(plan, {}, log0);
      RunTracked(plan, {}, log0, start, events);
      RefreshSlots(a, b, i, t);
      assert Done(plan, After(plan, {}, start, events), a, b, i);
      WithoutSkips(plan, Optional(), start, events);
    } else {
      events := CanComplete(plan, Optional(), Optional(), start, 0);
      assert t in Optional();
    }
  }

  lemma GuardsButLocation(h: seq<Entry<Table>>, z: Table, v: Table)
    requires LastWrite(h, TmntFacility) < LastWrite(h, LguBoundary)
    requires (z, v) in Undeclared() && v != FacilitySubbasins
    ensures LastWrite(h, z) < LastWrite(h, v)
  {
  }

  lemma RefreshedIsCurrent<D>(n: Night<D>, v: Table)
    requires Refreshes(n) && IsComputed(v) && v != FacilitySubbasins
    ensures Part(n.c, v)
    ensures var end := Left(n);
            end.content[v] == BuildNow(n.c, end, v)
  {
    var steps, undeclared := Refreshed(n), Undeclared();
    ComputedFeeds(n.c, v);
    RefreshedLog(n);
    BoundariesAreYounger(n);
    ApplicationDeclares(n.c);
    RefreshRebuilds(n, v);
    forall z | (z, v) in undeclared
      ensures LastWrite(History(steps), z) < LastWrite(History(steps), v)
    {
      GuardsButLocation(History(steps), z, v);
    }
    CleanIsCurrent(n.c, n.s0, steps, SubbasinResult, undeclared, v);
  }
}
