/**
 * A completed `refresh_all` with its attribute task as it is: when what it leaves
 * behind is what a recomputation gives.
 */
module RefreshFills {
  import opened FacilityAttributes
  import opened Warehouse
  import opened Workflows
  import opened Tables
  import opened Refresh
  import opened RefreshRuns

  /******* What the tasks leave *******/

  lemma PlayedWrites<D>(c: Pipeline<Table, D>, s: Store<Table, D>, events: seq<Event>, rows: Table -> D,
                        fill: Step<Table, D>, u: Table)
    requires Playable(c, s, events, fill) && u != FacilitySubbasins
    ensures u in After(RefreshAllPlan(), Optional(), Start(RefreshAllPlan(), s.log), events).written <==>
            LastWrite(History(Played(c, s, events, rows, fill)), u) >= 0
  {
    RefreshIsNamed();
    PlayWrites(RefreshAllPlan(), Optional(), Start(RefreshAllPlan(), s.log), events, rows, fill, u);
  }

  /** A written base table holds what its task fetched. */
  lemma PlayedRows<D>(c: Pipeline<Table, D>, s: Store<Table, D>, events: seq<Event>, rows: Table -> D,
                      fill: Step<Table, D>, u: Table)
    requires Playable(c, s, events, fill) && !IsComputed(u) && u != TmntV && u != ResultV
    requires u in After(RefreshAllPlan(), Optional(), Start(RefreshAllPlan(), s.log), events).written
    ensures Part(c, u) && Run(c, s, Played(c, s, events, rows, fill)).content[u] == rows(u)
  {
    var steps := Played(c, s, events, rows, fill);
    var i := LastWrite(History(steps), u);
    PlayedWrites(c, s, events, rows, fill, u);
    PlayIsEnabled(c, s, events, rows, fill);
    assert steps[i] in steps && steps[i].t == u;
    assert Part(c, u);
    LastEdited(c, s, steps, u);
  }

  /** The locations stay as they are until the attribute task writes. */
  lemma PlayedKeepsLocations<D>(c: Pipeline<Table, D>, s: Store<Table, D>, events: seq<Event>, rows: Table -> D,
                                fill: Step<Table, D>)
    requires Playable(c, s, events, fill)
    requires TmntFacilityAttribute !in
             After(RefreshAllPlan(), Optional(), Start(RefreshAllPlan(), s.log), events).written
    ensures Part(c, FacilitySubbasins)
    ensures Run(c, s, Played(c, s, events, rows, fill)).content[FacilitySubbasins] == s.content[FacilitySubbasins]
  {
    RefreshIsNamed();
    PlayedWrites(c, s, events, rows, fill, TmntFacilityAttribute);
    PlayFills(RefreshAllPlan(), Optional(), Start(RefreshAllPlan(), s.log), events, rows, fill);
    assert Part(c, FacilitySubbasins);
    NeverWritten(c, s, Played(c, s, events, rows, fill), FacilitySubbasins);
  }

  lemma PlayedLocations<D>(c: Pipeline<Table, D>, s: Store<Table, D>, events: seq<Event>, rows: Table -> D,
                           fill: Step<Table, D>)
    requires Playable(c, s, events, fill) && fill.Edit?
    requires TmntFacilityAttribute in
             After(RefreshAllPlan(), Optional(), Start(RefreshAllPlan(), s.log), events).written
    ensures Part(c, FacilitySubbasins)
    ensures Run(c, s, Played(c, s, events, rows, fill)).content[FacilitySubbasins] == fill.rows
  {
    var steps := Played(c, s, events, rows, fill);
    RefreshIsNamed();
    PlayedWrites(c, s, events, rows, fill, TmntFacilityAttribute);
    PlayFills(RefreshAllPlan(), Optional(), Start(RefreshAllPlan(), s.log), events, rows, fill);
    PlayIsEnabled(c, s, events, rows, fill);
    var i := LastWrite(History(steps), FacilitySubbasins);
    assert steps[i] in steps && steps[i].t == FacilitySubbasins;
    assert Part(c, FacilitySubbasins);
    LastEdited(c, s, steps, FacilitySubbasins);
  }

  lemma LeftIsPlayed<D>(n: Night<D>)
    requires Refreshes(n)
    ensures Left(n) == Run(n.c, Found(n), Played(n.c, Found(n), n.events, n.rows, n.fill))
  {
    RunAppend(n.c, n.s0, n.earlier, Played(n.c, Found(n), n.events, n.rows, n.fill));
  }

  /******* The turn of the attribute task *******/

  /** How facilities, subbasins and located columns are read off the rows of their tables. */
  datatype Codec<!D> = Codec(
    facilities: D -> Facilities,
    subbasins: D -> Subbasins,
    located: D -> map<string, string>,
    rows: map<string, string> -> D)

  /** The write of a fill, a rebuild where that is what it comes to. */
  function FillStep<D>(k: Codec<D>, recorded: map<string, string>, facilities: Facilities, subbasins: Subbasins)
      : (fill: Step<Table, D>)
    ensures fill.t == FacilitySubbasins
  {
    var filled := Filled(recorded, facilities, subbasins);
    if filled == AllLocated(facilities, subbasins) then Rebuild(FacilitySubbasins)
    else Edit(FacilitySubbasins, k.rows(filled))
  }

  ghost predicate HoldsLocations<D>(s: Store<Table, D>) {
    TmntFacility in s.content && Subbasin in s.content && FacilitySubbasins in s.content
  }

  /** `update_tmnt_attributes` on what it finds in this store. */
  ghost predicate FillsAsFound<D>(k: Codec<D>, s: Store<Table, D>, e: Event, fill: Step<Table, D>)
    requires HoldsLocations(s)
  {
    var facilities, recorded := k.facilities(s.content[TmntFacility]), k.located(s.content[FacilitySubbasins]);
    && (e.Write? <==> Unfilled(facilities, recorded.Keys) != map[])
    && (e.Write? ==> fill == FillStep(k, recorded, facilities, k.subbasins(s.content[Subbasin])))
  }

  lemma LocationsAreStored<D>(c: Pipeline<Table, D>, s: Store<Table, D>)
    requires Resembles(c) && ValidStore(c, s)
    ensures HoldsLocations(s) && Part(c, TmntFacility) && Part(c, Subbasin) && Part(c, FacilitySubbasins)
  {
    assert Part(c, TmntFacility) && Part(c, Subbasin) && Part(c, FacilitySubbasins);
  }

  lemma PrefixIsPlayable<D>(n: Night<D>, j: nat)
    requires Refreshes(n) && j <= |n.events|
    ensures Playable(n.c, Found(n), n.events[..j], n.fill)
  {
    assert n.events == n.events[..j] + n.events[j..];
    RunSplits(RefreshAllPlan(), Optional(), Start(RefreshAllPlan(), Found(n).log), n.events[..j], n.events[j..]);
  }

  ghost function ProgressAt<D>(n: Night<D>, j: nat): Progress<Table>
    requires Refreshes(n) && j <= |n.events|
  {
    PrefixIsPlayable(n, j);
    After(RefreshAllPlan(), Optional(), Start(RefreshAllPlan(), Found(n).log), n.events[..j])
  }

  /** The store when event `j` comes. */
  ghost function StoreAt<D>(n: Night<D>, j: nat): (s: Store<Table, D>)
    requires Refreshes(n) && j <= |n.events|
    ensures ValidStore(n.c, s) && HoldsLocations(s)
  {
    PrefixIsPlayable(n, j);
    var s := Run(n.c, Found(n), Played(n.c, Found(n), n.events[..j], n.rows, n.fill));
    LocationsAreStored(n.c, s);
    s
  }

  ghost predicate IsTurn<D>(n: Night<D>, j: nat)
    requires Refreshes(n) && j < |n.events|
  {
    var (a, b, i) := RefreshSlot(TmntFacilityAttribute);
    && ValidProgress(RefreshAllPlan(), ProgressAt(n, j))
    && TurnOf(RefreshAllPlan(), ProgressAt(n, j), n.events[j], a, b, i)
  }

  /** Whenever the attribute task gets its turn, it does what it does on the store of that moment. */
  ghost predicate TaskFills<D>(k: Codec<D>, n: Night<D>)
    requires Refreshes(n)
  {
    forall j :: 0 <= j < |n.events| && IsTurn(n, j) ==> FillsAsFound(k, StoreAt(n, j), n.events[j], n.fill)
  }

  /** The facilities and subbasins that the refresh fetches, and the locations recorded before it. */
  function FetchedFacilities<D>(k: Codec<D>, n: Night<D>): Facilities {
    k.facilities(n.rows(TmntFacility))
  }

  function FetchedSubbasins<D>(k: Codec<D>, n: Night<D>): Subbasins {
    k.subbasins(n.rows(Subbasin))
  }

  ghost function Recorded<D>(k: Codec<D>, n: Night<D>): map<string, string>
    requires Begins(n)
  {
    LocationsAreStored(n.c, Found(n));
    k.located(Found(n).content[FacilitySubbasins])
  }

  lemma AttributeSlot()
    ensures At(RefreshAllPlan(), 1, 0, 0, TmntFacilityAttribute) && RefreshSlot(TmntFacilityAttribute) == (1, 0, 0)
  {
    RefreshSlots(1, 0, 0, TmntFacilityAttribute);
  }

  /** It gets its turn. */
  lemma TurnComes<D>(n: Night<D>) returns (j: nat)
    requires Refreshes(n)
    ensures j < |n.events| && IsTurn(n, j)
  {
    AttributeSlot();
    j := TurnExists(RefreshAllPlan(), Optional(), Start(RefreshAllPlan(), Found(n).log), n.events, 1, 0, 0);
  }

  lemma FirstStageIsWritten<D>(n: Night<D>, j: nat, u: Table)
    requires Refreshes(n) && j <= |n.events| && ProgressAt(n, j).stage >= 1
    requires RefreshSlot(u).0 == 0
    ensures u in ProgressAt(n, j).written
  {
    var plan, start := RefreshAllPlan(), Start(RefreshAllPlan(), Found(n).log);
    var (a, b, i) := RefreshSlot(u);
    PlansDistinct();
    PrefixIsPlayable(n, j);
    StartTracked(plan, Optional(), Found(n).log);
    RunTracked(plan, Optional(), Found(n).log, start, n.events[..j]);
    RefreshSlots(a, b, i, u);
    assert Done(plan, ProgressAt(n, j), a, b, i);
  }

  lemma RowsAtTurn<D>(n: Night<D>, j: nat, u: Table)
    requires Refreshes(n) && j <= |n.events| && ProgressAt(n, j).stage >= 1
    requires u == TmntFacility || u == Subbasin
    ensures u in StoreAt(n, j).content && StoreAt(n, j).content[u] == n.rows(u)
  {
    PrefixIsPlayable(n, j);
    FirstStageIsWritten(n, j, u);
    PlayedRows(n.c, Found(n), n.events[..j], n.rows, n.fill, u);
  }

  lemma KeptAtTurn<D>(n: Night<D>, j: nat)
    requires Refreshes(n) && j <= |n.events| && TmntFacilityAttribute !in ProgressAt(n, j).written
    ensures HoldsLocations(Found(n))
    ensures StoreAt(n, j).content[FacilitySubbasins] == Found(n).content[FacilitySubbasins]
  {
    PrefixIsPlayable(n, j);
    PlayedKeepsLocations(n.c, Found(n), n.events[..j], n.rows, n.fill);
    LocationsAreStored(n.c, Found(n));
  }

  /** At its turn the first stage is over and nobody has touched the locations. */
  lemma StoreAtTurn<D>(n: Night<D>, j: nat)
    requires Refreshes(n) && j <= |n.events| && ProgressAt(n, j).stage >= 1
    requires TmntFacilityAttribute !in ProgressAt(n, j).written
    ensures var s := StoreAt(n, j);
            && s.content[TmntFacility] == n.rows(TmntFacility) && s.content[Subbasin] == n.rows(Subbasin)
            && HoldsLocations(Found(n)) && s.content[FacilitySubbasins] == Found(n).content[FacilitySubbasins]
  {
    RowsAtTurn(n, j, TmntFacility);
    RowsAtTurn(n, j, Subbasin);
    KeptAtTurn(n, j);
  }

  lemma AtTurn<D>(n: Night<D>, j: nat)
    requires Refreshes(n) && j < |n.events| && IsTurn(n, j)
    ensures TmntFacilityAttribute !in ProgressAt(n, j).written && ProgressAt(n, j).stage >= 1
    ensures n.events[j].Write? <==> TmntFacilityAttribute in End(Found(n).log, n.events).written
  {
    AttributeSlot();
    PlansDistinct();
    PrefixIsPlayable(n, j);
    TurnDecides(RefreshAllPlan(), Optional(), Found(n).log, n.events, j, 1, 0, 0, TmntFacilityAttribute);
  }

  /** So it writes exactly when a facility is new, and what follows from what was recorded and fetched. */
  lemma FillIsDecided<D>(k: Codec<D>, n: Night<D>)
    requires Refreshes(n)
    ensures TaskFills(k, n) <==>
            && (TmntFacilityAttribute in End(Found(n).log, n.events).written <==>
                Unfilled(FetchedFacilities(k, n), Recorded(k, n).Keys) != map[])
            && (TmntFacilityAttribute in End(Found(n).log, n.events).written ==>
                n.fill == FillStep(k, Recorded(k, n), FetchedFacilities(k, n), FetchedSubbasins(k, n)))
  {
    var j := TurnComes(n);
    AtTurn(n, j);
    StoreAtTurn(n, j);
    if TaskFills(k, n) {
      assert FillsAsFound(k, StoreAt(n, j), n.events[j], n.fill);
    }
    forall i | 0 <= i < |n.events| && IsTurn(n, i)
      ensures FillsAsFound(k, StoreAt(n, i), n.events[i], n.fill) <==>
              FillsAsFound(k, StoreAt(n, j), n.events[j], n.fill)
    {
      AtTurn(n, i);
      StoreAtTurn(n, i);
    }
  }

  /**
   * After any earlier history and in any interleaving a completed refresh is reported
   * clean; it meets the conditions under which "clean" is to be trusted exactly when
   * some facility is new, no recorded one has vanished, and each lies where recorded.
   */
  lemma RefreshMeetsGuardsExactlyWhen<D>(k: Codec<D>, n: Night<D>)
    requires Refreshes(n) && TaskFills(k, n)
    ensures var h, recorded, facilities := History(Refreshed(n)), Recorded(k, n), FetchedFacilities(k, n);
            && ReportedClean(n.c, h, SubbasinResult)
            && (ResultsRebuilt(h) && Guarded(h) <==>
                && Unfilled(facilities, recorded.Keys) != map[]
                && recorded.Keys <= facilities.Keys && StillHold(recorded, facilities, FetchedSubbasins(k, n)))
  {
    GuardsByFill(n);
    FillIsDecided(k, n);
    FillIsOverwriteExactlyWhen(Recorded(k, n), FetchedFacilities(k, n), FetchedSubbasins(k, n));
  }

  /** Such a refresh exists after any earlier history, whatever it fetches. */
  lemma RefreshCanRun<D>(k: Codec<D>, c: Pipeline<Table, D>, s0: Store<Table, D>, earlier: seq<Step<Table, D>>,
                         rows: Table -> D) returns (n: Night<D>)
    requires Resembles(c) && ValidStore(c, s0) && s0.log == []
    requires forall step :: step in earlier ==> Enabled(c, step)
    ensures n.c == c && n.s0 == s0 && n.earlier == earlier && n.rows == rows
    ensures Refreshes(n) && TaskFills(k, n)
  {
    var found := Run(c, s0, earlier);
    LocationsAreStored(c, found);
    var recorded := k.located(found.content[FacilitySubbasins]);
    var facilities, subbasins := k.facilities(rows(TmntFacility)), k.subbasins(rows(Subbasin));
    var fill := FillStep(k, recorded, facilities, subbasins);
    ComputedFeeds(c, FacilitySubbasins);
    var events := RefreshCompletes(found.log, Unfilled(facilities, recorded.Keys) != map[]);
    n := Night(c, s0, earlier, events, rows, fill);
    FillIsDecided(k, n);
  }

  /******* Fresh results *******/

  /** Located columns read back as they were written. */
  ghost predicate ReadsBack<D>(k: Codec<D>) {
    forall m :: k.located(k.rows(m)) == m
  }

  /** A rebuild of the located columns locates every facility. */
  ghost predicate Locates<D(!new)>(c: Pipeline<Table, D>, k: Codec<D>) {
    forall m: map<Table, D> :: TmntFacility in m && Subbasin in m ==>
      c.build(FacilitySubbasins, m) == k.rows(AllLocated(k.facilities(m[TmntFacility]), k.subbasins(m[Subbasin])))
  }

  /** What `tmnt_v` shows of these rows: the located columns of present facilities. */
  function Joined<D>(k: Codec<D>, m: map<Table, D>): map<Table, D> {
    if FacilitySubbasins in m && TmntFacility in m
    then m[FacilitySubbasins := k.rows(Shown(k.located(m[FacilitySubbasins]), k.facilities(m[TmntFacility])))]
    else m
  }

  /** Everything reads the located columns through that join. */
  ghost predicate ReadsJoined<D(!new)>(c: Pipeline<Table, D>, k: Codec<D>) {
    forall t: Table, m: map<Table, D> :: c.build(t, m) == c.build(t, Joined(k, m))
  }

  ghost predicate Fits<D(!new)>(c: Pipeline<Table, D>, k: Codec<D>) {
    ReadsBack(k) && Locates(c, k) && ReadsJoined(c, k)
  }

  lemma LocatesAt<D(!new)>(c: Pipeline<Table, D>, k: Codec<D>, m: map<Table, D>, f: D, b: D)
    requires Locates(c, k) && TmntFacility in m && Subbasin in m && m[TmntFacility] == f && m[Subbasin] == b
    ensures c.build(FacilitySubbasins, m) == k.rows(AllLocated(k.facilities(f), k.subbasins(b)))
  {
  }

  lemma LocationsReadStored<D>(c: Pipeline<Table, D>, s: Store<Table, D>, x: Table)
    requires Resembles(c) && ValidStore(c, s) && x == FacilitySubbasins
    ensures HoldsLocations(s) && Part(c, x)
    ensures var m := Reads(c, s, x);
            && TmntFacility in m && m[TmntFacility] == s.content[TmntFacility]
            && Subbasin in m && m[Subbasin] == s.content[Subbasin]
  {
    LocationsAreStored(c, s);
    ReadsStored(c, s, x, TmntFacility);
    ReadsStored(c, s, x, Subbasin);
  }

  lemma BuildsLocations<D(!new)>(c: Pipeline<Table, D>, k: Codec<D>, s: Store<Table, D>)
    requires Resembles(c) && ValidStore(c, s) && Locates(c, k)
    ensures HoldsLocations(s) && Part(c, FacilitySubbasins)
    ensures BuildNow(c, s, FacilitySubbasins)
         == k.rows(AllLocated(k.facilities(s.content[TmntFacility]), k.subbasins(s.content[Subbasin])))
  {
    LocationsReadStored(c, s, FacilitySubbasins);
    BuildsFromReads(c, s, FacilitySubbasins);
    LocatesAt(c, k, Reads(c, s, FacilitySubbasins), s.content[TmntFacility], s.content[Subbasin]);
  }

  lemma PlannedRows<D>(n: Night<D>, u: Table)
    requires Refreshes(n) && (u == TmntFacility || u == Subbasin)
    ensures u in Left(n).content && Left(n).content[u] == n.rows(u)
  {
    LeftIsPlayed(n);
    RefreshWritesAll(Found(n).log, n.events, u);
    PlayedRows(n.c, Found(n), n.events, n.rows, n.fill, u);
  }

  lemma LeftRows<D>(n: Night<D>)
    requires Refreshes(n)
    ensures HoldsLocations(Left(n))
    ensures Left(n).content[TmntFacility] == n.rows(TmntFacility) && Left(n).content[Subbasin] == n.rows(Subbasin)
  {
    LocationsAreStored(n.c, Left(n));
    PlannedRows(n, TmntFacility);
    PlannedRows(n, Subbasin);
  }

  lemma ReadsAreOlder<D>(c: Pipeline<Table, D>, h: seq<Entry<Table>>, x: Table)
    requires Resembles(c) && IsComputed(x)
    requires forall z :: z in Consults(x) ==> LastWrite(h, z) < LastWrite(h, x)
    ensures Part(c, x) && InputsOlder(c, h, x)
  {
    ComputedInputs(c, x);
  }

  lemma LocationReads(h: seq<Entry<Table>>)
    requires Guarded(h)
    ensures forall z :: z in Consults(FacilitySubbasins) ==> LastWrite(h, z) < LastWrite(h, FacilitySubbasins)
  {
  }

  /** A fill that came to a rebuild is one, on what the refresh leaves. */
  lemma LeftRebuilt<D>(n: Night<D>)
    requires Refreshes(n) && n.fill.Rebuild?
    requires TmntFacilityAttribute in End(Found(n).log, n.events).written
    ensures Part(n.c, FacilitySubbasins)
    ensures Left(n).content[FacilitySubbasins] == BuildNow(n.c, Left(n), FacilitySubbasins)
  {
    var h := History(Refreshed(n));
    GuardsByFill(n);
    LocationReads(h);
    ReadsAreOlder(n.c, h, FacilitySubbasins);
    ComputedFeeds(n.c, FacilitySubbasins);
    assert IsComputed(FacilitySubbasins) && LastRebuilt(h, FacilitySubbasins);
    RebuiltIsCurrent(n.c, n.s0, Refreshed(n), FacilitySubbasins);
  }

  lemma LeftLocatedAnew<D(!new)>(k: Codec<D>, n: Night<D>)
    requires Refreshes(n) && n.fill.Rebuild? && ReadsBack(k) && Locates(n.c, k)
    requires TmntFacilityAttribute in End(Found(n).log, n.events).written
    ensures HoldsLocations(Left(n))
    ensures k.located(Left(n).content[FacilitySubbasins]) == AllLocated(FetchedFacilities(k, n), FetchedSubbasins(k, n))
  {
    LeftRebuilt(n);
    BuildsLocations(n.c, k, Left(n));
    LeftRows(n);
  }

  lemma LeftAsWritten<D>(n: Night<D>)
    requires Refreshes(n)
    ensures HoldsLocations(Left(n)) && HoldsLocations(Found(n))
    ensures var written := TmntFacilityAttribute in End(Found(n).log, n.events).written;
            && (!written ==> Left(n).content[FacilitySubbasins] == Found(n).content[FacilitySubbasins])
            && (written && n.fill.Edit? ==> Left(n).content[FacilitySubbasins] == n.fill.rows)
  {
    LeftIsPlayed(n);
    LocationsAreStored(n.c, Left(n));
    LocationsAreStored(n.c, Found(n));
    if TmntFacilityAttribute !in End(Found(n).log, n.events).written {
      PlayedKeepsLocations(n.c, Found(n), n.events, n.rows, n.fill);
    } else if n.fill.Edit? {
      PlayedLocations(n.c, Found(n), n.events, n.rows, n.fill);
    }
  }

  /** The locations that the refresh leaves are a fill of the recorded ones. */
  lemma LeftLocated<D(!new)>(k: Codec<D>, n: Night<D>)
    requires Refreshes(n) && TaskFills(k, n) && ReadsBack(k) && Locates(n.c, k)
    ensures HoldsLocations(Left(n))
    ensures k.located(Left(n).content[FacilitySubbasins])
         == Filled(Recorded(k, n), FetchedFacilities(k, n), FetchedSubbasins(k, n))
  {
    LeftAsWritten(n);
    FillIsDecided(k, n);
    if TmntFacilityAttribute !in End(Found(n).log, n.events).written {
      NothingToFill(Recorded(k, n), FetchedFacilities(k, n), FetchedSubbasins(k, n));
    } else if n.fill.Rebuild? {
      LeftLocatedAnew(k, n);
    }
  }

  /** The shown locations are where the facilities now lie. */
  ghost predicate Located<D>(k: Codec<D>, s: Store<Table, D>)
    requires HoldsLocations(s)
  {
    var facilities := k.facilities(s.content[TmntFacility]);
    Shown(k.located(s.content[FacilitySubbasins]), facilities)
    == AllLocated(facilities, k.subbasins(s.content[Subbasin]))
  }

  lemma LocatedExactlyWhen<D(!new)>(k: Codec<D>, n: Night<D>)
    requires Refreshes(n) && TaskFills(k, n) && ReadsBack(k) && Locates(n.c, k)
    ensures HoldsLocations(Left(n))
    ensures Located(k, Left(n)) <==> StillHold(Recorded(k, n), FetchedFacilities(k, n), FetchedSubbasins(k, n))
  {
    LeftLocated(k, n);
    LeftRows(n);
    FillIsFullExactlyWhen(Recorded(k, n), FetchedFacilities(k, n), FetchedSubbasins(k, n));
  }

  /** The same store with the locations built anew. */
  ghost function Relocated<D>(c: Pipeline<Table, D>, s: Store<Table, D>): (next: Store<Table, D>)
    requires Resembles(c) && ValidStore(c, s)
    ensures ValidStore(c, next)
  {
    LocationsAreStored(c, s);
    s.(content := s.content[FacilitySubbasins := BuildNow(c, s, FacilitySubbasins)])
  }

  lemma FillReaders(x: Table)
    requires FacilitySubbasins in Consults(x)
    ensures TmntFacility in Consults(x)
  {
    ByReads(x);
  }

  lemma ShownLocated(facilities: Facilities, subbasins: Subbasins)
    ensures Shown(AllLocated(facilities, subbasins), facilities) == AllLocated(facilities, subbasins)
  {
  }

  lemma JoinedAlike<D>(k: Codec<D>, m: map<Table, D>, m': map<Table, D>)
    requires m.Keys == m'.Keys && forall y :: y in m && y != FacilitySubbasins ==> m[y] == m'[y]
    requires FacilitySubbasins in m ==>
               && TmntFacility in m
               && var facilities := k.facilities(m[TmntFacility]);
                  Shown(k.located(m[FacilitySubbasins]), facilities)
                  == Shown(k.located(m'[FacilitySubbasins]), facilities)
    ensures Joined(k, m) == Joined(k, m')
  {
  }

  /** Nobody can tell the two apart where the shown locations are right. */
  lemma RelocatedLooksSame<D(!new)>(c: Pipeline<Table, D>, k: Codec<D>, s: Store<Table, D>, x: Table)
    requires Resembles(c) && ValidStore(c, s) && Fits(c, k) && HoldsLocations(s) && Located(k, s)
    requires IsComputed(x)
    ensures Part(c, x) && BuildNow(c, s, x) == BuildNow(c, Relocated(c, s), x)
  {
    var s' := Relocated(c, s);
    assert Part(c, x);
    BuildsLocations(c, k, s);
    forall y
      ensures y in Reads(c, s, x) <==> y in Reads(c, s', x)
      ensures y in Reads(c, s, x) && y != FacilitySubbasins ==> Reads(c, s, x)[y] == Reads(c, s', x)[y]
    {
      ReadsStored(c, s, x, y);
      ReadsStored(c, s', x, y);
    }
    ReadsStored(c, s, x, FacilitySubbasins);
    ReadsStored(c, s', x, FacilitySubbasins);
    ReadsStored(c, s, x, TmntFacility);
    if FacilitySubbasins in Consults(x) {
      FillReaders(x);
    }
    ShownLocated(k.facilities(s.content[TmntFacility]), k.subbasins(s.content[Subbasin]));
    JoinedAlike(k, Reads(c, s, x), Reads(c, s', x));
    assert BuildNow(c, s, x) == c.build(x, Reads(c, s, x)) == c.build(x, Joined(k, Reads(c, s, x)));
    assert BuildNow(c, s', x) == c.build(x, Reads(c, s', x)) == c.build(x, Joined(k, Reads(c, s', x)));
  }

  /**
   * All stages together: after any earlier history, every completed interleaving of
   * the refresh leaves results that are what a recomputation from the base tables
   * gives, however tables are computed - provided the locations recorded before it
   * still hold for the facilities and subbasins it fetched.
   */
  lemma RefreshedIsFresh<D(!new)>(k: Codec<D>, n: Night<D>)
    requires Refreshes(n) && TaskFills(k, n) && Fits(n.c, k)
    requires StillHold(Recorded(k, n), FetchedFacilities(k, n), FetchedSubbasins(k, n))
    ensures Left(n).content[SubbasinResult] == Recompute(n.c, Left(n), SubbasinResult)
  {
    var end := Left(n);
    var end' := Relocated(n.c, end);
    ApplicationDeclares(n.c);
    LocatedExactlyWhen(k, n);
    forall v | Derived(n.c, v) && Feeds(n.c, v, SubbasinResult)
      ensures end'.content[v] == BuildNow(n.c, end', v)
    {
      ComputedFeeds(n.c, v);
      RelocatedLooksSame(n.c, k, end, v);
      if v != FacilitySubbasins {
        RefreshedIsCurrent(n, v);
      }
    }
    CurrentIsFresh(n.c, end', SubbasinResult, Undeclared());
    ComputedFeeds(n.c, FacilitySubbasins);
    RecomputeFrame(n.c, end, end', SubbasinResult);
  }

  /******* Stale results *******/

  /** Builders that pass the shown locations on to the results. */
  function PassOn<D>(k: Codec<D>, t: Table, m: map<Table, D>): D {
    match t
    case FacilitySubbasins =>
      if TmntFacility in m && Subbasin in m
      then k.rows(AllLocated(k.facilities(m[TmntFacility]), k.subbasins(m[Subbasin]))) else k.rows(map[])
    case GraphEdge =>
      if FacilitySubbasins in m && TmntFacility in m
      then k.rows(Shown(k.located(m[FacilitySubbasins]), k.facilities(m[TmntFacility]))) else k.rows(map[])
    case ResultBlob => if GraphEdge in m then m[GraphEdge] else k.rows(map[])
    case LoadToDsSrcCtrl => if ResultBlob in m then m[ResultBlob] else k.rows(map[])
    case SubbasinResult => if LoadToDsSrcCtrl in m then m[LoadToDsSrcCtrl] else k.rows(map[])
    case _ => k.rows(map[])
  }

  function Passing<D>(k: Codec<D>): (Table, map<Table, D>) -> D {
    (t, m) => PassOn(k, t, m)
  }

  lemma ShownTwice(column: map<string, string>, facilities: Facilities)
    ensures Shown(Shown(column, facilities), facilities) == Shown(column, facilities)
  {
  }

  lemma PassesJoined<D>(k: Codec<D>, t: Table, m: map<Table, D>)
    requires ReadsBack(k)
    ensures PassOn(k, t, m) == PassOn(k, t, Joined(k, m))
  {
    if FacilitySubbasins in m && TmntFacility in m {
      ShownTwice(k.located(m[FacilitySubbasins]), k.facilities(m[TmntFacility]));
    }
  }

  /** Table `y` is the one that `x` passes on. */
  predicate Hands(x: Table, y: Table) {
    || (x == ResultBlob && y == GraphEdge) || (x == LoadToDsSrcCtrl && y == ResultBlob)
    || (x == SubbasinResult && y == LoadToDsSrcCtrl)
  }

  lemma HandsReads(x: Table, y: Table)
    requires Hands(x, y)
    ensures IsComputed(x) && y in Consults(x)
  {
  }

  /** The edges show the locations of present facilities. */
  ghost predicate ShowsOn<D(!new)>(c: Pipeline<Table, D>, k: Codec<D>) {
    forall m: map<Table, D> :: FacilitySubbasins in m && TmntFacility in m ==>
      c.build(GraphEdge, m) == k.rows(Shown(k.located(m[FacilitySubbasins]), k.facilities(m[TmntFacility])))
  }

  ghost predicate HandsOn<D(!new)>(c: Pipeline<Table, D>) {
    forall x, y, m: map<Table, D> :: Hands(x, y) && y in m ==> c.build(x, m) == m[y]
  }

  ghost predicate Passes<D(!new)>(c: Pipeline<Table, D>, k: Codec<D>) {
    Resembles(c) && Fits(c, k) && ShowsOn(c, k) && HandsOn(c)
  }

  lemma PassingReadsJoined<D(!new)>(c: Pipeline<Table, D>, k: Codec<D>)
    requires ReadsBack(k) && c.build == Passing(k)
    ensures ReadsJoined(c, k)
  {
    forall t: Table, m: map<Table, D>
      ensures c.build(t, m) == c.build(t, Joined(k, m))
    {
      PassesJoined(k, t, m);
    }
  }

  lemma PassingLocates<D(!new)>(c: Pipeline<Table, D>, k: Codec<D>)
    requires c.build == Passing(k)
    ensures Locates(c, k)
  {
  }

  lemma PassingShowsOn<D(!new)>(c: Pipeline<Table, D>, k: Codec<D>)
    requires c.build == Passing(k)
    ensures ShowsOn(c, k) && HandsOn(c)
  {
  }

  lemma PassingPasses<D(!new)>(k: Codec<D>)
    requires ReadsBack(k)
    ensures Passes(Application(Passing(k)), k)
  {
    ApplicationResembles(Passing(k));
    PassingLocates(Application(Passing(k)), k);
    PassingShowsOn(Application(Passing(k)), k);
    PassingReadsJoined(Application(Passing(k)), k);
  }

  lemma PassesOne<D(!new)>(c: Pipeline<Table, D>, k: Codec<D>, s: Store<Table, D>, x: Table, y: Table)
    requires Passes(c, k) && ValidStore(c, s) && Hands(x, y)
    ensures Part(c, x) && Part(c, y) && y in s.content && BuildNow(c, s, x) == s.content[y]
    ensures Recompute(c, s, x) == Recompute(c, s, y)
  {
    HandsReads(x, y);
    BuildsFromReads(c, s, x);
    assert Part(c, y);
    ReadsStored(c, s, x, y);
    FreshReadsAt(c, s, x, y);
  }

  lemma PassesShown<D(!new)>(c: Pipeline<Table, D>, k: Codec<D>, s: Store<Table, D>)
    requires Passes(c, k) && ValidStore(c, s)
    ensures Part(c, GraphEdge) && HoldsLocations(s)
    ensures BuildNow(c, s, GraphEdge)
         == k.rows(Shown(k.located(s.content[FacilitySubbasins]), k.facilities(s.content[TmntFacility])))
  {
    LocationsAreStored(c, s);
    BuildsFromReads(c, s, GraphEdge);
    ReadsStored(c, s, GraphEdge, FacilitySubbasins);
    ReadsStored(c, s, GraphEdge, TmntFacility);
  }

  lemma FreshBase<D>(c: Pipeline<Table, D>, s: Store<Table, D>, x: Table, y: Table)
    requires Resembles(c) && ValidStore(c, s) && IsComputed(x) && Part(c, x) && y in Consults(x)
    requires !IsComputed(y) && y != TmntV && y != ResultV
    ensures y in FreshReads(c, s, x) && y in s.content && FreshReads(c, s, x)[y] == s.content[y]
  {
    FreshReadsAt(c, s, x, y);
    RecomputesBase(c, s, y);
  }

  lemma LocationRead<D>(c: Pipeline<Table, D>, s: Store<Table, D>, x: Table, y: Table)
    requires Resembles(c) && ValidStore(c, s) && x == FacilitySubbasins && (y == TmntFacility || y == Subbasin)
    ensures Part(c, x) && x in s.content && y in s.content
    ensures y in FreshReads(c, s, x) && FreshReads(c, s, x)[y] == s.content[y]
  {
    assert Part(c, x);
    FreshBase(c, s, x, y);
  }

  /** The reads of the located columns, `x`. */
  lemma LocationsRead<D>(c: Pipeline<Table, D>, s: Store<Table, D>, x: Table)
    requires Resembles(c) && ValidStore(c, s) && x == FacilitySubbasins
    ensures HoldsLocations(s) && Part(c, x)
    ensures var m := FreshReads(c, s, x);
            && TmntFacility in m && m[TmntFacility] == s.content[TmntFacility]
            && Subbasin in m && m[Subbasin] == s.content[Subbasin]
  {
    LocationRead(c, s, x, TmntFacility);
    LocationRead(c, s, x, Subbasin);
  }

  /** What a recomputation gives for the locations. */
  lemma RecomputesLocations<D(!new)>(c: Pipeline<Table, D>, k: Codec<D>, s: Store<Table, D>, x: Table)
    requires Resembles(c) && Locates(c, k) && ValidStore(c, s) && x == FacilitySubbasins
    ensures Part(c, x) && HoldsLocations(s)
    ensures Recompute(c, s, x)
         == k.rows(AllLocated(k.facilities(s.content[TmntFacility]), k.subbasins(s.content[Subbasin])))
  {
    BuildsFromReads(c, s, x);
    LocationsRead(c, s, x);
    LocatesAt(c, k, FreshReads(c, s, x), s.content[TmntFacility], s.content[Subbasin]);
  }

  lemma EdgesReadLocations<D>(c: Pipeline<Table, D>, s: Store<Table, D>, g: Table, x: Table)
    requires Resembles(c) && ValidStore(c, s) && g == GraphEdge && x == FacilitySubbasins
    ensures Part(c, g) && Part(c, x) && TmntFacility in s.content
    ensures var m := FreshReads(c, s, g);
            && TmntFacility in m && m[TmntFacility] == s.content[TmntFacility]
            && x in m && m[x] == Recompute(c, s, x)
  {
    assert Part(c, g) && Part(c, x);
    FreshReadsAt(c, s, g, x);
    FreshBase(c, s, g, TmntFacility);
  }

  /** The reads of the edges, `g`. */
  lemma EdgesRead<D(!new)>(c: Pipeline<Table, D>, k: Codec<D>, s: Store<Table, D>, g: Table, x: Table)
    requires Resembles(c) && ValidStore(c, s) && Locates(c, k) && g == GraphEdge && x == FacilitySubbasins
    ensures HoldsLocations(s) && Part(c, g)
    ensures var m, f, b := FreshReads(c, s, g), s.content[TmntFacility], s.content[Subbasin];
            && TmntFacility in m && m[TmntFacility] == f
            && x in m && m[x] == k.rows(AllLocated(k.facilities(f), k.subbasins(b)))
  {
    EdgesReadLocations(c, s, g, x);
    RecomputesLocations(c, k, s, x);
  }

  lemma ShowsAt<D(!new)>(c: Pipeline<Table, D>, k: Codec<D>, m: map<Table, D>, f: D, shown: map<string, string>)
    requires ShowsOn(c, k) && ReadsBack(k) && TmntFacility in m && FacilitySubbasins in m
    requires m[TmntFacility] == f && m[FacilitySubbasins] == k.rows(shown) && Shown(shown, k.facilities(f)) == shown
    ensures c.build(GraphEdge, m) == k.rows(shown)
  {
  }

  /** What a recomputation gives for the edges. */
  lemma RecomputesShown<D(!new)>(c: Pipeline<Table, D>, k: Codec<D>, s: Store<Table, D>, g: Table, x: Table)
    requires Resembles(c) && Locates(c, k) && ShowsOn(c, k) && ReadsBack(k) && ValidStore(c, s)
    requires g == GraphEdge && x == FacilitySubbasins
    ensures Part(c, g) && HoldsLocations(s)
    ensures Recompute(c, s, g)
         == k.rows(AllLocated(k.facilities(s.content[TmntFacility]), k.subbasins(s.content[Subbasin])))
  {
    BuildsFromReads(c, s, g);
    EdgesRead(c, k, s, g, x);
    var f, b := s.content[TmntFacility], s.content[Subbasin];
    ShownLocated(k.facilities(f), k.subbasins(b));
    ShowsAt(c, k, FreshReads(c, s, g), f, AllLocated(k.facilities(f), k.subbasins(b)));
  }

  lemma RefreshedPasses<D(!new)>(k: Codec<D>, n: Night<D>, x: Table, y: Table)
    requires Passes(n.c, k) && Refreshes(n) && Hands(x, y)
    ensures Part(n.c, x) && Part(n.c, y)
    ensures Left(n).content[x] == Left(n).content[y]
    ensures Recompute(n.c, Left(n), x) == Recompute(n.c, Left(n), y)
  {
    HandsReads(x, y);
    PassesOne(n.c, k, Left(n), x, y);
    RefreshedIsCurrent(n, x);
  }

  /**
   * Only then: with builders that pass the shown locations on, the results of such a
   * refresh are fresh exactly when the recorded locations still hold.
   */
  lemma RefreshedIsFreshExactlyWhen<D(!new)>(k: Codec<D>, n: Night<D>)
    requires ReadsBack(k) && n.c == Application(Passing(k)) && Refreshes(n) && TaskFills(k, n)
    ensures Left(n).content[SubbasinResult] == Recompute(n.c, Left(n), SubbasinResult) <==>
            StillHold(Recorded(k, n), FetchedFacilities(k, n), FetchedSubbasins(k, n))
  {
    var end := Left(n);
    PassingPasses(k);
    LocatedExactlyWhen(k, n);
    RefreshedPasses(k, n, ResultBlob, GraphEdge);
    RefreshedPasses(k, n, LoadToDsSrcCtrl, ResultBlob);
    RefreshedPasses(k, n, SubbasinResult, LoadToDsSrcCtrl);
    PassesShown(n.c, k, end);
    RecomputesShown(n.c, k, end, GraphEdge, FacilitySubbasins);
    RefreshedIsCurrent(n, GraphEdge);
  }

  /******* Both happen *******/

  /** Rows that show what a codec reads. */
  datatype Sheet = Sheet(facilities: Facilities, subbasins: Subbasins, located: map<string, string>)

  function SheetCodec(): Codec<Sheet> {
    Codec((d: Sheet) => d.facilities, (d: Sheet) => d.subbasins, (d: Sheet) => d.located,
          (m: map<string, string>) => Sheet(map[], map[], m))
  }

  function AllSheets(d: Sheet): Store<Table, Sheet> {
    Store(map t | t in AllParts() && t != TmntV && t != ResultV :: d, [])
  }

  lemma AllSheetsAreValid(c: Pipeline<Table, Sheet>, d: Sheet)
    requires Resembles(c)
    ensures ValidStore(c, AllSheets(d)) && FacilitySubbasins in AllSheets(d).content
  {
    forall x
      ensures x in AllSheets(d).content <==> Stored(c, x)
    {
      EveryPart(x);
      assert Part(c, x);
    }
    EveryPart(FacilitySubbasins);
  }

  /**
   * Whatever locations are recorded, and whatever facilities and subbasins are fetched:
   * there is an application and a completed refresh of it that ends clean, and its
   * results are fresh exactly when the recorded locations still hold.
   */
  lemma RefreshEndsEitherWay(facilities: Facilities, subbasins: Subbasins, recorded: map<string, string>)
      returns (n: Night<Sheet>)
    ensures Refreshes(n) && TaskFills(SheetCodec(), n) && Fits(n.c, SheetCodec())
    ensures FetchedFacilities(SheetCodec(), n) == facilities && FetchedSubbasins(SheetCodec(), n) == subbasins
    ensures Recorded(SheetCodec(), n) == recorded && ReportedClean(n.c, History(Refreshed(n)), SubbasinResult)
    ensures Left(n).content[SubbasinResult] == Recompute(n.c, Left(n), SubbasinResult) <==>
            StillHold(recorded, facilities, subbasins)
  {
    var k, d := SheetCodec(), Sheet(facilities, subbasins, recorded);
    var c := Application(Passing(k));
    PassingPasses(k);
    AllSheetsAreValid(c, d);
    n := RefreshCanRun(k, c, AllSheets(d), [], (t: Table) => d);
    RefreshMeetsGuardsExactlyWhen(k, n);
    RefreshedIsFreshExactlyWhen(k, n);
  }
}
