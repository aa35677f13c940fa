/**
 * What a "clean" is worth.  The check passes over computed tables that were never
 * rebuilt, and it is not told of three reads; results reported clean are fresh
 * exactly when neither matters.  Both can be told from the history of writes, but
 * not from the changelog.
 */
module Guards {
  import opened Options
  import opened Digraphs
  import opened Staleness
  import opened Changelogs
  import opened Warehouse
  import opened Workflows
  import opened Tables
  import opened Refresh

  /******* Builders that show what is stale *******/

  /**
   * The reader of `source` passes on the rows it reads from it; every other table
   * passes on a 1 from any computed table it reads.
   */
  function Spread(source: Option<(Table, Table)>, t: Table, m: map<Table, int>): int {
    if source.Some? && source.value.1 == t then (if source.value.0 in m then m[source.value.0] else 0)
    else if exists y :: y in m && IsComputed(y) && m[y] == 1 then 1
    else 0
  }

  function Spreader(source: Option<(Table, Table)>): (Table, map<Table, int>) -> int {
    (t, m) => Spread(source, t, m)
  }

  ghost predicate Spreads(c: Pipeline<Table, int>, source: Option<(Table, Table)>) {
    && Resembles(c) && c.build == Spreader(source)
    && (source.Some? ==> source.value in Undeclared())
  }

  lemma ApplicationSpreads(source: Option<(Table, Table)>)
    requires source.Some? ==> source.value in Undeclared()
    ensures Spreads(Application(Spreader(source)), source)
  {
    ApplicationResembles(Spreader(source));
  }

  lemma SpreadOne(source: Option<(Table, Table)>, x: Table, m: map<Table, int>, y: Table)
    requires source.Some? ==> source.value.1 != x
    requires y in m && IsComputed(y) && m[y] == 1
    ensures Spread(source, x, m) == 1
  {
  }

  lemma SpreadZero(source: Option<(Table, Table)>, x: Table, m: map<Table, int>)
    requires forall y :: y in m && IsComputed(y) ==> m[y] == 0
    requires source.Some? && source.value.1 == x && source.value.0 in m ==> m[source.value.0] == 0
    ensures Spread(source, x, m) == 0
  {
  }

  lemma SpreadsReads(c: Pipeline<Table, int>, source: Option<(Table, Table)>, s: Store<Table, int>, x: Table)
    requires Spreads(c, source) && ValidStore(c, s) && IsComputed(x) && Part(c, x)
    ensures x in s.content && BuildNow(c, s, x) == Spread(source, x, Reads(c, s, x))
    ensures Recompute(c, s, x) == Spread(source, x, FreshReads(c, s, x))
  {
    BuildsFromReads(c, s, x);
  }

  /** A reader of computed tables is no reader of an undeclared source. */
  lemma NotASource(x: Table, y: Table)
    requires IsComputed(x) && IsComputed(y) && y in Consults(x)
    ensures x != LguBoundary && x != FacilitySubbasins
  {
  }

  lemma SourceReaders(p: (Table, Table))
    requires p in Undeclared()
    ensures (p.1 == LguBoundary || p.1 == FacilitySubbasins) && p.0 in Consults(p.1)
    ensures !IsComputed(p.0) && p.0 != TmntV && p.0 != ResultV && Consults(p.0) == {}
  {
  }

  /** A computed table passes on a 1 that it reads from a computed table. */
  lemma BuildsOne(c: Pipeline<Table, int>, source: Option<(Table, Table)>, s: Store<Table, int>, x: Table, y: Table)
    requires Spreads(c, source) && ValidStore(c, s) && IsComputed(x) && IsComputed(y) && y in Consults(x)
    requires y in s.content && s.content[y] == 1
    ensures x in c.tables && BuildNow(c, s, x) == 1
  {
    NotASource(x, y);
    if source.Some? {
      SourceReaders(source.value);
    }
    assert Part(c, x);
    ReadsStored(c, s, x, y);
    SpreadsReads(c, source, s, x);
    SpreadOne(source, x, Reads(c, s, x), y);
  }

  lemma BuildsZero(c: Pipeline<Table, int>, source: Option<(Table, Table)>, s: Store<Table, int>, x: Table)
    requires Spreads(c, source) && ValidStore(c, s) && IsComputed(x)
    requires forall y :: IsComputed(y) ==> y in s.content && s.content[y] == 0
    requires source.Some? && source.value.1 == x ==>
               source.value.0 in s.content && s.content[source.value.0] == 0
    ensures x in c.tables && BuildNow(c, s, x) == 0
  {
    assert Part(c, x);
    var m := Reads(c, s, x);
    forall y | y in m
      ensures y in s.content && m[y] == s.content[y]
    {
      ReadsStored(c, s, x, y);
    }
    SpreadsReads(c, source, s, x);
    SpreadZero(source, x, m);
  }

  lemma {:induction false} RecomputesZero(c: Pipeline<Table, int>, s: Store<Table, int>, x: Table)
    requires Spreads(c, None) && ValidStore(c, s) && IsComputed(x)
    ensures x in c.tables && Recompute(c, s, x) == 0
    decreases Rank(x)
  {
    assert Part(c, x);
    var m := FreshReads(c, s, x);
    forall y | y in m && IsComputed(y)
      ensures m[y] == 0
    {
      FreshReadsAt(c, s, x, y);
      ConsultsBelow(x, y);
      RecomputesZero(c, s, y);
    }
    SpreadsReads(c, None, s, x);
    SpreadZero(None, x, m);
  }

  lemma RecomputesOne(c: Pipeline<Table, int>, source: Option<(Table, Table)>, s: Store<Table, int>, x: Table, y: Table)
    requires Spreads(c, source) && ValidStore(c, s) && IsComputed(x) && IsComputed(y) && y in Consults(x)
    requires y in c.tables && Recompute(c, s, y) == 1
    ensures x in c.tables && Recompute(c, s, x) == 1
  {
    NotASource(x, y);
    if source.Some? {
      SourceReaders(source.value);
    }
    assert Part(c, x);
    FreshReadsAt(c, s, x, y);
    SpreadsReads(c, source, s, x);
    SpreadOne(source, x, FreshReads(c, s, x), y);
  }

  lemma RecomputesSource(c: Pipeline<Table, int>, z: Table, x: Table, s: Store<Table, int>)
    requires Spreads(c, Some((z, x))) && ValidStore(c, s)
    ensures IsComputed(x) && x in c.tables && z in s.content && Recompute(c, s, x) == s.content[z]
  {
    SourceReaders((z, x));
    assert Part(c, x);
    FreshReadsAt(c, s, x, z);
    SpreadsReads(c, Some((z, x)), s, x);
    assert Part(c, z);
  }

  /******* From any computed table to the results *******/

  /** A computed table that reads this one. */
  function Reader(t: Table): Table {
    match t
    case FacilitySubbasins => GraphEdge
    case LguBoundary => LguLoad
    case LguLoad => UpstreamLoadReduced
    case UpstreamLoadReduced => LguLoadToStructural
    case LguLoadToStructural => ResultBlob
    case GraphEdge => ResultBlob
    case ResultBlob => LoadToDsSrcCtrl
    case _ => SubbasinResult
  }

  lemma ReaderReads(t: Table)
    requires IsComputed(t) && t != SubbasinResult
    ensures IsComputed(Reader(t)) && t in Consults(Reader(t))
    ensures Rank(t) < Rank(Reader(t)) <= Rank(SubbasinResult)
    ensures Reader(t) != LguBoundary && Reader(t) != FacilitySubbasins
  {
    ByReads(t);
  }

  lemma {:induction false} RecomputeClimbs(
      c: Pipeline<Table, int>, source: Option<(Table, Table)>, s: Store<Table, int>, v: Table)
    requires Spreads(c, source) && ValidStore(c, s) && IsComputed(v) && v in c.tables && Recompute(c, s, v) == 1
    ensures Recompute(c, s, SubbasinResult) == 1
    decreases Rank(SubbasinResult) - Rank(v)
  {
    if v != SubbasinResult {
      ReaderReads(v);
      RecomputesOne(c, source, s, Reader(v), v);
      RecomputeClimbs(c, source, s, Reader(v));
    }
  }

  /** Every computed table that reads another is as its inputs now give it, or holds a 1. */
  ghost predicate BuiltOrOne(c: Pipeline<Table, int>, s: Store<Table, int>)
    requires Resembles(c) && ValidStore(c, s)
  {
    forall x :: IsComputed(x) && x != LguBoundary && x != FacilitySubbasins ==>
      x in c.tables && x in s.content && (s.content[x] == 1 || s.content[x] == BuildNow(c, s, x))
  }

  lemma {:induction false} ContentClimbs(c: Pipeline<Table, int>, s: Store<Table, int>, v: Table)
    requires Spreads(c, None) && ValidStore(c, s) && BuiltOrOne(c, s)
    requires IsComputed(v) && v in s.content && s.content[v] == 1
    ensures s.content[SubbasinResult] == 1
    decreases Rank(SubbasinResult) - Rank(v)
  {
    if v != SubbasinResult {
      ReaderReads(v);
      BuildsOne(c, None, s, Reader(v), v);
      ContentClimbs(c, s, Reader(v));
    }
  }

  /******* Histories and the runs that make them *******/

  /** Edits of stored tables, rebuilds of computed ones. */
  predicate Allowed(entries: seq<Entry<Table>>) {
    forall e :: e in entries ==> e.t != TmntV && e.t != ResultV && (e.rebuild ==> IsComputed(e.t))
  }

  function StepsFor(entries: seq<Entry<Table>>, rows: nat -> int): (steps: seq<Step<Table, int>>)
    ensures |steps| == |entries|
    ensures forall i :: 0 <= i < |steps| ==>
              steps[i] == if entries[i].rebuild then Rebuild(entries[i].t) else Edit(entries[i].t, rows(i))
  {
    seq(|entries|, i requires 0 <= i < |entries| =>
      if entries[i].rebuild then Rebuild(entries[i].t) else Edit(entries[i].t, rows(i)))
  }

  lemma StepsMakeHistory(entries: seq<Entry<Table>>, rows: nat -> int)
    ensures History(StepsFor(entries, rows)) == entries
  {
  }

  lemma EntryEnabled<D>(c: Pipeline<Table, D>, e: Entry<Table>, step: Step<Table, D>)
    requires Resembles(c) && step.t == e.t && step.Rebuild? == e.rebuild
    requires e.t != TmntV && e.t != ResultV && (e.rebuild ==> IsComputed(e.t))
    ensures Enabled(c, step)
  {
    ComputedFeeds(c, e.t);
  }

  lemma AllowedIsEnabled<D>(c: Pipeline<Table, D>, steps: seq<Step<Table, D>>)
    requires Resembles(c) && Allowed(History(steps))
    ensures forall step :: step in steps ==> Enabled(c, step)
  {
    forall step | step in steps
      ensures Enabled(c, step)
    {
      var i :| 0 <= i < |steps| && steps[i] == step;
      assert History(steps)[i] in History(steps);
      EntryEnabled(c, History(steps)[i], step);
    }
  }

  /******* Without a guard *******/

  /** Computed tables as at the start; the source new once its last edit is done. */
  ghost predicate Old(s: Store<Table, int>, z: Table, done: bool) {
    && (forall v :: IsComputed(v) ==> v in s.content && s.content[v] == 0)
    && z in s.content && s.content[z] == if done then 1 else 0
  }

  lemma ZeroKeepsOld(c: Pipeline<Table, int>, z: Table, s: Store<Table, int>, t: Table, done: bool)
    requires ValidPipeline(c) && ValidStore(c, s) && Enabled(c, Rebuild(t)) && Old(s, z, done)
    requires t != z && BuildNow(c, s, t) == 0
    ensures Old(Next(c, s, Rebuild(t)), z, done)
  {
  }

  lemma RebuildKeepsOld(c: Pipeline<Table, int>, z: Table, x: Table, s: Store<Table, int>, t: Table, done: bool)
    requires Spreads(c, Some((z, x))) && ValidStore(c, s) && Enabled(c, Rebuild(t)) && Old(s, z, done)
    requires IsComputed(t) && (t == x ==> !done)
    ensures Old(Next(c, s, Rebuild(t)), z, done)
  {
    SourceReaders((z, x));
    BuildsZero(c, Some((z, x)), s, t);
    ZeroKeepsOld(c, z, s, t, done);
  }

  lemma EditKeepsOld(c: Pipeline<Table, int>, z: Table, s: Store<Table, int>, t: Table, rows: int, done: bool)
    requires ValidPipeline(c) && ValidStore(c, s) && Enabled(c, Edit(t, rows)) && Old(s, z, done) && !IsComputed(z)
    requires t == z ==> !done
    requires t != z ==> rows == 0
    requires rows == 0 || rows == 1
    ensures Old(Next(c, s, Edit(t, rows)), z, done || rows == 1)
  {
  }

  lemma WriteKeepsOld(c: Pipeline<Table, int>, z: Table, x: Table, s: Store<Table, int>, step: Step<Table, int>,
                      done: bool, last: bool)
    requires Spreads(c, Some((z, x))) && ValidStore(c, s) && Enabled(c, step) && Old(s, z, done)
    requires step.t == x && step.Rebuild? ==> !done
    requires step.t == z ==> !done && step.Edit?
    requires last ==> step.t == z
    requires step.Edit? ==> step.rows == if last then 1 else 0
    requires step.Rebuild? ==> IsComputed(step.t)
    ensures Old(Next(c, s, step), z, done || last)
  {
    SourceReaders((z, x));
    match step {
      case Rebuild(t) => RebuildKeepsOld(c, z, x, s, t, done);
      case Edit(t, rows) => EditKeepsOld(c, z, s, t, rows, done);
    }
  }

  ghost function LastEdit(entries: seq<Entry<Table>>, z: Table): nat -> int {
    (i: nat) => if i == LastWrite(entries, z) then 1 else 0
  }

  /** How the steps of such a history write the source and its reader. */
  lemma StepAt(entries: seq<Entry<Table>>, z: Table, x: Table, i: nat)
    requires Allowed(entries) && i < |entries| && !IsComputed(z) && LastWrite(entries, x) < LastWrite(entries, z)
    ensures var step, last := StepsFor(entries, LastEdit(entries, z))[i], LastWrite(entries, z);
            && (step.t == x && step.Rebuild? ==> !(i > last))
            && (step.t == z ==> !(i > last) && step.Edit?)
            && (i == last ==> step.t == z)
            && (step.Edit? ==> step.rows == if i == last then 1 else 0)
            && (step.Rebuild? ==> IsComputed(step.t))
  {
    assert entries[i] in entries;
  }

  lemma OneStepMore<D>(c: Pipeline<Table, D>, s: Store<Table, D>, steps: seq<Step<Table, D>>, k: nat)
    requires ValidPipeline(c) && ValidStore(c, s) && k < |steps|
    requires forall step :: step in steps ==> Enabled(c, step)
    ensures (forall step :: step in steps[..k] || step in steps[..k + 1] ==> Enabled(c, step)) && Enabled(c, steps[k])
    ensures Run(c, s, steps[..k + 1]) == Next(c, Run(c, s, steps[..k]), steps[k])
  {
    assert steps[k] in steps;
    assert steps[..k + 1] == steps[..k] + [steps[k]];
    RunAppend(c, s, steps[..k], [steps[k]]);
    var before := Run(c, s, steps[..k]);
    assert Run(c, before, [steps[k]]) == Next(c, before, steps[k]);
  }

  lemma {:induction false} StayOld(c: Pipeline<Table, int>, z: Table, x: Table, s0: Store<Table, int>,
                                   entries: seq<Entry<Table>>, steps: seq<Step<Table, int>>, k: nat)
    requires Spreads(c, Some((z, x))) && ValidStore(c, s0) && Old(s0, z, false)
    requires Allowed(entries) && LastWrite(entries, x) < LastWrite(entries, z) && k <= |entries|
    requires steps == StepsFor(entries, LastEdit(entries, z)) && forall step :: step in steps ==> Enabled(c, step)
    ensures forall step :: step in steps[..k] ==> Enabled(c, step)
    ensures Old(Run(c, s0, steps[..k]), z, k > LastWrite(entries, z))
  {
    if k == 0 {
      assert steps[..0] == [];
    } else {
      StayOld(c, z, x, s0, entries, steps, k - 1);
      OneStepMore(c, s0, steps, k - 1);
      SourceReaders((z, x));
      StepAt(entries, z, x, k - 1);
      WriteKeepsOld(c, z, x, Run(c, s0, steps[..k - 1]), steps[k - 1], k - 1 > LastWrite(entries, z),
                    k - 1 == LastWrite(entries, z));
    }
  }

  /** The results are what a recomputation gives, after these steps. */
  ghost predicate FreshAfter<D>(c: Pipeline<Table, D>, s0: Store<Table, D>, steps: seq<Step<Table, D>>)
    requires Resembles(c) && ValidStore(c, s0)
  {
    (forall step :: step in steps ==> Enabled(c, step)) ==>
      Run(c, s0, steps).content[SubbasinResult] == Recompute(c, Run(c, s0, steps), SubbasinResult)
  }

  lemma StaleUnlessGuarded(c: Pipeline<Table, int>, z: Table, x: Table, s0: Store<Table, int>,
                           entries: seq<Entry<Table>>)
    requires Spreads(c, Some((z, x))) && ValidStore(c, s0) && Old(s0, z, false)
    requires Allowed(entries) && LastWrite(entries, x) < LastWrite(entries, z)
    ensures !FreshAfter(c, s0, StepsFor(entries, LastEdit(entries, z)))
  {
    var steps := StepsFor(entries, LastEdit(entries, z));
    StepsMakeHistory(entries, LastEdit(entries, z));
    AllowedIsEnabled(c, steps);
    StayOld(c, z, x, s0, entries, steps, |entries|);
    assert steps[..|entries|] == steps;
    var end := Run(c, s0, steps);
    RecomputesSource(c, z, x, end);
    RecomputeClimbs(c, Some((z, x)), end, x);
  }

  function ZeroStore(): Store<Table, int> {
    Store(map t | t in AllParts() && t != TmntV && t != ResultV :: 0, [])
  }

  lemma ZeroStoreIsOld(c: Pipeline<Table, int>, z: Table)
    requires Resembles(c) && z != TmntV && z != ResultV
    ensures ValidStore(c, ZeroStore()) && Old(ZeroStore(), z, false)
  {
    forall x
      ensures x in ZeroStore().content <==> Stored(c, x)
    {
      EveryPart(x);
      assert Part(c, x);
    }
    forall v | IsComputed(v) || v == z
      ensures v in ZeroStore().content && ZeroStore().content[v] == 0
    {
      EveryPart(v);
    }
  }

  /******* Without a rebuild *******/

  /** Edits of computed tables write 1, other edits 0. */
  function OnesFor(entries: seq<Entry<Table>>): nat -> int {
    (i: nat) => if i < |entries| && IsComputed(entries[i].t) then 1 else 0
  }

  function OneStore(): Store<Table, int> {
    Store(map t | t in AllParts() && t != TmntV && t != ResultV :: if IsComputed(t) then 1 else 0, [])
  }

  lemma OneStoreIsValid(c: Pipeline<Table, int>)
    requires Resembles(c)
    ensures ValidStore(c, OneStore())
    ensures forall v :: IsComputed(v) ==> v in OneStore().content && OneStore().content[v] == 1
  {
    forall x
      ensures x in OneStore().content <==> Stored(c, x)
      ensures IsComputed(x) ==> x in OneStore().content && OneStore().content[x] == 1
    {
      EveryPart(x);
      assert Part(c, x);
    }
  }

  /** A computed table that was not last rebuilt holds a 1. */
  lemma HoldsOne(c: Pipeline<Table, int>, entries: seq<Entry<Table>>, steps: seq<Step<Table, int>>, x: Table)
    requires Resembles(c) && IsComputed(x) && !LastRebuilt(entries, x) && ValidStore(c, OneStore())
    requires steps == StepsFor(entries, OnesFor(entries)) && History(steps) == entries
    requires forall step :: step in steps ==> Enabled(c, step)
    ensures var end := Run(c, OneStore(), steps); x in end.content && end.content[x] == 1
  {
    OneStoreIsValid(c);
    assert Part(c, x);
    ComputedFeeds(c, x);
    if LastWrite(entries, x) < 0 {
      NeverWritten(c, OneStore(), steps, x);
    } else {
      LastEdited(c, OneStore(), steps, x);
    }
  }

  lemma NotUndeclared(z: Table, x: Table)
    requires x != LguBoundary && x != FacilitySubbasins
    ensures (z, x) !in Undeclared()
  {
  }

  lemma BuiltOrOneAtEnd(c: Pipeline<Table, int>, entries: seq<Entry<Table>>, steps: seq<Step<Table, int>>)
    requires Resembles(c) && ValidStore(c, OneStore()) && ReportedClean(c, entries, SubbasinResult)
    requires steps == StepsFor(entries, OnesFor(entries)) && History(steps) == entries
    requires forall step :: step in steps ==> Enabled(c, step)
    ensures BuiltOrOne(c, Run(c, OneStore(), steps))
  {
    ApplicationDeclares(c);
    var undeclared, end := Undeclared(), Run(c, OneStore(), steps);
    forall x | IsComputed(x) && x != LguBoundary && x != FacilitySubbasins
      ensures x in c.tables && x in end.content && (end.content[x] == 1 || end.content[x] == BuildNow(c, end, x))
    {
      ComputedFeeds(c, x);
      if LastRebuilt(entries, x) {
        forall z
          ensures (z, x) !in undeclared
        {
          NotUndeclared(z, x);
        }
        CleanIsCurrent(c, OneStore(), steps, SubbasinResult, undeclared, x);
      } else {
        HoldsOne(c, entries, steps, x);
      }
    }
  }

  lemma StaleUnlessRebuilt(c: Pipeline<Table, int>, entries: seq<Entry<Table>>, v: Table)
    requires Spreads(c, None) && ReportedClean(c, entries, SubbasinResult) && Allowed(entries)
    requires IsComputed(v) && !LastRebuilt(entries, v)
    ensures ValidStore(c, OneStore()) && History(StepsFor(entries, OnesFor(entries))) == entries
    ensures !FreshAfter(c, OneStore(), StepsFor(entries, OnesFor(entries)))
  {
    var steps := StepsFor(entries, OnesFor(entries));
    OneStoreIsValid(c);
    StepsMakeHistory(entries, OnesFor(entries));
    AllowedIsEnabled(c, steps);
    var end := Run(c, OneStore(), steps);
    BuiltOrOneAtEnd(c, entries, steps);
    HoldsOne(c, entries, steps, v);
    ContentClimbs(c, end, v);
    RecomputesZero(c, end, SubbasinResult);
  }

  /******* Exactly when "clean" is fresh *******/

  /** A way to run the application through this history. */
  ghost predicate Plays<D>(build: (Table, map<Table, D>) -> D, s0: Store<Table, D>, steps: seq<Step<Table, D>>,
                           entries: seq<Entry<Table>>)
  {
    && Resembles(Application(build)) && ValidStore(Application(build), s0) && s0.log == []
    && History(steps) == entries
  }

  /** What the staleness check says of the results after this history. */
  ghost predicate CleanAfter(entries: seq<Entry<Table>>) {
    Verdict(DependencyGraph(), SubbasinResult, LogAll([], NamesOf(entries))) == Clean
  }

  lemma CleanIsReported<D>(c: Pipeline<Table, D>, entries: seq<Entry<Table>>)
    requires Resembles(c)
    ensures ReportedClean(c, entries, SubbasinResult) <==> CleanAfter(entries)
  {
    NamesAreNames(c, entries);
    assert Part(c, SubbasinResult);
  }

  lemma RebuiltAndGuardedIsFresh<D>(build: (Table, map<Table, D>) -> D, s0: Store<Table, D>,
                                    steps: seq<Step<Table, D>>, entries: seq<Entry<Table>>)
    requires Plays(build, s0, steps, entries) && CleanAfter(entries)
    requires ResultsRebuilt(entries) && Guarded(entries)
    ensures FreshAfter(Application(build), s0, steps)
  {
    var c := Application(build);
    CleanIsReported(c, entries);
    if forall step :: step in steps ==> Enabled(c, step) {
      CleanResultsAreFresh(c, s0, steps);
    }
  }

  /** The undeclared read that is out of order. */
  lemma BrokenGuard(entries: seq<Entry<Table>>) returns (z: Table, x: Table)
    requires ResultsRebuilt(entries) && !Guarded(entries)
    ensures (z, x) in Undeclared() && LastWrite(entries, x) < LastWrite(entries, z)
  {
    assert IsComputed(LguBoundary) && IsComputed(FacilitySubbasins);
    if LastWrite(entries, LguBoundary) <= LastWrite(entries, TmntFacility) {
      z, x := TmntFacility, LguBoundary;
    } else if LastWrite(entries, FacilitySubbasins) <= LastWrite(entries, TmntFacility) {
      z, x := TmntFacility, FacilitySubbasins;
    } else {
      z, x := Subbasin, FacilitySubbasins;
    }
  }

  lemma UnguardedPlays(entries: seq<Entry<Table>>, z: Table, x: Table)
    requires Allowed(entries) && (z, x) in Undeclared() && LastWrite(entries, x) < LastWrite(entries, z)
    ensures var build, steps := Spreader(Some((z, x))), StepsFor(entries, LastEdit(entries, z));
            Plays(build, ZeroStore(), steps, entries) && !FreshAfter(Application(build), ZeroStore(), steps)
  {
    var c := Application(Spreader(Some((z, x))));
    ApplicationSpreads(Some((z, x)));
    SourceReaders((z, x));
    ZeroStoreIsOld(c, z);
    StepsMakeHistory(entries, LastEdit(entries, z));
    StaleUnlessGuarded(c, z, x, ZeroStore(), entries);
  }

  lemma UnrebuiltPlays(entries: seq<Entry<Table>>, v: Table)
    requires Allowed(entries) && CleanAfter(entries) && IsComputed(v) && !LastRebuilt(entries, v)
    ensures var build, steps := Spreader(None), StepsFor(entries, OnesFor(entries));
            Plays(build, OneStore(), steps, entries) && !FreshAfter(Application(build), OneStore(), steps)
  {
    var c := Application(Spreader(None));
    ApplicationSpreads(None);
    CleanIsReported(c, entries);
    StaleUnlessRebuilt(c, entries, v);
  }

  lemma StaleSomehow(entries: seq<Entry<Table>>)
      returns (build: (Table, map<Table, int>) -> int, s0: Store<Table, int>, steps: seq<Step<Table, int>>)
    requires Allowed(entries) && CleanAfter(entries) && !(ResultsRebuilt(entries) && Guarded(entries))
    ensures Plays(build, s0, steps, entries) && !FreshAfter(Application(build), s0, steps)
  {
    if ResultsRebuilt(entries) {
      var z, x := BrokenGuard(entries);
      build, s0, steps := Spreader(Some((z, x))), ZeroStore(), StepsFor(entries, LastEdit(entries, z));
      UnguardedPlays(entries, z, x);
    } else {
      var v :| IsComputed(v) && !LastRebuilt(entries, v);
      build, s0, steps := Spreader(None), OneStore(), StepsFor(entries, OnesFor(entries));
      UnrebuiltPlays(entries, v);
    }
  }

  /**
   * Exactly when "clean" can be trusted.  Take any history of edits and rebuilds after
   * which the results are reported clean: they are what a recomputation gives,
   * whatever the tables held before, whatever the edits wrote and however tables are
   * computed, exactly when every computed table above them was last written by a
   * rebuild and the three undeclared reads were in order.
   */
  lemma CleanIsFreshExactlyWhen(entries: seq<Entry<Table>>)
    requires Allowed(entries) && CleanAfter(entries)
    ensures ResultsRebuilt(entries) && Guarded(entries) <==>
            forall build: (Table, map<Table, int>) -> int, s0, steps :: Plays(build, s0, steps, entries) ==>
              FreshAfter(Application(build), s0, steps)
  {
    if ResultsRebuilt(entries) && Guarded(entries) {
      forall build: (Table, map<Table, int>) -> int, s0, steps | Plays(build, s0, steps, entries)
        ensures FreshAfter(Application(build), s0, steps)
      {
        RebuiltAndGuardedIsFresh(build, s0, steps, entries);
      }
    } else {
      var build, s0, steps := StaleSomehow(entries);
      assert Plays(build, s0, steps, entries);
    }
  }

  /******* How it goes wrong *******/

  /** Each of these tables written once, the computed ones by a rebuild. */
  function WritesOf(tables: seq<Table>): (entries: seq<Entry<Table>>)
    ensures |entries| == |tables|
    ensures forall i :: 0 <= i < |tables| ==> entries[i] == Entry(tables[i], IsComputed(tables[i]))
  {
    seq(|tables|, i requires 0 <= i < |tables| => Entry(tables[i], IsComputed(tables[i])))
  }

  function NameList(tables: seq<Table>): (names: seq<Table>)
    ensures |names| == |tables| && forall i :: 0 <= i < |tables| ==> names[i] == Name(tables[i])
  {
    seq(|tables|, i requires 0 <= i < |tables| => Name(tables[i]))
  }

  lemma WritesLast(tables: seq<Table>, t: Table)
    ensures LastWrite(WritesOf(tables), t) == LastOf(tables, t)
    ensures LastRebuilt(WritesOf(tables), t) <==> LastOf(tables, t) >= 0 && IsComputed(t)
    ensures NamesOf(WritesOf(tables)) == NameList(tables)
  {
    assert Touched(WritesOf(tables)) == tables;
  }

  lemma LoadAncestors(u: Table)
    ensures Reaches(DependencyGraph(), u, LguLoad) <==> u in {LguBoundary, Subbasin, TmntFacilityDelineation}
  {
    var g := DependencyGraph();
    if Reaches(g, u, LguLoad) {
      var w := LastEdge(g, u, LguLoad);
      Edges(w, LguLoad);
      BoundaryAncestors(u);
    }
    BoundaryAncestors(u);
    DirectlyReaches(LguBoundary, LguLoad);
    if u in {Subbasin, TmntFacilityDelineation} {
      Edges(LguBoundary, LguLoad);
      ReachesJoin(g, u, LguBoundary, LguLoad);
    }
  }

  /** Boundaries younger than subbasins and delineations, loads younger than boundaries. */
  lemma LoadsAreClean(names: seq<Table>)
    requires LastOf(names, Subbasin) < LastOf(names, LguBoundary) < LastOf(names, LguLoad)
    requires LastOf(names, TmntFacilityDelineation) < LastOf(names, LguBoundary)
    ensures CleanIfLogged(LguBoundary, LogAll([], names)) && CleanIfLogged(LguLoad, LogAll([], names))
  {
    var log := LogAll([], names);
    EveryTable(LguBoundary);
    EveryTable(LguLoad);
    forall u, v | u in log && v in log && Reaches(DependencyGraph(), u, v) && (v == LguBoundary || v == LguLoad)
      ensures Before(log, u, v)
    {
      BoundaryAncestors(u);
      LoadAncestors(u);
      LogHolds(names, u);
      LogByLast(names, u, v);
    }
    forall u, v | Reaches(DependencyGraph(), u, v)
                  && (ReachesOrIs(DependencyGraph(), v, LguBoundary) || ReachesOrIs(DependencyGraph(), v, LguLoad))
      ensures v == LguBoundary || v == LguLoad
    {
      BoundaryAncestors(v);
      LoadAncestors(v);
      if v != LguBoundary && v != LguLoad {
        Edges(Met, Met);
        var w := LastEdge(DependencyGraph(), u, v);
        Edges(w, v);
        assert false;
      }
    }
  }

  lemma ChainNames(tables: seq<Table>, chain: seq<Table>)
    requires forall t :: t in chain ==> Name(t) == t
    ensures LogAll([], NamesOf(WritesOf(tables + chain))) == LogAll(LogAll([], NameList(tables)), chain)
  {
    WritesLast(tables + chain, Met);
    assert NameList(tables + chain) == NameList(tables) + chain;
    LogAllAppend([], NameList(tables), chain);
  }

  lemma ChainRunsAfter(tables: seq<Table>) returns (events: seq<Event>)
    ensures var log0 := LogAll([], NameList(tables));
            && CanRun(ResultsPlan(), {}, Start(ResultsPlan(), log0), events)
            && var end := After(ResultsPlan(), {}, Start(ResultsPlan(), log0), events);
               Completed(ResultsPlan(), end) && end.log == LogAll([], NamesOf(WritesOf(tables + ResultsChain())))
  {
    forall t | t in ResultsChain()
      ensures Name(t) == t
    {
      InChain(t);
    }
    ChainNames(tables, ResultsChain());
    events := ResultsStraightRun(LogAll([], NameList(tables)));
  }

  /** Such a history, with the results pipeline run after it, is reported clean. */
  lemma PipelineAfterIsClean(tables: seq<Table>)
    requires LastOf(NameList(tables), Subbasin) < LastOf(NameList(tables), LguBoundary)
    requires LastOf(NameList(tables), TmntFacilityDelineation) < LastOf(NameList(tables), LguBoundary)
    requires LastOf(NameList(tables), LguBoundary) < LastOf(NameList(tables), LguLoad)
    ensures CleanAfter(WritesOf(tables + ResultsChain()))
  {
    LoadsAreClean(NameList(tables));
    var events := ChainRunsAfter(tables);
    ResultsPipelineEndsClean(LogAll([], NameList(tables)), events);
  }

  lemma ChainOrInput(v: Table)
    requires IsComputed(v)
    ensures v in ResultsChain() || v == FacilitySubbasins || v == LguBoundary || v == LguLoad
  {
    var chain := ResultsChain();
    assert chain[0] in chain && chain[1] in chain && chain[2] in chain && chain[3] in chain && chain[4] in chain
        && chain[5] in chain && chain[6] in chain;
  }

  lemma PipelineAfterIsRebuilt(tables: seq<Table>)
    requires FacilitySubbasins in tables && LguBoundary in tables && LguLoad in tables
    ensures ResultsRebuilt(WritesOf(tables + ResultsChain()))
  {
    forall v | IsComputed(v)
      ensures LastRebuilt(WritesOf(tables + ResultsChain()), v)
    {
      WritesLast(tables + ResultsChain(), v);
      ChainOrInput(v);
      assert v in tables + ResultsChain();
    }
  }

  lemma NotInChain()
    ensures TmntFacility !in ResultsChain() && LguBoundary !in ResultsChain()
    ensures FacilitySubbasins !in ResultsChain() && Subbasin !in ResultsChain()
  {
  }

  lemma AbsentHasNoLast(tables: seq<Table>, t: Table)
    requires t !in tables
    ensures LastOf(tables, t) == -1
  {
  }

  lemma LastBeforeChain(tables: seq<Table>, t: Table)
    requires t !in ResultsChain()
    ensures LastWrite(WritesOf(tables + ResultsChain()), t) == LastOf(tables, t)
  {
    WritesLast(tables + ResultsChain(), t);
    LastOfAppend(tables, ResultsChain(), t);
    AbsentHasNoLast(ResultsChain(), t);
  }

  lemma PipelineAfterIsGuarded(tables: seq<Table>)
    ensures Guarded(WritesOf(tables + ResultsChain())) <==>
            && LastOf(tables, TmntFacility) < LastOf(tables, LguBoundary)
            && LastOf(tables, TmntFacility) < LastOf(tables, FacilitySubbasins)
            && LastOf(tables, Subbasin) < LastOf(tables, FacilitySubbasins)
  {
    NotInChain();
    LastBeforeChain(tables, TmntFacility);
    LastBeforeChain(tables, LguBoundary);
    LastBeforeChain(tables, FacilitySubbasins);
    LastBeforeChain(tables, Subbasin);
  }

  lemma OnceAt(tables: seq<Table>, i: nat)
    requires i < |tables| && forall k :: i < k < |tables| ==> tables[k] != tables[i]
    ensures LastOf(tables, tables[i]) == i
  {
  }

  /** The facilities are replaced between the boundaries and the results. */
  function FacilityRefresh(): seq<Table> {
    [Subbasin, LguBoundary, LguLoad, TmntFacility, FacilitySubbasins]
  }

  /** The subbasins are replaced after the facilities were located. */
  function SubbasinRefresh(): seq<Table> {
    [TmntFacility, FacilitySubbasins, Subbasin, LguBoundary, LguLoad]
  }

  /** Everything in order. */
  function OrderlyRefresh(): seq<Table> {
    [TmntFacility, Subbasin, FacilitySubbasins, LguBoundary, LguLoad]
  }

  /** As `SubbasinRefresh`, and then a user enters an attribute. */
  function EnteredAttribute(): seq<Table> {
    [TmntFacility, FacilitySubbasins, Subbasin, TmntFacilityAttribute, LguBoundary, LguLoad]
  }

  /** What the pipeline needs of the writes before it to be clean and all rebuilt. */
  ghost predicate Prepares(tables: seq<Table>) {
    && LastOf(NameList(tables), Subbasin) < LastOf(NameList(tables), LguBoundary) < LastOf(NameList(tables), LguLoad)
    && LastOf(NameList(tables), TmntFacilityDelineation) < LastOf(NameList(tables), LguBoundary)
    && FacilitySubbasins in tables && LguBoundary in tables && LguLoad in tables
  }

  /** The last position of each entry of a short list without repeats; tables that are not in it have none. */
  lemma Positions5(t: seq<Table>)
    requires |t| == 5 && t[0] != t[1] && t[0] != t[2] && t[0] != t[3] && t[0] != t[4] && t[1] != t[2] && t[1] != t[3]
    requires t[1] != t[4] && t[2] != t[3] && t[2] != t[4] && t[3] != t[4]
    ensures LastOf(t, t[0]) == 0 && LastOf(t, t[1]) == 1 && LastOf(t, t[2]) == 2 && LastOf(t, t[3]) == 3
    ensures LastOf(t, t[4]) == 4
    ensures forall u :: u != t[0] && u != t[1] && u != t[2] && u != t[3] && u != t[4] ==> LastOf(t, u) == -1
    ensures t[0] in t && t[1] in t && t[2] in t && t[3] in t && t[4] in t
  {
    OnceAt(t, 0);
    OnceAt(t, 1);
    OnceAt(t, 2);
    OnceAt(t, 3);
    OnceAt(t, 4);
  }

  lemma FacilityRefreshOrder(t: seq<Table>)
    requires |t| == 5 && t[0] == Subbasin && t[1] == LguBoundary && t[2] == LguLoad
    requires t[3] == TmntFacility && t[4] == FacilitySubbasins
    ensures Prepares(t)
    ensures LastOf(t, LguBoundary) < LastOf(t, TmntFacility)
  {
    Positions5(t);
    Positions5(NameList(t));
  }

  /** Replacing the facilities alone goes unnoticed: clean and all rebuilt, yet the boundaries are old. */
  lemma FacilityRefreshGoesUnnoticed()
    ensures var h := WritesOf(FacilityRefresh() + ResultsChain());
            CleanAfter(h) && ResultsRebuilt(h) && !Guarded(h)
  {
    FacilityRefreshOrder(FacilityRefresh());
    PipelineAfterIsClean(FacilityRefresh());
    PipelineAfterIsRebuilt(FacilityRefresh());
    PipelineAfterIsGuarded(FacilityRefresh());
  }

  lemma SubbasinRefreshOrder(t: seq<Table>)
    requires |t| == 5 && t[0] == TmntFacility && t[1] == FacilitySubbasins && t[2] == Subbasin
    requires t[3] == LguBoundary && t[4] == LguLoad
    ensures Prepares(t)
    ensures LastOf(t, FacilitySubbasins) < LastOf(t, Subbasin)
  {
    Positions5(t);
    Positions5(NameList(t));
  }

  /** So do new subbasins when no facility is new: the facilities stay in their old subbasins. */
  lemma SubbasinRefreshGoesUnnoticed()
    ensures var h := WritesOf(SubbasinRefresh() + ResultsChain());
            CleanAfter(h) && ResultsRebuilt(h) && !Guarded(h)
  {
    SubbasinRefreshOrder(SubbasinRefresh());
    PipelineAfterIsClean(SubbasinRefresh());
    PipelineAfterIsRebuilt(SubbasinRefresh());
    PipelineAfterIsGuarded(SubbasinRefresh());
  }

  lemma SameWithChain(tables: seq<Table>, others: seq<Table>, chain: seq<Table>)
    requires LogAll([], NameList(tables)) == LogAll([], NameList(others)) && forall t :: t in chain ==> Name(t) == t
    ensures LogAll([], NamesOf(WritesOf(tables + chain))) == LogAll([], NamesOf(WritesOf(others + chain)))
  {
    ChainNames(tables, chain);
    ChainNames(others, chain);
  }

  lemma SameChangelog()
    ensures LogAll([], NameList(OrderlyRefresh())) == LogAll([], NameList(EnteredAttribute()))
  {
    var rest := [Subbasin, TmntFacilityAttribute, LguBoundary, LguLoad];
    assert NameList(OrderlyRefresh()) == [TmntFacility] + rest;
    assert NameList(EnteredAttribute()) == [TmntFacility] + ([TmntFacilityAttribute] + rest);
    var log := LogAll([], [TmntFacility]);
    LogAllAppend([], [TmntFacility], rest);
    LogAllAppend([], [TmntFacility], [TmntFacilityAttribute] + rest);
    assert ([TmntFacilityAttribute] + rest)[1..] == rest;
    assert rest[1] in rest;
    LoggedAgain(log, TmntFacilityAttribute, rest);
  }

  lemma OrderlyRefreshOrder(t: seq<Table>)
    requires |t| == 5 && t[0] == TmntFacility && t[1] == Subbasin && t[2] == FacilitySubbasins
    requires t[3] == LguBoundary && t[4] == LguLoad
    ensures Prepares(t)
    ensures LastOf(t, TmntFacility) == 0 && LastOf(t, Subbasin) == 1
    ensures LastOf(t, FacilitySubbasins) == 2 && LastOf(t, LguBoundary) == 3
  {
    Positions5(t);
    Positions5(NameList(t));
  }

  lemma OrderlyIsGuarded()
    ensures var h := WritesOf(OrderlyRefresh() + ResultsChain()); CleanAfter(h) && ResultsRebuilt(h) && Guarded(h)
  {
    OrderlyRefreshOrder(OrderlyRefresh());
    PipelineAfterIsClean(OrderlyRefresh());
    PipelineAfterIsRebuilt(OrderlyRefresh());
    PipelineAfterIsGuarded(OrderlyRefresh());
  }

  lemma EnteredIsUnguarded()
    ensures var k := WritesOf(EnteredAttribute() + ResultsChain()); ResultsRebuilt(k) && !Guarded(k)
  {
    var u := EnteredAttribute();
    OnceAt(u, 1);
    OnceAt(u, 2);
    assert u[1] in u && u[4] in u && u[5] in u;
    PipelineAfterIsRebuilt(u);
    PipelineAfterIsGuarded(u);
  }

  /**
   * The changelog cannot tell: entering an attribute logs the attribute table as
   * locating its facilities does.  These two histories leave one changelog, reported
   * clean, with everything rebuilt, yet one is guarded and the other is not.
   */
  lemma ChangelogCannotTell()
    ensures var h, k := WritesOf(OrderlyRefresh() + ResultsChain()), WritesOf(EnteredAttribute() + ResultsChain());
            && LogAll([], NamesOf(h)) == LogAll([], NamesOf(k))
            && CleanAfter(h) && CleanAfter(k) && ResultsRebuilt(h) && ResultsRebuilt(k)
            && Guarded(h) && !Guarded(k)
  {
    SameChangelog();
    forall t | t in ResultsChain()
      ensures Name(t) == t
    {
      InChain(t);
    }
    SameWithChain(OrderlyRefresh(), EnteredAttribute(), ResultsChain());
    OrderlyIsGuarded();
    EnteredIsUnguarded();
  }

  lemma LoneLogIsClean()
    ensures LogAll([], [SubbasinResult]) == [SubbasinResult]
    ensures Verdict(DependencyGraph(), SubbasinResult, [SubbasinResult]) == Clean
  {
    GraphAcyclic();
    EveryTable(SubbasinResult);
  }

  /** A table that was never logged is passed over: results logged alone are reported clean. */
  lemma UnloggedTablesAreTrusted()
    ensures CleanAfter(WritesOf([SubbasinResult])) && !ResultsRebuilt(WritesOf([SubbasinResult]))
  {
    WritesLast([SubbasinResult], LguLoad);
    assert IsComputed(LguLoad);
    assert NameList([SubbasinResult]) == [SubbasinResult];
    LoneLogIsClean();
  }
}
