/**
 * One scenario under any interleaving of PATCH requests and solves.  A solve takes
 * a snapshot of the row when it is requested and writes the whole row back when its
 * background task runs, which may be much later, more than once, or never.
 */
module ScenarioRuns {
  import opened Options
  import opened CostEffectiveness
  import opened Scenarios

  /******* What the columns should hold *******/

  function AttributesOf(s: Solvers, features: seq<Feature>): seq<Attributes> {
    if features == [] then []
    else
      var n := |features| - 1;
      var p := features[n].properties;
      AttributesOf(s, features[..n]) + if p.Some? then [s.attributes(p.value)] else []
  }

  lemma {:induction false} SettingsOnlyPrice(s: Solvers, features: seq<Feature>, settings: Json)
    ensures AllAttributes(FacilitiesOf(s, features, settings)) == AttributesOf(s, features)
  {
    if features != [] {
      SettingsOnlyPrice(s, features[..|features| - 1], settings);
    }
  }

  lemma CostsKeepAttributes(facilities: seq<Facility>, rows: seq<ResultRow>)
    ensures AllAttributes(WithCosts(facilities, rows)) == AllAttributes(facilities)
  {
  }

  /** The results of an input, computed from nothing but the input. */
  datatype Results = Results(boundary: Json, load: Json, delinLoad: Json)
  datatype Quality = Quality(edges: Json, rows: seq<ResultRow>)

  function LoadingOf(s: Solvers, delineations: Json): Results {
    var boundary := s.boundary(delineations);
    var load := s.loading(boundary);
    Results(boundary, load, s.byDelineation(load, boundary))
  }

  function QualityOf(s: Solvers, delineations: Json, features: seq<Feature>): Quality {
    var loading := LoadingOf(s, delineations);
    var edges := s.edges(loading.boundary, features);
    Quality(edges, s.waterQuality(edges, loading.boundary, loading.load, AttributesOf(s, features)))
  }

  ghost predicate HoldsLoading(s: Solvers, row: Scenario, delineations: Json) {
    var l := LoadingOf(s, delineations);
    row.lguBoundary == Some(l.boundary) && row.lguLoad == Some(l.load) && row.delinLoad == Some(l.delinLoad)
  }

  ghost predicate NoLoading(row: Scenario) {
    row.lguBoundary.None? && row.lguLoad.None? && row.delinLoad.None?
  }

  ghost predicate HoldsQuality(s: Solvers, row: Scenario, delineations: Json, features: seq<Feature>) {
    var q := QualityOf(s, delineations, features);
    && row.graphEdge == Some(q.edges)
    && row.structuralTmntResult.Some? && row.structuralTmntResult.value.rows == q.rows
  }

  ghost predicate NoQuality(row: Scenario) {
    row.graphEdge.None? && row.structuralTmntResult.None?
  }

  /** The digests and the facility records belong to the stored input, when there is one. */
  ghost predicate InputTracked(s: Solvers, row: Scenario) {
    row.input.Some? ==>
      && row.inputHash.Some? && row.input.value == Stored(s, row.inputHash.value.of)
      && (Delineations(row).Some? ==> row.loadingHash == Some(Digest(Delineations(row).value)))
      && (FacilityFeatures(row).Some? ==>
            row.structuralTmnt.Some?
            && AllAttributes(row.structuralTmnt.value) == AttributesOf(s, FacilityFeatures(row).value))
  }

  /**
   * No column is ever out of date: a load is the load of the stored delineations, a
   * result is the solve of the stored input.  Nothing is said of an old
   * `loading_hash` or old facility records that outlive their input.
   */
  ghost predicate Coherent(s: Solvers, row: Scenario) {
    && InputTracked(s, row)
    && (NoLoading(row) || (Delineations(row).Some? && HoldsLoading(s, row, Delineations(row).value)))
    && (NoQuality(row)
        || (Delineations(row).Some? && FacilityFeatures(row).Some? && row.lguLoad.Some?
            && HoldsQuality(s, row, Delineations(row).value, FacilityFeatures(row).value)))
  }

  /** Nothing is missing either. */
  ghost predicate Complete(s: Solvers, row: Scenario) {
    && Coherent(s, row)
    && (Delineations(row).Some? ==> row.lguLoad.Some?)
    && (Delineations(row).Some? && FacilityFeatures(row).Some? ==> row.structuralTmntResult.Some?)
  }

  /******* A PATCH keeps the row coherent *******/

  lemma TracksNewInput(s: Solvers, row: Scenario, patch: Patch, settings: Json)
    requires InputTracked(s, row)
    ensures InputTracked(s, Apply(row, Validated(s, patch, settings)))
  {
    if patch.input.Given? && patch.input.value.facilities.Given? {
      SettingsOnlyPrice(s, FeaturesOf(patch.input.value.facilities.value), settings);
    }
  }

  lemma TrackedAlike(s: Solvers, a: Scenario, b: Scenario)
    requires InputTracked(s, a) && a.input == b.input && a.structuralTmnt == b.structuralTmnt
    requires a.inputHash == b.inputHash && a.loadingHash == b.loadingHash
    ensures InputTracked(s, b)
  {
  }

  /** Clearing results leaves the columns of the request alone. */
  lemma UpdatedAsApplied(s: Solvers, row: Scenario, patch: Patch, settings: Json, now: nat)
    ensures var a, b := Apply(row, Validated(s, patch, settings)), Updated(s, row, patch, settings, now);
            && a.input == b.input && a.structuralTmnt == b.structuralTmnt
            && a.inputHash == b.inputHash && a.loadingHash == b.loadingHash
  {
  }

  lemma UpdatedIsTracked(s: Solvers, row: Scenario, patch: Patch, settings: Json, now: nat)
    requires InputTracked(s, row)
    ensures InputTracked(s, Updated(s, row, patch, settings, now))
  {
    TracksNewInput(s, row, patch, settings);
    UpdatedAsApplied(s, row, patch, settings, now);
    TrackedAlike(s, Apply(row, Validated(s, patch, settings)), Updated(s, row, patch, settings, now));
  }

  lemma UpdatedIsCoherent(s: Solvers, row: Scenario, patch: Patch, settings: Json, now: nat)
    requires Coherent(s, row)
    ensures Coherent(s, Updated(s, row, patch, settings, now))
  {
    UpdatedIsTracked(s, row, patch, settings, now);
  }

  /**
   * A PATCH of a coherent row drops a load exactly when the validated delineations
   * change, and a result exactly when anything in the submitted input changes.
   */
  lemma UpdateKeepsWhatStillHolds(s: Solvers, row: Scenario, raw: Input, patch: Patch, settings: Json, now: nat)
    requires Coherent(s, row) && patch.input == Given(raw)
    ensures var next := Updated(s, row, patch, settings, now);
            && (next.lguLoad == if Delineations(next) == Delineations(row) then row.lguLoad else None)
            && (next.structuralTmntResult ==
                if row.inputHash == Some(Digest(raw)) then row.structuralTmntResult else None)
            && (row.structuralTmntResult.Some? && next.structuralTmntResult.Some? ==> next.input == row.input)
  {
  }

  /******* A solve keeps the row coherent and completes it *******/

  lemma LoadedHolds(s: Solvers, row: Scenario)
    requires Coherent(s, row) && Delineations(row).Some?
    ensures HoldsLoading(s, WithLoading(s, row), Delineations(row).value)
    ensures InputTracked(s, WithLoading(s, row))
  {
  }

  lemma ResultHolds(s: Solvers, row: Scenario)
    requires InputTracked(s, row) && Delineations(row).Some? && FacilityFeatures(row).Some?
    requires HoldsLoading(s, row, Delineations(row).value)
    ensures HoldsQuality(s, WithResult(s, row), Delineations(row).value, FacilityFeatures(row).value)
  {
  }

  lemma CostedHolds(s: Solvers, row: Scenario)
    requires Complete(s, row)
    ensures Complete(s, Costed(row))
  {
    if row.structuralTmnt.Some? && row.structuralTmntResult.Some? {
      CostsKeepAttributes(row.structuralTmnt.value, row.structuralTmntResult.value.rows);
    }
  }

  /** Solving a coherent row never fails, and leaves nothing missing. */
  lemma SolvedIsComplete(s: Solvers, row: Scenario, force: bool, now: nat)
    requires Coherent(s, row)
    ensures Solved(s, row, force, now).Some?
    ensures var next := Solved(s, row, force, now).value; Complete(s, next) && next.input == row.input
  {
    var loading, wq := RecalculateLoading(row, force), RecalculateWq(row, force);
    if loading {
      LoadedHolds(s, row);
    }
    var loaded := if loading then WithLoading(s, row) else row;
    if wq {
      ResultHolds(s, loaded);
    }
    var solved := if wq then WithResult(s, loaded) else loaded;
    assert Complete(s, solved);
    CostedHolds(s, solved);
  }

  /******* Whole runs *******/

  datatype Job = Job(data: Scenario, force: bool)
  datatype State = State(row: Scenario, jobs: seq<Job>)

  /** A task may be delivered again after it wrote; `Drop` is when it is gone for good. */
  datatype Step =
    | Request(patch: Patch, settings: Json, now: nat)
    | Snapshot(force: bool)
    | Write(job: nat, now: nat)
    | Drop(job: nat)

  function Next(s: Solvers, st: State, step: Step): State {
    match step
    case Request(patch, settings, now) => st.(row := Updated(s, st.row, patch, settings, now))
    case Snapshot(force) => st.(jobs := st.jobs + [Job(st.row, force)])
    case Write(j, now) =>
      if j >= |st.jobs| then st
      else
        var solved := Solved(s, st.jobs[j].data, st.jobs[j].force, now);
        if solved.Some? then st.(row := solved.value) else st
    case Drop(j) => if j >= |st.jobs| then st else st.(jobs := st.jobs[..j] + st.jobs[j + 1..])
  }

  function Run(s: Solvers, st: State, steps: seq<Step>): State {
    if steps == [] then st else Next(s, Run(s, st, steps[..|steps| - 1]), steps[|steps| - 1])
  }

  const EMPTY := Scenario(None, None, None, None, None, None, None, None, None, None, None, None, None)

  /** `create_scenario`: what the validator sets, on an empty row. */
  function Created(s: Solvers, patch: Patch, settings: Json): State {
    State(Apply(EMPTY, Validated(s, patch, settings)), [])
  }

  /** The loss of one task changes nothing for the others. */
  lemma LostTaskIsAlone(s: Solvers, st: State, j: nat, k: nat, now: nat)
    requires j < |st.jobs| && k < |st.jobs| && k != j
    ensures Next(s, Next(s, st, Drop(j)), Write(if k < j then k else k - 1, now)).row == Next(s, st, Write(k, now)).row
  {
  }

  /** Tasks that are lost before they write leave the row as it is. */
  lemma {:induction false} LostTasksLeaveRow(s: Solvers, st: State, n: nat)
    requires n <= |st.jobs|
    ensures Run(s, st, seq(n, _ => Drop(0))) == State(st.row, st.jobs[n..])
  {
    if n > 0 {
      LostTasksLeaveRow(s, st, n - 1);
      assert seq(n, _ => Drop(0))[..n - 1] == seq(n - 1, _ => Drop(0));
    }
  }

  ghost predicate AllCoherent(s: Solvers, st: State) {
    Coherent(s, st.row) && forall j :: j in st.jobs ==> Coherent(s, j.data)
  }

  lemma StepKeepsCoherent(s: Solvers, st: State, step: Step)
    requires AllCoherent(s, st)
    ensures AllCoherent(s, Next(s, st, step))
  {
    match step {
      case Request(patch, settings, now) => UpdatedIsCoherent(s, st.row, patch, settings, now);
      case Snapshot(force) =>
      case Write(j, now) =>
        if j < |st.jobs| {
          assert st.jobs[j] in st.jobs;
          SolvedIsComplete(s, st.jobs[j].data, st.jobs[j].force, now);
        }
      case Drop(j) =>
    }
  }

  /** However PATCHes, snapshots and writes interleave, the row and every snapshot in flight stay coherent. */
  lemma {:induction false} RunKeepsCoherent(s: Solvers, patch: Patch, settings: Json, steps: seq<Step>)
    ensures AllCoherent(s, Run(s, Created(s, patch, settings), steps))
  {
    if steps == [] {
      TracksNewInput(s, EMPTY, patch, settings);
    } else {
      RunKeepsCoherent(s, patch, settings, steps[..|steps| - 1]);
      StepKeepsCoherent(s, Run(s, Created(s, patch, settings), steps[..|steps| - 1]), steps[|steps| - 1]);
    }
  }

  /**
   * After any run a write leaves the row complete for the input of its snapshot; so
   * a change of input requested in between is lost, but never mixed with old results.
   */
  lemma WriteCompletesSnapshot(s: Solvers, patch: Patch, settings: Json, steps: seq<Step>, j: nat, now: nat)
    requires j < |Run(s, Created(s, patch, settings), steps).jobs|
    ensures var before := Run(s, Created(s, patch, settings), steps);
            var after := Next(s, before, Write(j, now));
            Complete(s, after.row) && after.row.input == before.jobs[j].data.input
  {
    RunKeepsCoherent(s, patch, settings, steps);
    var before := Run(s, Created(s, patch, settings), steps);
    assert before.jobs[j] in before.jobs;
    SolvedIsComplete(s, before.jobs[j].data, before.jobs[j].force, now);
  }

  /** What a solve may change of a row. */
  lemma SolvedRest(s: Solvers, row: Scenario, force: bool, now: nat)
    requires Solved(s, row, force, now).Some?
    ensures var next := Solved(s, row, force, now).value;
            next == row.(lguBoundary := next.lguBoundary, lguLoad := next.lguLoad, delinLoad := next.delinLoad,
                         graphEdge := next.graphEdge, structuralTmnt := next.structuralTmnt,
                         structuralTmntResult := next.structuralTmntResult,
                         resultTimeUpdated := next.resultTimeUpdated)
  {
  }

  /** A snapshot that is written at once is a solve of the row, under the flag it was requested with. */
  lemma SnapshotWritten(s: Solvers, st: State, force: bool, now: nat)
    ensures var end := Next(s, Next(s, st, Snapshot(force)), Write(|st.jobs|, now));
            end.row == if Solved(s, st.row, force, now).Some? then Solved(s, st.row, force, now).value else st.row
  {
  }

  /**
   * After any run a write puts back the name, the info and the input of its snapshot, so
   * each of the three survives exactly when it is still the snapshot's: any change
   * requested in between is lost.
   */
  lemma WriteKeepsRequestExactlyWhen(s: Solvers, patch: Patch, settings: Json, steps: seq<Step>, j: nat, now: nat)
    requires j < |Run(s, Created(s, patch, settings), steps).jobs|
    ensures var before := Run(s, Created(s, patch, settings), steps);
            var data, written := before.jobs[j].data, Next(s, before, Write(j, now)).row;
            && (written.name == before.row.name <==> data.name == before.row.name)
            && (written.info == before.row.info <==> data.info == before.row.info)
            && (written.input == before.row.input <==> data.input == before.row.input)
            && written.name == data.name && written.info == data.info && written.input == data.input
  {
    RunKeepsCoherent(s, patch, settings, steps);
    var before := Run(s, Created(s, patch, settings), steps);
    assert before.jobs[j] in before.jobs;
    SolvedIsComplete(s, before.jobs[j].data, before.jobs[j].force, now);
    SolvedRest(s, before.jobs[j].data, before.jobs[j].force, now);
  }

  lemma RunSnoc(s: Solvers, st: State, steps: seq<Step>, step: Step)
    ensures Run(s, st, steps + [step]) == Next(s, Run(s, st, steps), step)
  {
    assert (steps + [step])[..|steps|] == steps;
  }

  lemma SnapshotThenRequest(s: Solvers, st: State, force: bool, patch: Patch, settings: Json, now: nat)
    requires st.jobs == []
    ensures Run(s, st, [Snapshot(force), Request(patch, settings, now)])
         == State(Updated(s, st.row, patch, settings, now), [Job(st.row, force)])
  {
    RunSnoc(s, st, [], Snapshot(force));
    RunSnoc(s, st, [Snapshot(force)], Request(patch, settings, now));
    assert [] + [Snapshot(force)] == [Snapshot(force)];
    assert [Snapshot(force), Request(patch, settings, now)] == [Snapshot(force)] + [Request(patch, settings, now)];
  }

  lemma CreatedInput(s: Solvers, patch: Patch, settings: Json)
    requires patch.input.Given?
    ensures Created(s, patch, settings).jobs == []
    ensures Created(s, patch, settings).row.input == Some(Stored(s, patch.input.value))
  {
  }

  lemma UpdatedInput(s: Solvers, row: Scenario, patch: Patch, settings: Json, now: nat)
    requires patch.input.Given?
    ensures Updated(s, row, patch, settings, now).input == Some(Stored(s, patch.input.value))
  {
  }

  /** Created, snapshot taken, patched with another input, written: the first input is back. */
  lemma PatchIsLost(s: Solvers, first: Patch, second: Patch, settings: Json, force: bool, now: nat)
    requires first.input.Given? && second.input.Given?
    requires Stored(s, first.input.value) != Stored(s, second.input.value)
    ensures var steps := [Snapshot(force), Request(second, settings, now)];
            var patched := Run(s, Created(s, first, settings), steps);
            var end := Run(s, Created(s, first, settings), steps + [Write(0, now)]);
            && patched.row.input == Some(Stored(s, second.input.value))
            && end.row.input == Some(Stored(s, first.input.value)) && Complete(s, end.row)
  {
    var created, steps := Created(s, first, settings), [Snapshot(force), Request(second, settings, now)];
    CreatedInput(s, first, settings);
    SnapshotThenRequest(s, created, force, second, settings, now);
    UpdatedInput(s, created.row, second, settings, now);
    RunSnoc(s, created, steps, Write(0, now));
    WriteCompletesSnapshot(s, first, settings, steps, 0, now);
  }

  /******* Incremental and full solves *******/

  /** Every result column of a solved row is a function of the row's input. */
  lemma SolvedFields(s: Solvers, row: Scenario, force: bool, now: nat)
    requires Coherent(s, row) && Solved(s, row, force, now).Some?
    requires Complete(s, Solved(s, row, force, now).value) && Solved(s, row, force, now).value.input == row.input
    ensures var next := Solved(s, row, force, now).value;
            && (if Delineations(row).Some? then HoldsLoading(s, next, Delineations(row).value) else NoLoading(next))
            && (if Delineations(row).Some? && FacilityFeatures(row).Some?
                then HoldsQuality(s, next, Delineations(row).value, FacilityFeatures(row).value)
                else NoQuality(next))
  {
  }

  /** The facility records of a solved row are the ones it had, priced by its results. */
  lemma SolvedStructure(s: Solvers, row: Scenario, force: bool, now: nat)
    requires Solved(s, row, force, now).Some?
    ensures var next := Solved(s, row, force, now).value;
            next.structuralTmnt == if row.structuralTmnt.Some? && next.structuralTmntResult.Some?
                                   then Some(WithCosts(row.structuralTmnt.value, next.structuralTmntResult.value.rows))
                                   else row.structuralTmnt
  {
  }

  /**
   * On a coherent row a solve that fills in what is missing gives what a solve from
   * scratch gives, in every column but the times and the facility records embedded in
   * the result.
   */
  lemma IncrementalIsFull(s: Solvers, row: Scenario, now: nat, later: nat)
    requires Coherent(s, row)
    ensures Solved(s, row, false, now).Some? && Solved(s, row, true, later).Some?
    ensures var some, all := Solved(s, row, false, now).value, Solved(s, row, true, later).value;
            && some == all.(resultTimeUpdated := some.resultTimeUpdated,
                            structuralTmntResult := some.structuralTmntResult)
            && some.structuralTmntResult.Some? == all.structuralTmntResult.Some?
            && (some.structuralTmntResult.Some? ==>
                  some.structuralTmntResult.value.rows == all.structuralTmntResult.value.rows)
            && (row.structuralTmntResult.None? ==> some.structuralTmntResult == all.structuralTmntResult)
  {
    SolvedIsComplete(s, row, false, now);
    SolvedIsComplete(s, row, true, later);
    SolvedStructure(s, row, false, now);
    SolvedStructure(s, row, true, later);
    SolvedRest(s, row, false, now);
    SolvedRest(s, row, true, later);
    SolvedFields(s, row, false, now);
    SolvedFields(s, row, true, later);
  }

  /** Solving what has just been solved changes nothing, time stamps and cost columns included - for any row. */
  lemma SolvedTwice(s: Solvers, row: Scenario, force: bool, now: nat, later: nat)
    requires Solved(s, row, force, now).Some?
    ensures var once := Solved(s, row, force, now).value;
            Solved(s, once, false, later) == Some(once)
  {
    var once := Solved(s, row, force, now).value;
    SolvedStructure(s, row, force, now);
    if row.structuralTmnt.Some? && once.structuralTmntResult.Some? {
      WithCostsTwice(row.structuralTmnt.value, once.structuralTmntResult.value.rows);
    }
  }

  /** Two rows that differ in the time of their results at most. */
  predicate SameButTime(a: Scenario, b: Scenario) {
    a == b.(resultTimeUpdated := a.resultTimeUpdated)
  }

  lemma Embedded(s: Solvers, row: Scenario, force: bool, now: nat)
    requires Coherent(s, row) && Solved(s, row, force, now).Some?
    ensures var result := Solved(s, row, force, now).value.structuralTmntResult;
            result.Some? ==>
              result.value.watershed == if force || row.structuralTmntResult.None? then EmbedAll(Facilities(row))
                                        else row.structuralTmntResult.value.watershed
    ensures row.structuralTmntResult.Some? ==> Solved(s, row, force, now).value.structuralTmntResult.Some?
  {
  }

  /**
   * On any coherent row a solve that fills in what is missing gives what a solve from
   * scratch gives, but for the time - exactly when there was no result yet, or the
   * facility records embedded in it are the ones the row now holds.
   */
  lemma IncrementalIsFullExactlyWhen(s: Solvers, row: Scenario, now: nat, later: nat)
    requires Coherent(s, row)
    ensures Solved(s, row, false, now).Some? && Solved(s, row, true, later).Some?
    ensures SameButTime(Solved(s, row, false, now).value, Solved(s, row, true, later).value) <==>
            row.structuralTmntResult.None? || row.structuralTmntResult.value.watershed == EmbedAll(Facilities(row))
  {
    IncrementalIsFull(s, row, now, later);
    Embedded(s, row, false, now);
    Embedded(s, row, true, later);
  }

  lemma {:induction false} NewRecordsHaveNoCosts(s: Solvers, features: seq<Feature>, settings: Json)
    ensures EmbedAll(FacilitiesOf(s, features, settings)) == FacilitiesOf(s, features, settings)
    ensures forall f :: f in FacilitiesOf(s, features, settings) ==> NoCosts(f)
  {
    if features != [] {
      var n := |features| - 1;
      NewRecordsHaveNoCosts(s, features[..n], settings);
      assert forall f :: Embed(f) == f.(costs := Embed(f).costs);
      var front, all := FacilitiesOf(s, features[..n], settings), FacilitiesOf(s, features, settings);
      forall i | 0 <= i < |all|
        ensures EmbedAll(all)[i] == all[i] && NoCosts(all[i])
      {
        if i < |front| {
          assert all[i] == front[i] && EmbedAll(front)[i] == front[i] && front[i] in front;
        } else {
          assert Embed(all[i]).costs == map[];
        }
      }
    }
  }

  /**
   * Submitting the same input again under other cost settings keeps the result but
   * replaces the facility records; solving from scratch then gives another row
   * exactly when the records now differ from the embedded ones - without any facility
   * having got a cost.
   */
  lemma NewSettingsKeepOldRecords(s: Solvers, row: Scenario, raw: Input, patch: Patch, settings: Json,
                                  now: nat, later: nat)
    requires Coherent(s, row) && row.structuralTmntResult.Some?
    requires patch.input == Given(raw) && row.inputHash == Some(Digest(raw)) && raw.facilities.Given?
    ensures var next := Updated(s, row, patch, settings, now);
            && Coherent(s, next) && next.structuralTmntResult == row.structuralTmntResult
            && (forall f :: f in Facilities(next) ==> NoCosts(f))
            && Solved(s, next, false, now).Some? && Solved(s, next, true, later).Some?
            && (SameButTime(Solved(s, next, false, now).value, Solved(s, next, true, later).value) <==>
                row.structuralTmntResult.value.watershed == FacilitiesOf(s, FeaturesOf(raw.facilities.value), settings))
  {
    var next := Updated(s, row, patch, settings, now);
    UpdatedIsCoherent(s, row, patch, settings, now);
    NewRecordsHaveNoCosts(s, FeaturesOf(raw.facilities.value), settings);
    assert Facilities(next) == FacilitiesOf(s, FeaturesOf(raw.facilities.value), settings);
    IncrementalIsFullExactlyWhen(s, next, now, later);
  }

  /** Solvers for one facility that removes nothing; only its present value depends on the settings. */
  function PlainSolvers(): Solvers {
    Solvers(d => d, p => Attributes(p, ""), (p: Json, settings: Json) => Some(if settings == "new" then 2.0 else 1.0),
            d => d, b => b, (l: Json, b: Json) => l, (b: Json, f: seq<Feature>) => b,
            (e: Json, b: Json, l: Json, a: seq<Attributes>) => [])
  }

  function PlainInput(): Input {
    Input(Given("delineation"), Given(Features([Feature("point", Some("facility"))])))
  }

  lemma OneFacility(settings: Json)
    ensures FacilitiesOf(PlainSolvers(), FeaturesOf(PlainInput().facilities.value), settings)
            == [Facility(Attributes("facility", ""), Some(if settings == "new" then 2.0 else 1.0), map[])]
  {
    var features := FeaturesOf(PlainInput().facilities.value);
    assert features[..0] == [];
  }

  /** A row just created and solved, under the old settings. */
  lemma PlainRow() returns (row: Scenario)
    ensures Coherent(PlainSolvers(), row) && row.inputHash == Some(Digest(PlainInput()))
    ensures row.structuralTmntResult.Some?
    ensures row.structuralTmntResult.value.watershed
            == [Facility(Attributes("facility", ""), Some(1.0), map[])]
  {
    var s, patch := PlainSolvers(), Patch(Absent, Absent, Given(PlainInput()));
    RunKeepsCoherent(s, patch, "old", []);
    var created := Created(s, patch, "old").row;
    SolvedIsComplete(s, created, false, 0);
    SolvedRest(s, created, false, 0);
    Embedded(s, created, false, 0);
    row := Solved(s, created, false, 0).value;
    OneFacility("old");
    NewRecordsHaveNoCosts(s, FeaturesOf(PlainInput().facilities.value), "old");
  }

  /** It does happen: no facility has a cost, and a solve from scratch still gives another row. */
  lemma SettingsWitness() returns (row: Scenario)
    ensures Coherent(PlainSolvers(), row) && forall f :: f in Facilities(row) ==> NoCosts(f)
    ensures Solved(PlainSolvers(), row, false, 0).Some? && Solved(PlainSolvers(), row, true, 0).Some?
    ensures !SameButTime(Solved(PlainSolvers(), row, false, 0).value, Solved(PlainSolvers(), row, true, 0).value)
  {
    var before := PlainRow();
    var patch := Patch(Absent, Absent, Given(PlainInput()));
    OneFacility("new");
    NewSettingsKeepOldRecords(PlainSolvers(), before, PlainInput(), patch, "new", 0, 0);
    row := Updated(PlainSolvers(), before, patch, "new", 0);
  }

  /** Solving from scratch what has just been solved repeats the row under the same condition. */
  lemma ForcedAgainExactlyWhen(s: Solvers, row: Scenario, force: bool, now: nat, later: nat)
    requires Coherent(s, row)
    ensures Solved(s, row, force, now).Some?
    ensures var once := Solved(s, row, force, now).value;
            && Solved(s, once, true, later).Some?
            && (SameButTime(once, Solved(s, once, true, later).value) <==>
                once.structuralTmntResult.None?
                || once.structuralTmntResult.value.watershed == EmbedAll(Facilities(once)))
  {
    SolvedIsComplete(s, row, force, now);
    SolvedTwice(s, row, force, now, later);
    IncrementalIsFullExactlyWhen(s, Solved(s, row, force, now).value, later, later);
  }

  /**
   * For a row that had neither result nor costs before, that condition is that no
   * facility got a cost: otherwise the records embedded anew carry their own costs.
   */
  lemma ForcedAgainIffNoCosts(s: Solvers, row: Scenario, force: bool, now: nat, later: nat)
    requires Coherent(s, row) && row.structuralTmntResult.None?
    requires Delineations(row).Some? && FacilityFeatures(row).Some?
    requires forall f :: f in Facilities(row) ==> NoCosts(f)
    ensures Solved(s, row, force, now).Some?
    ensures var once := Solved(s, row, force, now).value;
            && Solved(s, once, true, later).Some?
            && (Solved(s, once, true, later).value == once.(resultTimeUpdated := Some(later))
                <==> forall i :: 0 <= i < |Facilities(once)| ==> NoCosts(Facilities(once)[i]))
  {
    SolvedIsComplete(s, row, force, now);
    var once := Solved(s, row, force, now).value;
    SolvedIsComplete(s, once, true, later);
    var again := Solved(s, once, true, later).value;
    SolvedStructure(s, row, force, now);
    SolvedStructure(s, once, true, later);
    SolvedRest(s, once, true, later);
    SolvedFields(s, row, force, now);
    SolvedFields(s, once, true, later);
    WithCostsTwice(Facilities(row), once.structuralTmntResult.value.rows);
    assert once.structuralTmntResult.value.watershed == EmbedAll(Facilities(row));
    assert again.structuralTmntResult.value.watershed == EmbedAll(Facilities(once));
    EmbedsAllAlike(Facilities(row), Facilities(once));
  }
}
