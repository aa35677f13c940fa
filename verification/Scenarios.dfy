/**
 * The cached results of a scenario: a PATCH compares digests and clears what its
 * new input outdates, a solve fills in what is missing.
 */
module Scenarios {
  import opened Options
  import opened CostEffectiveness

  type Json = string

  /** An entry of a JSON object. */
  datatype Field<+T> = Absent | Null | Given(value: T)

  /** `properties` is None where a feature has none, or empty ones. */
  datatype Feature = Feature(geometry: Json, properties: Option<Json>)

  /** A collection object; one without any entry counts as missing when a solve looks for it. */
  datatype Collection = Empty | Features(features: seq<Feature>)

  const EMPTY_OBJECT: Json := "{}"

  datatype Input = Input(delineations: Field<Json>, facilities: Field<Collection>)

  /** A SHA-256 digest, which is taken to be injective. */
  datatype Digest<+T> = Digest(of: T)

  /** The rows of the water-quality solver, with the facility records it was given. */
  datatype Result = Result(rows: seq<ResultRow>, watershed: seq<Facility>)

  /** A row of the scenario table. */
  datatype Scenario = Scenario(
    name: Option<string>,
    info: Option<Json>,
    input: Option<Input>,
    inputTimeUpdated: Option<nat>,
    loadingHash: Option<Digest<Json>>,
    inputHash: Option<Digest<Input>>,
    lguBoundary: Option<Json>,
    lguLoad: Option<Json>,
    delinLoad: Option<Json>,
    structuralTmnt: Option<seq<Facility>>,
    graphEdge: Option<Json>,
    structuralTmntResult: Option<Result>,
    resultTimeUpdated: Option<nat>)

  /** The columns an update sets: the keys of a dictionary of changes. */
  datatype Changes = Changes(
    name: Field<string>,
    info: Field<Json>,
    input: Field<Input>,
    inputTimeUpdated: Field<nat>,
    loadingHash: Field<Digest<Json>>,
    inputHash: Field<Digest<Input>>,
    lguBoundary: Field<Json>,
    lguLoad: Field<Json>,
    delinLoad: Field<Json>,
    structuralTmnt: Field<seq<Facility>>,
    graphEdge: Field<Json>,
    structuralTmntResult: Field<Result>)

  datatype Patch = Patch(name: Field<string>, info: Field<Json>, input: Field<Input>)

  /** The parts of the computation that stay uninterpreted. */
  datatype Solvers = Solvers(
    validate: Json -> Json,
    attributes: Json -> Attributes,
    presentValue: (Json, Json) -> Option<real>,
    boundary: Json -> Json,
    loading: Json -> Json,
    byDelineation: (Json, Json) -> Json,
    edges: (Json, seq<Feature>) -> Json,
    waterQuality: (Json, Json, Json, seq<Attributes>) -> seq<ResultRow>)

  function Column<T>(old_: Option<T>, change: Field<T>): Option<T> {
    match change
    case Absent => old_
    case Null => None
    case Given(v) => Some(v)
  }

  function Apply(row: Scenario, c: Changes): Scenario {
    row.(name := Column(row.name, c.name),
         info := Column(row.info, c.info),
         input := Column(row.input, c.input),
         inputTimeUpdated := Column(row.inputTimeUpdated, c.inputTimeUpdated),
         loadingHash := Column(row.loadingHash, c.loadingHash),
         inputHash := Column(row.inputHash, c.inputHash),
         lguBoundary := Column(row.lguBoundary, c.lguBoundary),
         lguLoad := Column(row.lguLoad, c.lguLoad),
         delinLoad := Column(row.delinLoad, c.delinLoad),
         structuralTmnt := Column(row.structuralTmnt, c.structuralTmnt),
         graphEdge := Column(row.graphEdge, c.graphEdge),
         structuralTmntResult := Column(row.structuralTmntResult, c.structuralTmntResult))
  }

  /******* The validator *******/

  function FacilityOf(s: Solvers, properties: Json, settings: Json): Facility {
    Facility(s.attributes(properties), s.presentValue(properties, settings), map[])
  }

  /** `collection.get("features", [])`. */
  function FeaturesOf(c: Collection): seq<Feature> {
    match c
    case Empty => []
    case Features(features) => features
  }

  function FacilitiesOf(s: Solvers, features: seq<Feature>, settings: Json): seq<Facility> {
    if features == [] then []
    else
      var n := |features| - 1;
      var p := features[n].properties;
      FacilitiesOf(s, features[..n], settings) + if p.Some? then [FacilityOf(s, p.value, settings)] else []
  }

  /** The input as it is stored: delineations validated, facilities as given. */
  function Stored(s: Solvers, raw: Input): Input {
    if raw.delineations.Given? then raw.(delineations := Given(s.validate(raw.delineations.value))) else raw
  }

  function Untouched(patch: Patch): Changes {
    Changes(patch.name, patch.info, patch.input, Absent, Absent, Absent, Absent, Absent, Absent, Absent, Absent, Absent)
  }

  function Validated(s: Solvers, patch: Patch, settings: Json): Changes {
    if !patch.input.Given? then Untouched(patch)
    else
      var raw := patch.input.value;
      var stored := Stored(s, raw);
      Untouched(patch).(
        input := Given(stored),
        inputHash := Given(Digest(raw)),
        loadingHash := if stored.delineations.Given? then Given(Digest(stored.delineations.value)) else Absent,
        structuralTmnt :=
          if raw.facilities.Given? then Given(FacilitiesOf(s, FeaturesOf(raw.facilities.value), settings)) else Absent)
  }

  /** `scenario_validator`. */
  method ScenarioValidator(s: Solvers, patch: Patch, settings: Json) returns (scenario: Changes)
    ensures scenario == Validated(s, patch, settings)
  {
    scenario := Untouched(patch);
    if patch.input.Given? {
      var input_ := patch.input.value;
      scenario := scenario.(inputHash := Given(Digest(input_)));
      if input_.delineations.Given? {
        var valid := s.validate(input_.delineations.value);
        scenario := scenario.(loadingHash := Given(Digest(valid)));
        scenario := scenario.(input := Given(input_.(delineations := Given(valid))));
      }
      if input_.facilities.Given? {
        var features, tmnt := FeaturesOf(input_.facilities.value), [];
        for i := 0 to |features|
          invariant tmnt == FacilitiesOf(s, features[..i], settings)
        {
          assert features[..i + 1][..i] == features[..i];
          if features[i].properties.Some? {
            tmnt := tmnt + [FacilityOf(s, features[i].properties.value, settings)];
          }
        }
        assert features[..|features|] == features;
        scenario := scenario.(structuralTmnt := Given(tmnt));
      }
    }
  }

  /******* The update *******/

  /** A key that is not set reads as None. */
  function Get<T>(f: Field<T>): Option<T> {
    if f.Given? then Some(f.value) else None
  }

  function Updated(s: Solvers, row: Scenario, patch: Patch, settings: Json, now: nat): Scenario {
    var data := Validated(s, patch, settings);
    var next := Apply(row, data);
    if data.input.Absent? then next
    else
      var kept := if row.loadingHash == Get(data.loadingHash) then next
                  else next.(lguBoundary := None, lguLoad := None, delinLoad := None);
      if row.inputHash == Get(data.inputHash) then kept
      else kept.(graphEdge := None, structuralTmntResult := None, inputTimeUpdated := Some(now))
  }

  lemma {:induction false} RecordsOf(s: Solvers, features: seq<Feature>, settings: Json)
    requires forall f :: f in features ==> f.properties.Some?
    ensures var facilities := FacilitiesOf(s, features, settings);
            && |facilities| == |features|
            && forall i :: 0 <= i < |features| ==>
                 facilities[i] == Facility(s.attributes(features[i].properties.value),
                                           s.presentValue(features[i].properties.value, settings), map[])
  {
    if features != [] {
      var n := |features| - 1;
      RecordsOf(s, features[..n], settings);
      assert features[n] in features;
    }
  }

  /** What the patch says of a column is what the column then holds; a key that is not there leaves it alone. */
  lemma PatchedNames(s: Solvers, row: Scenario, patch: Patch, settings: Json, now: nat)
    ensures var next := Updated(s, row, patch, settings, now);
            && (patch.name.Given? ==> next.name == Some(patch.name.value))
            && (patch.name.Null? ==> next.name == None)
            && (patch.name.Absent? ==> next.name == row.name)
            && (patch.info.Given? ==> next.info == Some(patch.info.value))
            && (patch.info.Null? ==> next.info == None)
            && (patch.info.Absent? ==> next.info == row.info)
            && (patch.input.Absent? ==> next == row.(name := next.name, info := next.info))
  {
  }

  /** A PATCH with an input, column by column. */
  lemma PatchedInput(s: Solvers, row: Scenario, patch: Patch, settings: Json, now: nat)
    requires patch.input.Given?
    ensures var raw, next := patch.input.value, Updated(s, row, patch, settings, now);
            var valid := if raw.delineations.Given? then Given(s.validate(raw.delineations.value))
                         else raw.delineations;
            var hash := if valid.Given? then Some(Digest(valid.value)) else None;
            && next.input == Some(Input(valid, raw.facilities)) && next.inputHash == Some(Digest(raw))
            && next.loadingHash == (if hash.Some? then hash else row.loadingHash)
            && (if row.loadingHash == hash
                then next.lguBoundary == row.lguBoundary && next.lguLoad == row.lguLoad
                     && next.delinLoad == row.delinLoad
                else next.lguBoundary == next.lguLoad == next.delinLoad == None)
            && (if row.inputHash == Some(Digest(raw))
                then next.graphEdge == row.graphEdge && next.structuralTmntResult == row.structuralTmntResult
                     && next.inputTimeUpdated == row.inputTimeUpdated
                else next.graphEdge == None && next.structuralTmntResult == None && next.inputTimeUpdated == Some(now))
            && next.resultTimeUpdated == row.resultTimeUpdated
            && (!raw.facilities.Given? ==> next.structuralTmnt == row.structuralTmnt)
  {
  }

  /** The facility records it sets: one for each feature with properties, priced under the given settings. */
  lemma PatchedFacilities(s: Solvers, row: Scenario, patch: Patch, settings: Json, now: nat, features: seq<Feature>)
    requires patch.input.Given? && patch.input.value.facilities == Given(Features(features))
    requires forall f :: f in features ==> f.properties.Some?
    ensures var tmnt := Updated(s, row, patch, settings, now).structuralTmnt;
            && tmnt.Some? && |tmnt.value| == |features|
            && forall i :: 0 <= i < |features| ==>
                 tmnt.value[i] == Facility(s.attributes(features[i].properties.value),
                                           s.presentValue(features[i].properties.value, settings), map[])
  {
    RecordsOf(s, features, settings);
  }

  /** Other features are passed over. */
  lemma {:induction false} PassedOver(s: Solvers, a: seq<Feature>, f: Feature, b: seq<Feature>, settings: Json)
    requires f.properties.None?
    ensures FacilitiesOf(s, a + [f] + b, settings) == FacilitiesOf(s, a + b, settings)
    decreases |b|
  {
    if b == [] {
      assert (a + [f] + b)[..|a|] == a && a + b == a;
      assert FacilitiesOf(s, a + [f] + b, settings) == FacilitiesOf(s, a, settings) + [];
    } else {
      var n := |b| - 1;
      PassedOver(s, a, f, b[..n], settings);
      assert (a + [f] + b)[..|a| + 1 + n] == a + [f] + b[..n];
      assert (a + b)[..|a| + n] == a + b[..n];
    }
  }

  /** A PATCH that sets the input to null drops it; the digests stay, so results go where there was a digest. */
  lemma PatchedAway(s: Solvers, row: Scenario, patch: Patch, settings: Json, now: nat)
    requires patch.input.Null?
    ensures var next := Updated(s, row, patch, settings, now);
            && next.input == None && next.inputHash == row.inputHash && next.loadingHash == row.loadingHash
            && next.structuralTmnt == row.structuralTmnt && next.resultTimeUpdated == row.resultTimeUpdated
            && (row.loadingHash.Some? ==> next.lguBoundary == next.lguLoad == next.delinLoad == None)
            && (row.inputHash.Some? ==> next.graphEdge == None && next.structuralTmntResult == None)
  {
  }

  /** The scenario table's row, and the update that stores into it. */
  class ScenarioStore {
    const s: Solvers
    var row: Scenario

    constructor (s: Solvers, row: Scenario)
      ensures this.s == s && this.row == row
    {
      this.s, this.row := s, row;
    }

    /** `update_scenario`. */
    method UpdateScenario(patch: Patch, settings: Json, now: nat)
      modifies this
      ensures row == Updated(s, old(row), patch, settings, now)
    {
      var data := ScenarioValidator(s, patch, settings);
      if !data.input.Absent? {
        var loadingHash, inputHash := Get(data.loadingHash), Get(data.inputHash);
        var recalculateLoading := row.loadingHash != loadingHash;
        var recalculateWq := row.inputHash != inputHash;
        if recalculateLoading {
          data := data.(lguBoundary := Null, lguLoad := Null, delinLoad := Null);
        }
        if recalculateWq {
          data := data.(graphEdge := Null, structuralTmntResult := Null, inputTimeUpdated := Given(now));
        }
      }
      row := Apply(row, data);
    }

    /** `solve_scenario_db`: the whole row is overwritten. */
    method SolveScenarioDb(data: Scenario)
      modifies this
      ensures row == data
    {
      row := data;
    }
  }

  /******* The solve *******/

  /** The delineations to solve for, unless missing or empty. */
  function Delineations(row: Scenario): Option<Json> {
    if row.input.Some? && row.input.value.delineations != Given(EMPTY_OBJECT)
    then Get(row.input.value.delineations) else None
  }

  function FacilityFeatures(row: Scenario): Option<seq<Feature>> {
    if row.input.Some? && row.input.value.facilities.Given? && row.input.value.facilities.value.Features?
    then Some(row.input.value.facilities.value.features) else None
  }

  function Facilities(row: Scenario): seq<Facility> {
    if row.structuralTmnt.Some? then row.structuralTmnt.value else []
  }

  function AllAttributes(facilities: seq<Facility>): (attributes: seq<Attributes>)
    ensures |attributes| == |facilities|
  {
    seq(|facilities|, i requires 0 <= i < |facilities| => facilities[i].attributes)
  }

  predicate RecalculateLoading(row: Scenario, force: bool) {
    Delineations(row).Some? && (force || row.lguLoad.None?)
  }

  predicate RecalculateWq(row: Scenario, force: bool) {
    && Delineations(row).Some? && FacilityFeatures(row).Some?
    && (force || RecalculateLoading(row, force) || row.structuralTmntResult.None?)
  }

  function WithLoading(s: Solvers, row: Scenario): Scenario
    requires Delineations(row).Some?
  {
    var boundary := s.boundary(Delineations(row).value);
    var load := s.loading(boundary);
    row.(lguBoundary := Some(boundary), lguLoad := Some(load), delinLoad := Some(s.byDelineation(load, boundary)))
  }

  function WithResult(s: Solvers, row: Scenario): Scenario
    requires FacilityFeatures(row).Some? && row.lguBoundary.Some? && row.lguLoad.Some?
  {
    var edges := s.edges(row.lguBoundary.value, FacilityFeatures(row).value);
    var rows := s.waterQuality(edges, row.lguBoundary.value, row.lguLoad.value, AllAttributes(Facilities(row)));
    row.(graphEdge := Some(edges), structuralTmntResult := Some(Result(rows, EmbedAll(Facilities(row)))))
  }

  /** Cost columns are written only where there are facilities and a result. */
  function Costed(row: Scenario): Scenario {
    if row.structuralTmnt.None? || row.structuralTmntResult.None? then row
    else row.(structuralTmnt := Some(WithCosts(row.structuralTmnt.value, row.structuralTmntResult.value.rows)))
  }

  function Stamped(row: Scenario, changed: bool, now: nat): Scenario {
    if changed then row.(resultTimeUpdated := Some(now)) else row
  }

  /** What a solve makes of a row; None is the exception of a load without its boundary. */
  function Solved(s: Solvers, row: Scenario, force: bool, now: nat): Option<Scenario> {
    var loading, wq := RecalculateLoading(row, force), RecalculateWq(row, force);
    var loaded := if loading then WithLoading(s, row) else row;
    if wq && loaded.lguBoundary.None? then None
    else
      var solved := if wq then WithResult(s, loaded) else loaded;
      Some(Stamped(Costed(solved), loading || wq, now))
  }

  /**
   * A solve, column by column.  Loads are computed when forced or missing; results when
   * forced, when loads are computed, or when missing; both only where there is what
   * they are computed from.  The time is set exactly when something was computed.
   */
  lemma SolvedColumns(s: Solvers, row: Scenario, force: bool, now: nat)
    ensures var delineated := row.input.Some? && row.input.value.delineations.Given?
                              && row.input.value.delineations.value != "{}";
            var furnished := row.input.Some? && row.input.value.facilities.Given?
                             && row.input.value.facilities.value.Features?;
            var loading := delineated && (force || row.lguLoad == None);
            var wq := delineated && furnished && (force || loading || row.structuralTmntResult == None);
            && (Solved(s, row, force, now).None? <==> wq && !loading && row.lguBoundary == None)
            && (Solved(s, row, force, now).Some? ==>
                  var next := Solved(s, row, force, now).value;
                  && next.name == row.name && next.info == row.info && next.input == row.input
                  && next.inputHash == row.inputHash && next.loadingHash == row.loadingHash
                  && next.resultTimeUpdated == (if loading || wq then Some(now) else row.resultTimeUpdated)
                  && (!loading ==> next.lguBoundary == row.lguBoundary && next.lguLoad == row.lguLoad
                                   && next.delinLoad == row.delinLoad)
                  && (loading ==> next.lguBoundary == Some(s.boundary(row.input.value.delineations.value))
                                  && next.lguLoad == Some(s.loading(next.lguBoundary.value))
                                  && next.delinLoad
                                     == Some(s.byDelineation(next.lguLoad.value, next.lguBoundary.value)))
                  && (!wq ==> next.graphEdge == row.graphEdge && next.structuralTmntResult == row.structuralTmntResult))
  {
  }

  /** What a computed result is computed from: the boundary and load of the solved row, and the facilities it had. */
  lemma SolvedResult(s: Solvers, row: Scenario, force: bool, now: nat)
    requires row.input.Some? && row.input.value.facilities.Given? && row.input.value.facilities.value.Features?
    requires row.input.value.delineations.Given? && row.input.value.delineations.value != "{}"
    requires force || row.lguLoad == None || row.structuralTmntResult == None
    requires Solved(s, row, force, now).Some?
    ensures var next := Solved(s, row, force, now).value;
            && next.lguBoundary.Some? && next.lguLoad.Some? && next.structuralTmntResult.Some?
            && next.graphEdge == Some(s.edges(next.lguBoundary.value, row.input.value.facilities.value.features))
            && var given := if row.structuralTmnt.Some? then row.structuralTmnt.value else [];
               var attributes := seq(|given|, i requires 0 <= i < |given| => given[i].attributes);
               && next.structuralTmntResult.value.rows
                  == s.waterQuality(next.graphEdge.value, next.lguBoundary.value, next.lguLoad.value, attributes)
               && next.structuralTmntResult.value.watershed == EmbedAll(given)
  {
    var given := if row.structuralTmnt.Some? then row.structuralTmnt.value else [];
    assert AllAttributes(Facilities(row)) == seq(|given|, i requires 0 <= i < |given| => given[i].attributes);
  }

  /** The dictionary a solve works on in place. */
  class ScenarioData {
    var data: Scenario

    constructor (row: Scenario)
      ensures data == row
    {
      data := row;
    }

    /** `solve_scenario_data`. */
    method SolveScenarioData(s: Solvers, force: bool, now: nat) returns (ok: bool)
      modifies this
      ensures ok == Solved(s, old(data), force, now).Some?
      ensures ok ==> data == Solved(s, old(data), force, now).value
      ensures !ok ==> data == old(data)
    {
      var delin, tmnt := Delineations(data), FacilityFeatures(data);
      var recalculateLoading := delin.Some? && (force || data.lguLoad.None?);
      var recalculateWq :=
        delin.Some? && tmnt.Some? && (force || recalculateLoading || data.structuralTmntResult.None?);
      if recalculateLoading {
        var boundary := s.boundary(delin.value);
        var load := s.loading(boundary);
        data := data.(lguBoundary := Some(boundary));
        data := data.(lguLoad := Some(load));
        data := data.(delinLoad := Some(s.byDelineation(load, boundary)));
      }
      if recalculateWq {
        if data.lguBoundary.None? {
          return false;
        }
        var edges := s.edges(data.lguBoundary.value, tmnt.value);
        data := data.(graphEdge := Some(edges));
        var given := Facilities(data);
        var rows := s.waterQuality(edges, data.lguBoundary.value, data.lguLoad.value, AllAttributes(given));
        data := data.(structuralTmntResult := Some(Result(rows, EmbedAll(given))));
      }
      if data.structuralTmnt.Some? && data.structuralTmntResult.Some? {
        var priced := MaybeIncludeCostEffectiveness(data.structuralTmnt.value, data.structuralTmntResult.value.rows);
        data := data.(structuralTmnt := Some(priced));
      }
      if recalculateLoading || recalculateWq {
        data := data.(resultTimeUpdated := Some(now));
      }
      ok := true;
    }
  }
}
