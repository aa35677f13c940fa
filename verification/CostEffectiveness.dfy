/**
 * `maybe_include_cost_effectiveness`: the cost of each pound of pollutant removed,
 * written in place into the facility records of a scenario.
 */
module CostEffectiveness {
  import opened Options

  datatype Poc = TSS | TN | TP | TCu | TZn | PHE | PYR | DEHP

  const POCS := [TSS, TN, TP, TCu, TZn, PHE, PYR, DEHP]

  /** What the water-quality solver reads of a facility; everything but its node id stays opaque. */
  datatype Attributes = Attributes(nodeId: string, rest: string)

  /** A facility record. A pollutant missing from `costs` is a missing key, None a null. */
  datatype Facility = Facility(attributes: Attributes, presentValue: Option<real>, costs: map<Poc, Option<real>>)

  datatype ResultRow = ResultRow(nodeId: string, ntype: string, epoch: string, removed: map<Poc, real>)

  function Removed(r: ResultRow, p: Poc): real {
    if p in r.removed then r.removed[p] else 0.0
  }

  predicate IsFacilityResult(r: ResultRow) {
    r.ntype == "tmnt_facility" && r.epoch == "1980s"
  }

  function FacilityResults(rows: seq<ResultRow>): seq<ResultRow> {
    if rows == [] then []
    else (if IsFacilityResult(rows[0]) then [rows[0]] else []) + FacilityResults(rows[1..])
  }

  function FirstOf(rows: seq<ResultRow>, nodeId: string): Option<ResultRow> {
    if rows == [] then None
    else if rows[0].nodeId == nodeId then Some(rows[0])
    else FirstOf(rows[1..], nodeId)
  }

  /** What a pound removed costs: nothing is said without a present value, a result, or any removal. */
  function CostPerPound(f: Facility, rows: seq<ResultRow>, p: Poc): Option<real> {
    var result := FirstOf(FacilityResults(rows), f.attributes.nodeId);
    if f.presentValue.None? || result.None? || Removed(result.value, p) <= 0.0 then None
    else Some(f.presentValue.value / Removed(result.value, p))
  }

  /** A facility with all its cost columns set. */
  function Priced(f: Facility, rows: seq<ResultRow>): Facility {
    f.(costs := map p | p in POCS :: CostPerPound(f, rows, p))
  }

  /** Where there are no facilities or no results of facilities, the records stay as they are. */
  function WithCosts(facilities: seq<Facility>, rows: seq<ResultRow>): (priced: seq<Facility>)
    ensures |priced| == |facilities|
    ensures forall i :: 0 <= i < |priced| ==>
              priced[i].attributes == facilities[i].attributes && priced[i].presentValue == facilities[i].presentValue
  {
    if FacilityResults(rows) == [] then facilities
    else seq(|facilities|, i requires 0 <= i < |facilities| => Priced(facilities[i], rows))
  }

  lemma AllPocs(p: Poc)
    ensures p in POCS
  {
    match p {
      case TSS => assert POCS[0] == p;
      case TN => assert POCS[1] == p;
      case TP => assert POCS[2] == p;
      case TCu => assert POCS[3] == p;
      case TZn => assert POCS[4] == p;
      case PHE => assert POCS[5] == p;
      case PYR => assert POCS[6] == p;
      case DEHP => assert POCS[7] == p;
    }
  }

  /** The first loop over pollutants: every column is reset to null. */
  method ResetCosts(f: Facility) returns (reset: Facility)
    ensures reset.attributes == f.attributes && reset.presentValue == f.presentValue
    ensures forall p :: p in POCS ==> p in reset.costs && reset.costs[p] == None
  {
    reset := f;
    for k := 0 to |POCS|
      invariant reset.attributes == f.attributes && reset.presentValue == f.presentValue
      invariant forall j :: 0 <= j < k ==> POCS[j] in reset.costs && reset.costs[POCS[j]] == None
    {
      reset := reset.(costs := reset.costs[POCS[k] := None]);
    }
  }

  /** The second loop: a column is set where the facility removes any of the pollutant. */
  method FillCosts(f: Facility, pvtc: real, result: ResultRow) returns (filled: Facility)
    requires forall p :: p in POCS ==> p in f.costs && f.costs[p] == None
    ensures filled.attributes == f.attributes && filled.presentValue == f.presentValue
    ensures forall p :: p in POCS ==>
              p in filled.costs
              && filled.costs[p] == if Removed(result, p) > 0.0 then Some(pvtc / Removed(result, p)) else None
  {
    filled := f;
    for k := 0 to |POCS|
      invariant filled.attributes == f.attributes && filled.presentValue == f.presentValue
      invariant forall p :: p in POCS ==> p in filled.costs
      invariant forall j :: 0 <= j < k ==>
        filled.costs[POCS[j]] == if Removed(result, POCS[j]) > 0.0 then Some(pvtc / Removed(result, POCS[j])) else None
      invariant forall j :: k <= j < |POCS| ==> filled.costs[POCS[j]] == None
    {
      var removed := Removed(result, POCS[k]);
      if removed > 0.0 {
        filled := filled.(costs := filled.costs[POCS[k] := Some(pvtc / removed)]);
      }
    }
  }

  lemma SameCosts(a: map<Poc, Option<real>>, b: map<Poc, Option<real>>)
    requires forall p :: p in POCS ==> p in a && p in b && a[p] == b[p]
    ensures a == b
  {
    forall p: Poc
      ensures p in a && p in b && a[p] == b[p]
    {
      AllPocs(p);
    }
  }

  /** One turn of the loop over facilities. */
  method PriceFacility(f: Facility, rows: seq<ResultRow>) returns (priced: Facility)
    ensures priced == Priced(f, rows)
  {
    priced := ResetCosts(f);
    if f.presentValue.Some? {
      var result := FirstOf(FacilityResults(rows), f.attributes.nodeId);
      if result.Some? {
        priced := FillCosts(priced, f.presentValue.value, result.value);
      }
    }
    SameCosts(priced.costs, Priced(f, rows).costs);
  }

  /** `maybe_include_cost_effectiveness`, on the facility list of a scenario. */
  method MaybeIncludeCostEffectiveness(facilities: seq<Facility>, rows: seq<ResultRow>) returns (priced: seq<Facility>)
    ensures priced == WithCosts(facilities, rows)
  {
    priced := facilities;
    if |facilities| == 0 || |FacilityResults(rows)| == 0 {
      return;
    }
    for i := 0 to |facilities|
      invariant |priced| == |facilities|
      invariant forall j :: 0 <= j < i ==> priced[j] == Priced(facilities[j], rows)
      invariant forall j :: i <= j < |facilities| ==> priced[j] == facilities[j]
    {
      var f := PriceFacility(priced[i], rows);
      priced := priced[i := f];
    }
  }

  /** A row of the results of this facility, in the epoch that counts. */
  predicate IsResultOf(r: ResultRow, f: Facility) {
    r.ntype == "tmnt_facility" && r.epoch == "1980s" && r.nodeId == f.attributes.nodeId
  }

  lemma {:induction false} FirstIs(rows: seq<ResultRow>, f: Facility, i: nat)
    requires i < |rows| && IsResultOf(rows[i], f) && forall j :: 0 <= j < i ==> !IsResultOf(rows[j], f)
    ensures FirstOf(FacilityResults(rows), f.attributes.nodeId) == Some(rows[i])
  {
    if i > 0 {
      FirstIs(rows[1..], f, i - 1);
      assert !IsResultOf(rows[0], f);
      if IsFacilityResult(rows[0]) {
        assert FacilityResults(rows)[1..] == FacilityResults(rows[1..]);
      } else {
        assert FacilityResults(rows) == FacilityResults(rows[1..]);
      }
    }
  }

  lemma {:induction false} NoneIs(rows: seq<ResultRow>, f: Facility)
    requires forall r :: r in rows ==> !IsResultOf(r, f)
    ensures FirstOf(FacilityResults(rows), f.attributes.nodeId) == None
  {
    if rows != [] {
      NoneIs(rows[1..], f);
      assert rows[0] in rows;
      if IsFacilityResult(rows[0]) {
        assert FacilityResults(rows)[1..] == FacilityResults(rows[1..]);
      } else {
        assert FacilityResults(rows) == FacilityResults(rows[1..]);
      }
    }
  }

  lemma {:induction false} SomeResults(rows: seq<ResultRow>, r: ResultRow)
    requires r in rows && r.ntype == "tmnt_facility" && r.epoch == "1980s"
    ensures FacilityResults(rows) != []
  {
    if rows[0] != r {
      SomeResults(rows[1..], r);
    }
  }

  lemma {:induction false} NoResults(rows: seq<ResultRow>)
    requires forall r :: r in rows ==> r.ntype != "tmnt_facility" || r.epoch != "1980s"
    ensures FacilityResults(rows) == []
  {
    if rows != [] {
      assert rows[0] in rows;
      NoResults(rows[1..]);
    }
  }

  /**
   * A facility is priced by the first result row of its own node, type `tmnt_facility`
   * and epoch `1980s`: its present value over the pounds removed there, where any are.
   */
  lemma PricedByOwnResult(facilities: seq<Facility>, rows: seq<ResultRow>, n: nat, i: nat, p: Poc)
    requires n < |facilities| && i < |rows|
    requires rows[i].ntype == "tmnt_facility" && rows[i].epoch == "1980s"
    requires rows[i].nodeId == facilities[n].attributes.nodeId
    requires forall j :: 0 <= j < i ==>
               rows[j].ntype != "tmnt_facility" || rows[j].epoch != "1980s" || rows[j].nodeId != rows[i].nodeId
    ensures var costs, r, value := WithCosts(facilities, rows)[n].costs, rows[i], facilities[n].presentValue;
            && p in costs
            && costs[p] == if value.Some? && p in r.removed && r.removed[p] > 0.0 then Some(value.value / r.removed[p])
                           else None
  {
    AllPocs(p);
    FirstIs(rows, facilities[n], i);
    SomeResults(rows, rows[i]);
  }

  /** Without such a row it gets no cost, if there are results of facilities at all; otherwise nothing is touched. */
  lemma UnpricedWithoutResult(facilities: seq<Facility>, rows: seq<ResultRow>, n: nat, p: Poc)
    requires n < |facilities|
    requires forall r :: r in rows ==>
               r.ntype != "tmnt_facility" || r.epoch != "1980s" || r.nodeId != facilities[n].attributes.nodeId
    ensures var priced := WithCosts(facilities, rows)[n];
            if exists r :: r in rows && r.ntype == "tmnt_facility" && r.epoch == "1980s"
            then p in priced.costs && priced.costs[p] == None
            else priced == facilities[n]
  {
    AllPocs(p);
    NoneIs(rows, facilities[n]);
    if r :| r in rows && r.ntype == "tmnt_facility" && r.epoch == "1980s" {
      SomeResults(rows, r);
    } else {
      NoResults(rows);
    }
  }

  /** Costs depend on what the facility is and costs, never on the cost columns it had before. */
  lemma PricedTwice(f: Facility, rows: seq<ResultRow>)
    ensures Priced(Priced(f, rows), rows) == Priced(f, rows)
  {
    var g := Priced(f, rows);
    assert Priced(g, rows).costs == g.costs;
  }

  lemma WithCostsTwice(facilities: seq<Facility>, rows: seq<ResultRow>)
    ensures WithCosts(WithCosts(facilities, rows), rows) == WithCosts(facilities, rows)
  {
    var once := WithCosts(facilities, rows);
    forall i | 0 <= i < |once|
      ensures WithCosts(once, rows)[i] == once[i]
    {
      PricedTwice(facilities[i], rows);
    }
  }

  /** A positive cost per pound, times the pounds removed, is the present value of the facility. */
  lemma CostTimesRemoved(f: Facility, rows: seq<ResultRow>, p: Poc)
    ensures CostPerPound(f, rows, p).Some? <==>
            && f.presentValue.Some?
            && FirstOf(FacilityResults(rows), f.attributes.nodeId).Some?
            && Removed(FirstOf(FacilityResults(rows), f.attributes.nodeId).value, p) > 0.0
    ensures CostPerPound(f, rows, p).Some? ==>
              CostPerPound(f, rows, p).value * Removed(FirstOf(FacilityResults(rows), f.attributes.nodeId).value, p)
              == f.presentValue.value
  {
  }

  /** What the solver embeds of a facility in its results: the columns that are not null. */
  function Embed(f: Facility): Facility {
    f.(costs := map p | p in f.costs && f.costs[p].Some? :: f.costs[p])
  }

  function EmbedAll(facilities: seq<Facility>): (embedded: seq<Facility>)
    ensures |embedded| == |facilities|
  {
    seq(|facilities|, i requires 0 <= i < |facilities| => Embed(facilities[i]))
  }

  /** An embedded record keeps everything but the columns that are null. */
  lemma EmbeddedColumns(facilities: seq<Facility>, n: nat, p: Poc)
    requires n < |facilities|
    ensures var f, e := facilities[n], EmbedAll(facilities)[n];
            && e.attributes == f.attributes && e.presentValue == f.presentValue
            && (p in e.costs <==> p in f.costs && f.costs[p] != None) && (p in e.costs ==> e.costs[p] == f.costs[p])
  {
  }

  predicate NoCosts(f: Facility) {
    forall p :: p in f.costs ==> f.costs[p].None?
  }

  lemma EmbedsAlikeIffNoCosts(f: Facility, g: Facility)
    requires g == f.(costs := g.costs) && NoCosts(f)
    ensures Embed(g) == Embed(f) <==> NoCosts(g)
  {
    assert Embed(f).costs == map[];
    if Embed(g) == Embed(f) {
      forall p | p in g.costs
        ensures g.costs[p].None?
      {
        assert p !in Embed(g).costs;
      }
    }
    if NoCosts(g) {
      assert Embed(g).costs == map[];
    }
  }

  lemma EmbedsAllAlike(fs: seq<Facility>, gs: seq<Facility>)
    requires |gs| == |fs|
    requires forall i :: 0 <= i < |fs| ==> NoCosts(fs[i]) && gs[i] == fs[i].(costs := gs[i].costs)
    ensures EmbedAll(gs) == EmbedAll(fs) <==> forall i :: 0 <= i < |gs| ==> NoCosts(gs[i])
  {
    forall i | 0 <= i < |fs|
      ensures Embed(gs[i]) == Embed(fs[i]) <==> NoCosts(gs[i])
    {
      EmbedsAlikeIffNoCosts(fs[i], gs[i]);
    }
    if EmbedAll(gs) == EmbedAll(fs) {
      forall i | 0 <= i < |gs|
        ensures NoCosts(gs[i])
      {
        assert EmbedAll(gs)[i] == EmbedAll(fs)[i];
      }
    }
  }
}
