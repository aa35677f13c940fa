/**
 * The present-value table of a facility: one row a year, replacements at the end of
 * each lifespan, and cumulative totals.  Years are whole and amounts are in cents.
 */
module PresentValue {
  import opened Options

  /** What a facility costs; an amount or a year that is not known is None. */
  datatype Costs = Costs(
    capital: int,
    omPerYear: int,
    installYear: Option<int>,
    lifespan: Option<int>,
    replacement: Option<int>)

  datatype Settings = Settings(horizon: int, basisYear: int)

  /** One year of the table, before the totals run. */
  datatype Year = Year(year: int, inHorizon: bool, omTotal: int, pvOm: int, pvCapital: int)

  /** The table with its cumulative columns, and the totals reported beside it. */
  datatype Report = Report(
    years: seq<Year>,
    omCumulative: seq<int>,
    totalCumulative: seq<int>,
    presentValueCapital: int,
    presentValueOm: int,
    presentValueTotal: int)

  /** `StepIsZero` is the exception of a range with step zero. */
  datatype Outcome = Computed(report: Report) | StepIsZero

  function Min(a: int, b: int): int { if a <= b then a else b }
  function Max(a: int, b: int): int { if a >= b then a else b }

  function InstallYear(c: Costs, g: Settings): int {
    if c.installYear.Some? then c.installYear.value else g.basisYear
  }

  /** Without a lifespan nothing is replaced. */
  function Lifespan(c: Costs, g: Settings): int {
    if c.lifespan.Some? then c.lifespan.value else g.horizon
  }

  function Replacement(c: Costs): int {
    if c.lifespan.Some? && c.replacement.Some? then c.replacement.value else 0
  }

  function Start(c: Costs, g: Settings): int {
    Min(g.basisYear, InstallYear(c, g))
  }

  function End(c: Costs, g: Settings): int {
    Max(g.basisYear, InstallYear(c, g)) + g.horizon + 1
  }

  /** `arange`: from `first` on in steps, below `end`. */
  function Arange(first: int, end: int, step: int): (years: seq<int>)
    requires step != 0
    decreases if step > 0 then end - first else 0
  {
    if step < 0 || first >= end then [] else [first] + Arange(first + step, end, step)
  }

  function Tail(s: seq<int>): seq<int> {
    if s == [] then [] else s[1..]
  }

  /** The years in which the facility is replaced: every lifespan after it was installed. */
  function ReplacementYears(c: Costs, g: Settings): seq<int>
    requires Lifespan(c, g) != 0
  {
    Tail(Arange(InstallYear(c, g), End(c, g) + 1, Lifespan(c, g)))
  }

  function YearOf(c: Costs, g: Settings, pvCapital: int, pv: (int, int) -> int, replacements: seq<int>, y: int): Year {
    var inHorizon := y + g.horizon + 1 >= End(c, g);
    var cost := c.omPerYear + (if y in replacements then Replacement(c) else 0);
    var omTotal := if inHorizon then cost else 0;
    Year(y, inHorizon, omTotal, pv(y, omTotal), if y == InstallYear(c, g) then pvCapital else 0)
  }

  function Table(c: Costs, g: Settings, pvCapital: int, pv: (int, int) -> int): (years: seq<Year>)
    requires Lifespan(c, g) != 0
  {
    var years := Arange(Start(c, g), End(c, g), 1);
    var replacements := ReplacementYears(c, g);
    seq(|years|, i requires 0 <= i < |years| => YearOf(c, g, pvCapital, pv, replacements, years[i]))
  }

  function Sum(s: seq<int>): int {
    if s == [] then 0 else Sum(s[..|s| - 1]) + s[|s| - 1]
  }

  function CumSum(s: seq<int>): (sums: seq<int>)
    ensures |sums| == |s|
  {
    if s == [] then []
    else
      var front := CumSum(s[..|s| - 1]);
      front + [(if front == [] then 0 else front[|front| - 1]) + s[|s| - 1]]
  }

  function Om(years: seq<Year>): (column: seq<int>)
    ensures |column| == |years|
  {
    seq(|years|, i requires 0 <= i < |years| => years[i].pvOm)
  }

  function Capital(years: seq<Year>): (column: seq<int>)
    ensures |column| == |years|
  {
    seq(|years|, i requires 0 <= i < |years| => years[i].pvCapital)
  }

  function Total(years: seq<Year>): (column: seq<int>)
    ensures |column| == |years|
  {
    seq(|years|, i requires 0 <= i < |years| => years[i].pvOm + years[i].pvCapital)
  }

  function OmTotal(years: seq<Year>): (column: seq<int>)
    ensures |column| == |years|
  {
    seq(|years|, i requires 0 <= i < |years| => years[i].omTotal)
  }

  /**
   * `compute_bmp_pv`: `pvCapital` is the discounted capital cost, `pv` escalates and
   * discounts an amount of some year.
   */
  function ComputeBmpPv(c: Costs, g: Settings, pvCapital: int, pv: (int, int) -> int): Outcome {
    if Lifespan(c, g) == 0 then StepIsZero
    else
      var years := Table(c, g, pvCapital, pv);
      var om := Sum(Om(years));
      Computed(Report(years, CumSum(Om(years)), CumSum(Total(years)), pvCapital, om, pvCapital + om))
  }

  /******* The years *******/

  lemma {:induction false} ArangeByOne(first: int, end: int)
    ensures |Arange(first, end, 1)| == Max(end - first, 0)
    ensures forall i :: 0 <= i < |Arange(first, end, 1)| ==> Arange(first, end, 1)[i] == first + i
    decreases end - first
  {
    if first < end {
      ArangeByOne(first + 1, end);
    }
  }

  lemma AtLeastOneStep(step: int, k: int)
    requires step > 0 && k > 0
    ensures step * k >= step
  {
    assert step * k == step * (k - 1) + step;
  }

  lemma ModuloIs(d: int, step: int, q: int, r: int)
    requires step > 0 && d == step * q + r && 0 <= r < step
    ensures d % step == r && d / step == q
  {
    var k := d / step - q;
    assert step * k == r - d % step;
    if k > 0 {
      AtLeastOneStep(step, k);
      assert false;
    } else if k < 0 {
      AtLeastOneStep(step, -k);
      assert false;
    }
  }

  lemma OneStepBack(d: int, step: int)
    requires step > 0
    ensures (d - step) % step == d % step
  {
    var q := d / step;
    assert d - step == step * (q - 1) + d % step;
    ModuloIs(d - step, step, q - 1, d % step);
  }

  lemma SmallModulo(d: int, step: int)
    requires 0 < d < step
    ensures d % step == d
  {
    ModuloIs(d, step, 0, d);
  }

  lemma {:induction false} ArangeHolds(first: int, end: int, step: int, y: int)
    requires step > 0
    ensures y in Arange(first, end, step) <==> first <= y < end && (y - first) % step == 0
    decreases end - first
  {
    if first < end {
      ArangeHolds(first + step, end, step, y);
      assert (y - (first + step)) % step == (y - first) % step by {
        OneStepBack(y - first, step);
      }
      if first <= y < first + step && y != first {
        SmallModulo(y - first, step);
      }
    }
  }

  predicate Replaced(c: Costs, g: Settings, y: int)
    requires Lifespan(c, g) > 0
  {
    y > InstallYear(c, g) && (y - InstallYear(c, g)) % Lifespan(c, g) == 0
  }

  lemma ReplacementYearsHold(c: Costs, g: Settings, y: int)
    requires Lifespan(c, g) > 0 && g.horizon >= 0 && y < End(c, g)
    ensures y in ReplacementYears(c, g) <==> Replaced(c, g, y)
  {
    var first, end, step := InstallYear(c, g), End(c, g) + 1, Lifespan(c, g);
    var all := Arange(first, end, step);
    assert all == [first] + Arange(first + step, end, step);
    assert ReplacementYears(c, g) == Arange(first + step, end, step);
    ArangeHolds(first + step, end, step, y);
    OneStepBack(y - first, step);
    if first < y < first + step {
      SmallModulo(y - first, step);
    }
  }

  /******* Counting *******/

  /** How many of the years lie in the planning horizon. */
  function InHorizon(years: seq<Year>): nat {
    if years == [] then 0
    else InHorizon(years[..|years| - 1]) + if years[|years| - 1].inHorizon then 1 else 0
  }

  function Installed(years: seq<Year>, install: int): nat {
    if years == [] then 0
    else Installed(years[..|years| - 1], install) + if years[|years| - 1].year == install then 1 else 0
  }

  /** In-horizon years in which the facility is replaced. */
  function Replacements(c: Costs, g: Settings, years: seq<Year>): nat
    requires Lifespan(c, g) > 0
  {
    if years == [] then 0
    else
      var last := years[|years| - 1];
      Replacements(c, g, years[..|years| - 1]) + if last.inHorizon && Replaced(c, g, last.year) then 1 else 0
  }

  /** The table, row by row. */
  lemma TableRow(c: Costs, g: Settings, pvCapital: int, pv: (int, int) -> int, i: nat)
    requires Lifespan(c, g) > 0 && g.horizon >= 0 && i < |Table(c, g, pvCapital, pv)|
    ensures var row, y := Table(c, g, pvCapital, pv)[i], Start(c, g) + i;
            var cost := c.omPerYear + if Replaced(c, g, y) then Replacement(c) else 0;
            && |Table(c, g, pvCapital, pv)| == End(c, g) - Start(c, g)
            && row.year == y < End(c, g) && row.inHorizon == (y >= Max(g.basisYear, InstallYear(c, g)))
            && row.omTotal == (if row.inHorizon then cost else 0) && row.pvOm == pv(y, row.omTotal)
            && row.pvCapital == (if y == InstallYear(c, g) then pvCapital else 0)
  {
    ArangeByOne(Start(c, g), End(c, g));
    ReplacementYearsHold(c, g, Start(c, g) + i);
  }

  lemma TableLength(c: Costs, g: Settings, pvCapital: int, pv: (int, int) -> int)
    requires Lifespan(c, g) != 0 && g.horizon >= 0
    ensures |Table(c, g, pvCapital, pv)| == End(c, g) - Start(c, g)
  {
    ArangeByOne(Start(c, g), End(c, g));
  }

  /** Multiples of the lifespan among the offsets below `d` that count: those above `from`, and zero never. */
  function Multiples(step: int, from: int, d: int): int
    requires step > 0 && 0 <= from
  {
    if d <= from then 0 else (d - 1) / step - (if from == 0 then 0 else (from - 1) / step)
  }

  lemma OneMoreOffset(step: int, d: int)
    requires step > 0 && d > 0
    ensures d / step == (d - 1) / step + if d % step == 0 then 1 else 0
  {
    var q, r := d / step, d % step;
    assert d == step * q + r;
    if r == 0 {
      assert d - 1 == step * (q - 1) + (step - 1);
      ModuloIs(d - 1, step, q - 1, step - 1);
    } else {
      ModuloIs(d - 1, step, q, r - 1);
    }
  }

  lemma NoOffsetYet(step: int)
    requires step > 0
    ensures 0 / step == 0
  {
    ModuloIs(0, step, 0, 0);
  }

  lemma MultiplesStep(step: int, from: int, d: int)
    requires step > 0 && 0 <= from
    ensures Multiples(step, from, d + 1)
         == Multiples(step, from, d) + if d >= from && d > 0 && d % step == 0 then 1 else 0
  {
    NoOffsetYet(step);
    if d >= from && d > 0 {
      OneMoreOffset(step, d);
    }
  }

  /** The first `n` years of the table. */
  function First(c: Costs, g: Settings, pvCapital: int, pv: (int, int) -> int, n: nat): seq<Year>
    requires Lifespan(c, g) > 0 && n <= |Table(c, g, pvCapital, pv)|
  {
    Table(c, g, pvCapital, pv)[..n]
  }

  lemma OneYearMore(c: Costs, g: Settings, pvCapital: int, pv: (int, int) -> int, n: nat)
    requires Lifespan(c, g) > 0 && 0 < n <= |Table(c, g, pvCapital, pv)|
    ensures First(c, g, pvCapital, pv, n)
         == First(c, g, pvCapital, pv, n - 1) + [Table(c, g, pvCapital, pv)[n - 1]]
  {
  }

  lemma AppendYear(c: Costs, g: Settings, years: seq<Year>, y: Year, install: int)
    requires Lifespan(c, g) > 0
    ensures InHorizon(years + [y]) == InHorizon(years) + if y.inHorizon then 1 else 0
    ensures Installed(years + [y], install) == Installed(years, install) + if y.year == install then 1 else 0
    ensures Replacements(c, g, years + [y])
         == Replacements(c, g, years) + if y.inHorizon && Replaced(c, g, y.year) then 1 else 0
  {
    assert (years + [y])[..|years|] == years;
  }

  lemma AppendAmounts(years: seq<Year>, y: Year)
    ensures Sum(Capital(years + [y])) == Sum(Capital(years)) + y.pvCapital
    ensures Sum(OmTotal(years + [y])) == Sum(OmTotal(years)) + y.omTotal
  {
    assert Capital(years + [y])[..|years|] == Capital(years);
    assert OmTotal(years + [y])[..|years|] == OmTotal(years);
  }

  lemma {:induction false} CountYears(c: Costs, g: Settings, pvCapital: int, pv: (int, int) -> int, n: nat)
    requires Lifespan(c, g) > 0 && g.horizon >= 0 && n <= |Table(c, g, pvCapital, pv)|
    ensures var years, install := First(c, g, pvCapital, pv, n), InstallYear(c, g);
            var last, first := Start(c, g) + n, Max(g.basisYear, install);
            && InHorizon(years) == Max(last - first, 0)
            && Installed(years, install) == (if last > install then 1 else 0)
            && Replacements(c, g, years) == Multiples(Lifespan(c, g), first - install, last - install)
  {
    var install := InstallYear(c, g);
    if n > 0 {
      CountYears(c, g, pvCapital, pv, n - 1);
      TableRow(c, g, pvCapital, pv, n - 1);
      OneYearMore(c, g, pvCapital, pv, n);
      AppendYear(c, g, First(c, g, pvCapital, pv, n - 1), Table(c, g, pvCapital, pv)[n - 1], install);
      MultiplesStep(Lifespan(c, g), Max(g.basisYear, install) - install, Start(c, g) + n - 1 - install);
    }
  }

  lemma {:induction false} CapitalOfYears(c: Costs, g: Settings, pvCapital: int, pv: (int, int) -> int, n: nat)
    requires Lifespan(c, g) > 0 && g.horizon >= 0 && n <= |Table(c, g, pvCapital, pv)|
    ensures Sum(Capital(First(c, g, pvCapital, pv, n))) == if Start(c, g) + n > InstallYear(c, g) then pvCapital else 0
  {
    if n > 0 {
      CapitalOfYears(c, g, pvCapital, pv, n - 1);
      TableRow(c, g, pvCapital, pv, n - 1);
      OneYearMore(c, g, pvCapital, pv, n);
      AppendAmounts(First(c, g, pvCapital, pv, n - 1), Table(c, g, pvCapital, pv)[n - 1]);
    }
  }

  /** What so many years in the horizon and so many replacements cost. */
  function Bill(c: Costs, inHorizon: int, replacements: int): int {
    inHorizon * c.omPerYear + replacements * Replacement(c)
  }

  lemma BillStep(c: Costs, h: int, r: int, inHorizon: bool, replaced: bool)
    ensures Bill(c, h + if inHorizon then 1 else 0, r + if inHorizon && replaced then 1 else 0)
         == Bill(c, h, r) + if inHorizon then c.omPerYear + (if replaced then Replacement(c) else 0) else 0
  {
  }

  lemma BilledYear(c: Costs, g: Settings, before: seq<Year>, y: Year)
    requires Lifespan(c, g) > 0
    requires Sum(OmTotal(before)) == Bill(c, InHorizon(before), Replacements(c, g, before))
    requires y.omTotal ==
             if y.inHorizon then c.omPerYear + (if Replaced(c, g, y.year) then Replacement(c) else 0) else 0
    ensures Sum(OmTotal(before + [y])) == Bill(c, InHorizon(before + [y]), Replacements(c, g, before + [y]))
  {
    AppendYear(c, g, before, y, 0);
    AppendAmounts(before, y);
    BillStep(c, InHorizon(before), Replacements(c, g, before), y.inHorizon, Replaced(c, g, y.year));
  }

  lemma {:induction false} CostOfYears(c: Costs, g: Settings, pvCapital: int, pv: (int, int) -> int, n: nat)
    requires Lifespan(c, g) > 0 && g.horizon >= 0 && n <= |Table(c, g, pvCapital, pv)|
    ensures var years := First(c, g, pvCapital, pv, n);
            Sum(OmTotal(years)) == Bill(c, InHorizon(years), Replacements(c, g, years))
  {
    if n > 0 {
      CostOfYears(c, g, pvCapital, pv, n - 1);
      TableRow(c, g, pvCapital, pv, n - 1);
      OneYearMore(c, g, pvCapital, pv, n);
      BilledYear(c, g, First(c, g, pvCapital, pv, n - 1), Table(c, g, pvCapital, pv)[n - 1]);
    }
  }

  /**
   * Exactly `horizon + 1` years are in the planning horizon, exactly one is the year of
   * installation, and the costs in the horizon are those of its years and of the
   * replacements that fall into it.
   */
  lemma HorizonAndReplacements(c: Costs, g: Settings, pvCapital: int, pv: (int, int) -> int)
    requires Lifespan(c, g) > 0 && g.horizon >= 0
    ensures var years, install := Table(c, g, pvCapital, pv), InstallYear(c, g);
            var replacements := Replacements(c, g, years);
            && InHorizon(years) == g.horizon + 1
            && Installed(years, install) == 1
            && Sum(OmTotal(years)) == (g.horizon + 1) * c.omPerYear + replacements * Replacement(c)
            && (install >= g.basisYear ==> replacements == g.horizon / Lifespan(c, g))
            && (install < g.basisYear ==>
                  replacements == (g.basisYear + g.horizon - install) / Lifespan(c, g)
                                  - (g.basisYear - 1 - install) / Lifespan(c, g))
  {
    var years := Table(c, g, pvCapital, pv);
    TableLength(c, g, pvCapital, pv);
    CountYears(c, g, pvCapital, pv, |years|);
    CostOfYears(c, g, pvCapital, pv, |years|);
    assert First(c, g, pvCapital, pv, |years|) == years;
  }

  /******* The totals *******/

  lemma {:induction false} LastOfCumSum(s: seq<int>)
    requires s != []
    ensures CumSum(s)[|s| - 1] == Sum(s)
  {
    if |s| > 1 {
      LastOfCumSum(s[..|s| - 1]);
    }
  }

  lemma {:induction false} SumOfTotal(years: seq<Year>)
    ensures Sum(Total(years)) == Sum(Om(years)) + Sum(Capital(years))
  {
    if years != [] {
      var n := |years| - 1;
      SumOfTotal(years[..n]);
      assert Total(years)[..n] == Total(years[..n]) && Om(years)[..n] == Om(years[..n]);
      assert Capital(years)[..n] == Capital(years[..n]);
    }
  }

  lemma CapitalOnce(c: Costs, g: Settings, pvCapital: int, pv: (int, int) -> int)
    requires Lifespan(c, g) > 0 && g.horizon >= 0
    ensures Sum(Capital(Table(c, g, pvCapital, pv))) == pvCapital
  {
    var years := Table(c, g, pvCapital, pv);
    TableLength(c, g, pvCapital, pv);
    CapitalOfYears(c, g, pvCapital, pv, |years|);
    assert First(c, g, pvCapital, pv, |years|) == years;
  }

  /**
   * Whatever a year's costs are worth, the last cumulative total is the reported one:
   * capital plus operation and maintenance, to the cent.
   */
  lemma TotalsAgree(c: Costs, g: Settings, pvCapital: int, pv: (int, int) -> int)
    requires Lifespan(c, g) > 0 && g.horizon >= 0
    ensures ComputeBmpPv(c, g, pvCapital, pv).Computed?
    ensures var report := ComputeBmpPv(c, g, pvCapital, pv).report;
            var n := |report.years|;
            && n > 0 && |report.totalCumulative| == n && |report.omCumulative| == n
            && report.totalCumulative[n - 1] == report.presentValueTotal
            && report.omCumulative[n - 1] == report.presentValueOm
            && report.presentValueTotal == report.presentValueCapital + report.presentValueOm
  {
    var years := Table(c, g, pvCapital, pv);
    TableLength(c, g, pvCapital, pv);
    CapitalOnce(c, g, pvCapital, pv);
    SumOfTotal(years);
    LastOfCumSum(Total(years));
    LastOfCumSum(Om(years));
  }

  lemma CumSumStep(s: seq<int>, i: nat)
    requires i < |s|
    ensures CumSum(s)[i] == (if i == 0 then 0 else CumSum(s)[i - 1]) + s[i]
    decreases |s|
  {
    if i < |s| - 1 {
      CumSumStep(s[..|s| - 1], i);
    }
  }

  /** Each cumulative column starts from the first year's amount and grows by each later year's own. */
  lemma CumulativeGrows(c: Costs, g: Settings, pvCapital: int, pv: (int, int) -> int, i: nat)
    requires Lifespan(c, g) > 0 && g.horizon >= 0
    requires i < |ComputeBmpPv(c, g, pvCapital, pv).report.years|
    ensures var report := ComputeBmpPv(c, g, pvCapital, pv).report;
            && |report.omCumulative| == |report.totalCumulative| == |report.years|
            && report.omCumulative[i] == (if i == 0 then 0 else report.omCumulative[i - 1]) + report.years[i].pvOm
            && report.totalCumulative[i]
               == (if i == 0 then 0 else report.totalCumulative[i - 1])
                  + report.years[i].pvOm + report.years[i].pvCapital
  {
    var years := Table(c, g, pvCapital, pv);
    CumSumStep(Om(years), i);
    CumSumStep(Total(years), i);
  }

  /**
   * The rows of the report, by what is known of the facility: one a year from the
   * earlier of basis year and installation (the basis year where none is known) to
   * the end of the planning horizon, which starts at the later of the two; a
   * replacement is paid for in it at every later multiple of a known lifespan.
   */
  lemma ReportRows(c: Costs, g: Settings, pvCapital: int, pv: (int, int) -> int, i: nat)
    requires (c.lifespan.Some? ==> c.lifespan.value > 0) && (c.lifespan.None? ==> g.horizon > 0) && g.horizon >= 0
    requires i < |ComputeBmpPv(c, g, pvCapital, pv).report.years|
    ensures var report := ComputeBmpPv(c, g, pvCapital, pv).report;
            var install := if c.installYear.Some? then c.installYear.value else g.basisYear;
            var first := if install < g.basisYear then install else g.basisYear;
            var last := (if install < g.basisYear then g.basisYear else install) + g.horizon;
            var row, y := report.years[i], first + i;
            var replaced := c.lifespan.Some? && y > install && (y - install) % c.lifespan.value == 0;
            && |report.years| == last - first + 1 && row.year == y <= last
            && (row.inHorizon <==> y >= last - g.horizon)
            && row.omTotal == (if y < last - g.horizon then 0
                               else if replaced && c.replacement.Some? then c.omPerYear + c.replacement.value
                               else c.omPerYear)
            && row.pvOm == pv(y, row.omTotal) && row.pvCapital == (if y == install then pvCapital else 0)
            && report.presentValueCapital == pvCapital
  {
    TableRow(c, g, pvCapital, pv, i);
  }

  /** A lifespan of zero fails; so does a missing one when the horizon is zero. */
  lemma FailsIffNoSteps(c: Costs, g: Settings, pvCapital: int, pv: (int, int) -> int)
    ensures ComputeBmpPv(c, g, pvCapital, pv).StepIsZero? <==>
            c.lifespan == Some(0) || (c.lifespan.None? && g.horizon == 0)
  {
  }
}
