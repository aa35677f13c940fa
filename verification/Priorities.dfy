/**
 * Scores over several criteria: the weighted net flow of PROMETHEE II, the 0-100
 * priority made of it, and the laws both obey.
 */
module Priorities {
  import opened Preferences
  import opened Promethee

  predicate IsTable(table: seq<seq<real>>, rows: nat, columns: nat) {
    |table| == rows && forall m :: 0 <= m < rows ==> |table[m]| == columns
  }

  /** `weighted_multicriterion_flow` for one alternative, over the first `m` criteria. */
  function Weigh(nets: seq<seq<real>>, w: seq<real>, r: nat, m: nat): real
    requires m <= |w| == |nets| && forall k :: 0 <= k < |nets| ==> r < |nets[k]|
  {
    if m == 0 then 0.0 else Weigh(nets, w, r, m - 1) + nets[m - 1][r] * w[m - 1]
  }

  function Normalized(w: seq<real>): (n: seq<real>)
    ensures |n| == |w|
  {
    if Total(w) > 0.0 then seq(|w|, k requires 0 <= k < |w| => w[k] / Total(w)) else w
  }

  /** Alternatives are rows, criteria are columns; a direction is 1 or -1. */
  datatype Problem = Problem(
    matrix: seq<seq<real>>, weights: seq<real>, directions: seq<real>, preferences: seq<Preference>)
  {
    ghost predicate Valid() {
      && |matrix| >= 2
      && |weights| == |directions| == |preferences|
      && forall r :: 0 <= r < |matrix| ==> |matrix[r]| == |weights|
    }

    /** One criterion, pointed so that more is better. */
    function Column(m: nat): (column: seq<real>)
      requires Valid() && m < |weights|
      ensures |column| == |matrix|
    {
      seq(|matrix|, r requires 0 <= r < |matrix| => matrix[r][m] * directions[m])
    }

    function Plus(m: nat, r: nat): real
      requires Valid() && m < |weights| && r < |matrix|
    {
      Gain(preferences[m], Column(m), Column(m)[r]) / (|matrix| - 1) as real
    }

    function Minus(m: nat, r: nat): real
      requires Valid() && m < |weights| && r < |matrix|
    {
      Loss(preferences[m], Column(m), Column(m)[r]) / (|matrix| - 1) as real
    }

    function Net(m: nat, r: nat): real
      requires Valid() && m < |weights| && r < |matrix|
    {
      Plus(m, r) - Minus(m, r)
    }

    /** The net flows, one list per criterion. */
    function Nets(): (nets: seq<seq<real>>)
      requires Valid()
      ensures IsTable(nets, |weights|, |matrix|)
    {
      seq(|weights|, m requires 0 <= m < |weights| => seq(|matrix|, r requires 0 <= r < |matrix| => Net(m, r)))
    }

    function Score(r: nat): real
      requires Valid() && r < |matrix|
    {
      Weigh(Nets(), Normalized(weights), r, |weights|)
    }

    function Scores(): (scores: seq<real>)
      requires Valid()
      ensures |scores| == |matrix|
    {
      seq(|matrix|, r requires 0 <= r < |matrix| => Score(r))
    }
  }

  predicate Nonnegative(w: seq<real>) {
    forall k :: 0 <= k < |w| ==> w[k] >= 0.0
  }

  datatype Outcome<+T> = AssertionError | Computed(value: T)

  /** `check_weights`. */
  function CheckWeights(w: seq<real>): Outcome<seq<real>> {
    if Nonnegative(w) then Computed(Normalized(w)) else AssertionError
  }

  /******* The engine over all criteria *******/

  /** `multicriterion_flow`, one list of flows per criterion; without a chunk size there is one chunk. */
  method MulticriterionFlow(pr: Problem, chunksize: nat) returns (plus: seq<seq<real>>, minus: seq<seq<real>>)
    requires pr.Valid()
    ensures |plus| == |minus| == |pr.weights|
    ensures forall m :: 0 <= m < |plus| ==> |plus[m]| == |minus[m]| == |pr.matrix|
    ensures forall m, r :: 0 <= m < |plus| && 0 <= r < |pr.matrix| ==> plus[m][r] == pr.Plus(m, r)
    ensures forall m, r :: 0 <= m < |plus| && 0 <= r < |pr.matrix| ==> minus[m][r] == pr.Minus(m, r)
  {
    plus, minus := [], [];
    var size := if chunksize == 0 then |pr.matrix| else chunksize;
    for m := 0 to |pr.weights|
      invariant |plus| == |minus| == m
      invariant forall k :: 0 <= k < m ==> |plus[k]| == |minus[k]| == |pr.matrix|
      invariant forall k, r :: 0 <= k < m && 0 <= r < |pr.matrix| ==> plus[k][r] == pr.Plus(k, r)
      invariant forall k, r :: 0 <= k < m && 0 <= r < |pr.matrix| ==> minus[k][r] == pr.Minus(k, r)
    {
      var column := pr.Column(m);
      var a := new real[|column|](k requires 0 <= k < |column| => column[k]);
      assert a[..] == column;
      var uniPlus, uniMinus := UnicriterionFlow(a, pr.preferences[m], size);
      plus, minus := plus + [uniPlus[..]], minus + [uniMinus[..]];
    }
  }

  /** `prom_ii`: the result does not depend on the chunk size. */
  method PromII(pr: Problem, chunksize: nat) returns (scores: Outcome<seq<real>>)
    requires pr.Valid()
    ensures scores == if Nonnegative(pr.weights) then Computed(pr.Scores()) else AssertionError
    ensures scores == AssertionError <==> exists k :: 0 <= k < |pr.weights| && pr.weights[k] < 0.0
  {
    var plus, minus := MulticriterionFlow(pr, chunksize);
    var n := |pr.matrix|;
    var net := seq(|plus|, m requires 0 <= m < |plus| =>
      seq(n, r requires 0 <= r < n => plus[m][r] - minus[m][r]));
    forall m | 0 <= m < |pr.weights|
      ensures net[m] == pr.Nets()[m]
    {
    }
    assert net == pr.Nets();
    match CheckWeights(pr.weights)
    case AssertionError => return AssertionError;
    case Computed(w) =>
      var result := seq(n, r requires 0 <= r < n => Weigh(net, w, r, |w|));
      assert result == pr.Scores();
      return Computed(result);
  }

  /******* Conservation: what one alternative gains another loses *******/

  /** All preferences of the values of `b` over the values of `a`. */
  function GainAll(f: Preference, a: seq<real>, b: seq<real>): real {
    if b == [] then 0.0 else GainAll(f, a, b[..|b| - 1]) + Gain(f, a, b[|b| - 1])
  }

  function LossAll(f: Preference, a: seq<real>, b: seq<real>): real {
    if b == [] then 0.0 else LossAll(f, a, b[..|b| - 1]) + Loss(f, a, b[|b| - 1])
  }

  lemma {:induction false} GainAllGrows(f: Preference, a: seq<real>, b: seq<real>)
    requires a != []
    ensures GainAll(f, a, b) == GainAll(f, a[..|a| - 1], b) + Loss(f, b, a[|a| - 1])
    decreases |b|
  {
    if b != [] {
      GainAllGrows(f, a, b[..|b| - 1]);
    }
  }

  lemma {:induction false} GainOverNone(f: Preference, b: seq<real>)
    ensures GainAll(f, [], b) == 0.0
    decreases |b|
  {
    if b != [] {
      GainOverNone(f, b[..|b| - 1]);
    }
  }

  /** The double sum read by rows is the double sum read by columns. */
  lemma {:induction false} GainIsLoss(f: Preference, a: seq<real>, b: seq<real>)
    ensures GainAll(f, a, b) == LossAll(f, b, a)
    decreases |a|
  {
    if a == [] {
      GainOverNone(f, b);
    } else {
      GainAllGrows(f, a, b);
      GainIsLoss(f, a[..|a| - 1], b);
    }
  }

  lemma DistributeSum(a: real, b: real, w: real)
    ensures (a + b) * w == a * w + b * w
  {
  }

  lemma QuotientDifference(g: real, l: real, d: real)
    requires d > 0.0
    ensures (g / d - l / d) * d == g - l
  {
    assert (g / d) * d == g && (l / d) * d == l;
    DistributeSum(g / d, -(l / d), d);
  }

  lemma ZeroFactor(t: real, d: real)
    requires t * d == 0.0 && d > 0.0
    ensures t == 0.0
  {
  }

  lemma EqualTimes(x: real, y: real, d: real)
    requires d > 0.0 && x * d == y * d
    ensures x == y
  {
    assert (x - y) * d == x * d - y * d;
    ZeroFactor(x - y, d);
  }

  lemma {:induction false} ScaledTotal(w: seq<real>, v: seq<real>, c: real)
    requires |v| == |w| && forall k :: 0 <= k < |w| ==> v[k] == w[k] * c
    ensures Total(v) == Total(w) * c
    decreases |w|
  {
    if w != [] {
      var n := |w| - 1;
      ScaledTotal(w[..n], v[..n], c);
      DistributeSum(Total(w[..n]), w[n], c);
    }
  }

  /** The differences of gains and losses of the first `n` rows of one criterion, summed. */
  lemma {:induction false} DifferenceTotal(f: Preference, c: seq<real>, difference: seq<real>, n: nat)
    requires n <= |c| == |difference|
    requires forall r :: 0 <= r < |c| ==> difference[r] == Gain(f, c, c[r]) - Loss(f, c, c[r])
    ensures Total(difference[..n]) == GainAll(f, c, c[..n]) - LossAll(f, c, c[..n])
  {
    if n > 0 {
      DifferenceTotal(f, c, difference, n - 1);
      assert c[..n][..n - 1] == c[..n - 1] && difference[..n][..n - 1] == difference[..n - 1];
    }
  }

  lemma OneCriterionSumsToZero(f: Preference, c: seq<real>, net: seq<real>, d: real)
    requires d > 0.0 && |net| == |c|
    requires forall r :: 0 <= r < |c| ==> net[r] == Gain(f, c, c[r]) / d - Loss(f, c, c[r]) / d
    ensures Total(net) == 0.0
  {
    var difference := seq(|c|, r requires 0 <= r < |c| => Gain(f, c, c[r]) - Loss(f, c, c[r]));
    forall r | 0 <= r < |c|
      ensures difference[r] == net[r] * d
    {
      QuotientDifference(Gain(f, c, c[r]), Loss(f, c, c[r]), d);
    }
    DifferenceTotal(f, c, difference, |c|);
    assert c[..|c|] == c && difference[..|c|] == difference;
    GainIsLoss(f, c, c);
    ScaledTotal(net, difference, d);
    ZeroFactor(Total(net), d);
  }

  lemma NetsSumToZero(pr: Problem, m: nat)
    requires pr.Valid() && m < |pr.weights|
    ensures Total(pr.Nets()[m]) == 0.0
  {
    OneCriterionSumsToZero(pr.preferences[m], pr.Column(m), pr.Nets()[m], (|pr.matrix| - 1) as real);
  }

  /** The scores of the first `n` rows over the first `m` criteria, summed. */
  function WeighTotal(nets: seq<seq<real>>, w: seq<real>, m: nat, n: nat): real
    requires m <= |w| == |nets| && forall k :: 0 <= k < |nets| ==> n <= |nets[k]|
  {
    if n == 0 then 0.0 else WeighTotal(nets, w, m, n - 1) + Weigh(nets, w, n - 1, m)
  }

  lemma {:induction false} WeighTotalGrows(nets: seq<seq<real>>, w: seq<real>, m: nat, n: nat)
    requires 0 < m <= |w| == |nets| && forall k :: 0 <= k < |nets| ==> n <= |nets[k]|
    ensures WeighTotal(nets, w, m, n) == WeighTotal(nets, w, m - 1, n) + Total(nets[m - 1][..n]) * w[m - 1]
  {
    if n > 0 {
      WeighTotalGrows(nets, w, m, n - 1);
      assert nets[m - 1][..n][..n - 1] == nets[m - 1][..n - 1];
      DistributeSum(Total(nets[m - 1][..n - 1]), nets[m - 1][n - 1], w[m - 1]);
    }
  }

  lemma {:induction false} NothingWeighed(nets: seq<seq<real>>, w: seq<real>, n: nat)
    requires |w| == |nets| && forall k :: 0 <= k < |nets| ==> n <= |nets[k]|
    ensures WeighTotal(nets, w, 0, n) == 0.0
  {
    if n > 0 {
      NothingWeighed(nets, w, n - 1);
    }
  }

  lemma {:induction false} WeighTotalZero(nets: seq<seq<real>>, w: seq<real>, m: nat, n: nat)
    requires m <= |w| == |nets| && IsTable(nets, |w|, n)
    requires forall k :: 0 <= k < |nets| ==> Total(nets[k]) == 0.0
    ensures WeighTotal(nets, w, m, n) == 0.0
    decreases m, n
  {
    if m == 0 {
      if n > 0 {
        NothingWeighed(nets, w, n);
      }
    } else {
      WeighTotalGrows(nets, w, m, n);
      assert nets[m - 1][..n] == nets[m - 1];
      WeighTotalZero(nets, w, m - 1, n);
    }
  }

  lemma {:induction false} ScoresTotal(scores: seq<real>, nets: seq<seq<real>>, w: seq<real>, n: nat)
    requires n <= |scores| && IsTable(nets, |w|, |scores|)
    requires forall r :: 0 <= r < |scores| ==> scores[r] == Weigh(nets, w, r, |w|)
    ensures Total(scores[..n]) == WeighTotal(nets, w, |w|, n)
  {
    if n > 0 {
      assert scores[..n][..n - 1] == scores[..n - 1];
      ScoresTotal(scores, nets, w, n - 1);
    }
  }

  /** Flow conservation: for every matrix, weights, directions and preferences the scores sum to zero. */
  lemma ScoresSumToZero(pr: Problem)
    requires pr.Valid()
    ensures Total(pr.Scores()) == 0.0
  {
    var scores, nets, w, n := pr.Scores(), pr.Nets(), Normalized(pr.weights), |pr.matrix|;
    forall k | 0 <= k < |nets|
      ensures Total(nets[k]) == 0.0
    {
      NetsSumToZero(pr, k);
    }
    ScoresTotal(scores, nets, w, n);
    assert scores[..n] == scores;
    WeighTotalZero(nets, w, |w|, n);
  }

  /******* Bounds *******/

  lemma {:induction false} FlowBounds(f: Preference, a: seq<real>, x: real)
    ensures 0.0 <= Gain(f, a, x) <= |a| as real && 0.0 <= Loss(f, a, x) <= |a| as real
    decreases |a|
  {
    if a != [] {
      var y := a[|a| - 1];
      FlowBounds(f, a[..|a| - 1], x);
      PreferInUnit(f, x - y);
      PreferInUnit(f, y - x);
    }
  }

  /** Against a list that holds `x` itself, one summand is the preference of a tie. */
  lemma OwnBounds(f: Preference, a: seq<real>, i: nat)
    requires i < |a|
    ensures Prefer(f, 0.0) <= Gain(f, a, a[i]) <= (|a| - 1) as real + Prefer(f, 0.0)
    ensures Prefer(f, 0.0) <= Loss(f, a, a[i]) <= (|a| - 1) as real + Prefer(f, 0.0)
    ensures -(|a| - 1) as real <= Gain(f, a, a[i]) - Loss(f, a, a[i]) <= (|a| - 1) as real
  {
    var x := a[i];
    assert a == (a[..i] + [x]) + a[i + 1..];
    GainAppend(f, a[..i] + [x], a[i + 1..], x);
    GainAppend(f, a[..i], [x], x);
    assert [x][..0] == [];
    assert Gain(f, [x], x) == Prefer(f, 0.0) == Loss(f, [x], x);
    FlowBounds(f, a[..i], x);
    FlowBounds(f, a[i + 1..], x);
  }

  lemma FlowsOfTwo(f: Preference, x: real, y: real, c: real)
    ensures Gain(f, [x, y], c) == Prefer(f, c - x) + Prefer(f, c - y)
    ensures Loss(f, [x, y], c) == Prefer(f, x - c) + Prefer(f, y - c)
  {
    assert [x, y][..1] == [x] && [x][..0] == [];
    assert Gain(f, [], c) == 0.0 && Loss(f, [], c) == 0.0;
    assert Gain(f, [x], c) == Prefer(f, c - x) && Loss(f, [x], c) == Prefer(f, x - c);
  }

  function Above(f: Preference): (d: real)
    ensures d > 0.0 && d > f.q && d > f.p
  {
    var m := if f.q > f.p then f.q else f.p;
    if m > 0.0 then m + 1.0 else 1.0
  }

  /** Two alternatives far apart: a preference for a tie carries both flows over 1. */
  lemma TieOverOne(f: Preference)
    requires !TieEarnsNothing(f)
    ensures exists a: seq<real>, i: nat :: |a| >= 2 && i < |a| && Gain(f, a, a[i]) / (|a| - 1) as real > 1.0
    ensures exists a: seq<real>, i: nat :: |a| >= 2 && i < |a| && Loss(f, a, a[i]) / (|a| - 1) as real > 1.0
  {
    TieIsZero(f);
    PreferInUnit(f, 0.0);
    var d := Above(f);
    LargeIsOne(f, d);
    var a := [d, 0.0];
    FlowsOfTwo(f, d, 0.0, d);
    FlowsOfTwo(f, d, 0.0, 0.0);
    assert d - d == 0.0 && d - 0.0 == d;
    assert a[0] == d && Gain(f, a, a[0]) / (|a| - 1) as real > 1.0;
    assert a[1] == 0.0 && Loss(f, a, a[1]) / (|a| - 1) as real > 1.0;
  }

  /**
   * When every flow is a proportion: exactly when a tie earns nothing, that is, for
   * nonnegative thresholds.  Otherwise two alternatives are enough to leave the
   * unit interval.
   */
  lemma FlowsInUnitIffTieEarnsNothing(f: Preference)
    ensures TieEarnsNothing(f) <==>
            forall a: seq<real>, i: nat :: |a| >= 2 && i < |a| ==>
              Gain(f, a, a[i]) / (|a| - 1) as real <= 1.0
    ensures TieEarnsNothing(f) <==>
            forall a: seq<real>, i: nat :: |a| >= 2 && i < |a| ==>
              Loss(f, a, a[i]) / (|a| - 1) as real <= 1.0
  {
    TieIsZero(f);
    PreferInUnit(f, 0.0);
    if TieEarnsNothing(f) {
      forall a: seq<real>, i: nat | |a| >= 2 && i < |a|
        ensures Gain(f, a, a[i]) / (|a| - 1) as real <= 1.0
        ensures Loss(f, a, a[i]) / (|a| - 1) as real <= 1.0
      {
        OwnBounds(f, a, i);
        RatioInUnit(Gain(f, a, a[i]), (|a| - 1) as real);
        RatioInUnit(Loss(f, a, a[i]), (|a| - 1) as real);
      }
    } else {
      TieOverOne(f);
    }
  }

  lemma SumOverQuotient(l: real, d: real)
    requires d > 0.0
    ensures (l + d) / d == l / d + 1.0 && (l - d) / d == l / d - 1.0
  {
    var x := l / d;
    assert x * d == l;
    DistributeSum(x, 1.0, d);
    DistributeSum(x, -1.0, d);
    assert ((l + d) / d) * d == l + d && ((l - d) / d) * d == l - d;
    EqualTimes((l + d) / d, x + 1.0, d);
    EqualTimes((l - d) / d, x - 1.0, d);
  }

  lemma QuotientBounds(g: real, l: real, d: real)
    requires d > 0.0 && -d <= g - l <= d
    ensures -1.0 <= g / d - l / d <= 1.0
  {
    RatioMonotone(g, l + d, d);
    RatioMonotone(l - d, g, d);
    SumOverQuotient(l, d);
  }

  lemma NetInUnit(pr: Problem, m: nat, r: nat)
    requires pr.Valid() && m < |pr.weights| && r < |pr.matrix|
    ensures -1.0 <= pr.Net(m, r) <= 1.0
    ensures TieEarnsNothing(pr.preferences[m]) ==> 0.0 <= pr.Plus(m, r) <= 1.0 && 0.0 <= pr.Minus(m, r) <= 1.0
  {
    var c, f, d := pr.Column(m), pr.preferences[m], (|pr.matrix| - 1) as real;
    OwnBounds(f, c, r);
    TieIsZero(f);
    PreferInUnit(f, 0.0);
    QuotientBounds(Gain(f, c, c[r]), Loss(f, c, c[r]), d);
    if TieEarnsNothing(f) {
      RatioInUnit(Gain(f, c, c[r]), d);
      RatioInUnit(Loss(f, c, c[r]), d);
    }
  }

  lemma AddQuotients(a: real, b: real, d: real)
    requires d > 0.0
    ensures a / d + b / d == (a + b) / d
  {
  }

  lemma {:induction false} DividedTotal(w: seq<real>, v: seq<real>, d: real)
    requires d > 0.0 && |v| == |w| && forall k :: 0 <= k < |w| ==> v[k] == w[k] / d
    ensures Total(v) == Total(w) / d
    decreases |w|
  {
    if w != [] {
      var n := |w| - 1;
      DividedTotal(w[..n], v[..n], d);
      AddQuotients(Total(w[..n]), w[n], d);
    }
  }

  lemma {:induction false} TotalNonnegative(w: seq<real>)
    requires Nonnegative(w)
    ensures Total(w) >= 0.0
    ensures forall k :: 0 <= k < |w| ==> w[k] <= Total(w)
    decreases |w|
  {
    if w != [] {
      var n := |w| - 1;
      TotalNonnegative(w[..n]);
      forall k | 0 <= k < |w|
        ensures w[k] <= Total(w)
      {
        if k < n {
          assert w[..n][k] == w[k];
        }
      }
    }
  }

  /** Normalized weights are nonnegative and sum to one, or are all zero. */
  lemma NormalizedWeights(w: seq<real>)
    requires Nonnegative(w)
    ensures Nonnegative(Normalized(w)) && Total(Normalized(w)) == if Total(w) > 0.0 then 1.0 else 0.0
  {
    TotalNonnegative(w);
    if Total(w) > 0.0 {
      DividedTotal(w, Normalized(w), Total(w));
      assert Total(w) / Total(w) == 1.0;
      forall k | 0 <= k < |w|
        ensures Normalized(w)[k] >= 0.0
      {
        RatioMonotone(0.0, w[k], Total(w));
      }
    }
  }

  lemma ProductBounded(x: real, w: real)
    requires -1.0 <= x <= 1.0 && w >= 0.0
    ensures -w <= x * w <= w
  {
    assert (1.0 - x) * w >= 0.0 && (1.0 + x) * w >= 0.0;
    assert (1.0 - x) * w == w - x * w && (1.0 + x) * w == w + x * w;
  }

  lemma {:induction false} WeighBounded(nets: seq<seq<real>>, w: seq<real>, r: nat, m: nat)
    requires m <= |w| == |nets| && Nonnegative(w)
    requires forall k :: 0 <= k < |nets| ==> r < |nets[k]| && -1.0 <= nets[k][r] <= 1.0
    ensures -Total(w[..m]) <= Weigh(nets, w, r, m) <= Total(w[..m])
  {
    if m > 0 {
      WeighBounded(nets, w, r, m - 1);
      assert w[..m][..m - 1] == w[..m - 1];
      assert Total(w[..m]) == Total(w[..m - 1]) + w[m - 1];
      var x, v := nets[m - 1][r], w[m - 1];
      ProductBounded(x, v);
      assert Weigh(nets, w, r, m) == Weigh(nets, w, r, m - 1) + x * v;
    } else {
      assert w[..0] == [];
    }
  }

  /** Scores lie between -1 and 1, for all thresholds. */
  lemma ScoreInUnit(pr: Problem, r: nat)
    requires pr.Valid() && Nonnegative(pr.weights) && r < |pr.matrix|
    ensures -1.0 <= pr.Score(r) <= 1.0
  {
    var w := Normalized(pr.weights);
    NormalizedWeights(pr.weights);
    forall k | 0 <= k < |w|
      ensures -1.0 <= pr.Nets()[k][r] <= 1.0
    {
      NetInUnit(pr, k, r);
    }
    WeighBounded(pr.Nets(), w, r, |w|);
    assert w[..|w|] == w;
  }

  /******* Dominance *******/

  lemma {:induction false} FlowMonotone(f: Preference, a: seq<real>, x: real, y: real)
    requires x <= y
    ensures Gain(f, a, x) <= Gain(f, a, y) && Loss(f, a, x) >= Loss(f, a, y)
    decreases |a|
  {
    if a != [] {
      var z := a[|a| - 1];
      FlowMonotone(f, a[..|a| - 1], x, y);
      PreferMonotone(f, x - z, y - z);
      PreferMonotone(f, z - y, z - x);
    }
  }

  ghost predicate Dominates(pr: Problem, r: nat, s: nat)
    requires pr.Valid() && r < |pr.matrix| && s < |pr.matrix|
  {
    forall m :: 0 <= m < |pr.weights| ==> pr.Column(m)[r] >= pr.Column(m)[s]
  }

  lemma ProductMonotone(x: real, y: real, w: real)
    requires x <= y && w >= 0.0
    ensures x * w <= y * w
  {
    assert (y - x) * w >= 0.0 && (y - x) * w == y * w - x * w;
  }

  lemma {:induction false} WeighMonotone(nets: seq<seq<real>>, w: seq<real>, r: nat, s: nat, m: nat)
    requires m <= |w| == |nets| && Nonnegative(w)
    requires forall k :: 0 <= k < |nets| ==> r < |nets[k]| && s < |nets[k]| && nets[k][r] >= nets[k][s]
    ensures Weigh(nets, w, r, m) >= Weigh(nets, w, s, m)
  {
    if m > 0 {
      WeighMonotone(nets, w, r, s, m - 1);
      ProductMonotone(nets[m - 1][s], nets[m - 1][r], w[m - 1]);
    }
  }

  lemma NetMonotone(pr: Problem, m: nat, r: nat, s: nat)
    requires pr.Valid() && m < |pr.weights| && r < |pr.matrix| && s < |pr.matrix|
    requires pr.Column(m)[r] >= pr.Column(m)[s]
    ensures pr.Net(m, r) >= pr.Net(m, s)
  {
    var c, f, d := pr.Column(m), pr.preferences[m], (|pr.matrix| - 1) as real;
    FlowMonotone(f, c, c[s], c[r]);
    RatioMonotone(Gain(f, c, c[s]), Gain(f, c, c[r]), d);
    RatioMonotone(Loss(f, c, c[r]), Loss(f, c, c[s]), d);
  }

  /******* Min-max normalization *******/

  function MinOf(s: seq<real>): (m: real)
    requires s != []
    ensures m in s && forall k :: 0 <= k < |s| ==> m <= s[k]
  {
    if |s| == 1 then s[0]
    else
      var rest := MinOf(s[1..]);
      assert forall k :: 1 <= k < |s| ==> s[k] == s[1..][k - 1];
      if s[0] <= rest then s[0] else rest
  }

  function MaxOf(s: seq<real>): (m: real)
    requires s != []
    ensures m in s && forall k :: 0 <= k < |s| ==> s[k] <= m
  {
    if |s| == 1 then s[0]
    else
      var rest := MaxOf(s[1..]);
      assert forall k :: 1 <= k < |s| ==> s[k] == s[1..][k - 1];
      if s[0] >= rest then s[0] else rest
  }

  /** One value of `minmax_normalization`, times 100. */
  function Rescale(x: real, lo: real, hi: real): real {
    if hi - lo == 0.0 then 100.0 else (x - lo) / (hi - lo) * 100.0
  }

  function Priorities(s: seq<real>): (p: seq<real>)
    requires s != []
    ensures |p| == |s|
  {
    seq(|s|, k requires 0 <= k < |s| => Rescale(s[k], MinOf(s), MaxOf(s)))
  }

  lemma RescaleMonotone(x: real, y: real, lo: real, hi: real)
    requires lo <= x <= y <= hi
    ensures 0.0 <= Rescale(x, lo, hi) <= Rescale(y, lo, hi) <= 100.0
  {
    if hi != lo {
      RatioMonotone(x - lo, y - lo, hi - lo);
      RatioInUnit(x - lo, hi - lo);
      RatioInUnit(y - lo, hi - lo);
    }
  }

  lemma RescaleEnds(x: real, lo: real, hi: real)
    requires lo <= x <= hi
    ensures Rescale(x, lo, hi) == 100.0 <==> x == hi
    ensures Rescale(x, lo, hi) == 0.0 <==> x == lo && lo != hi
  {
    if hi != lo {
      var q := (x - lo) / (hi - lo);
      assert q * (hi - lo) == x - lo;
      if x == hi {
        EqualTimes(q, 1.0, hi - lo);
      }
      if x == lo {
        EqualTimes(q, 0.0, hi - lo);
      }
    }
  }

  lemma RescaleFlipped(x: real, lo: real, hi: real, y: real, lo': real, hi': real)
    requires lo <= hi && y == -x && lo' == -hi && hi' == -lo
    ensures lo == hi ==> Rescale(y, lo', hi') == Rescale(x, lo, hi) == 100.0
    ensures lo != hi ==> Rescale(y, lo', hi') == 100.0 - Rescale(x, lo, hi)
  {
    if lo < hi {
      var d := hi - lo;
      var a, b := (x - lo) / d, (y - lo') / d;
      assert a * d == x - lo && b * d == hi - x;
      DistributeSum(a, b, d);
      EqualTimes(a + b, 1.0, d);
    }
  }

  lemma PriorityMonotone(s: seq<real>, i: nat, j: nat)
    requires i < |s| && j < |s| && s[i] <= s[j]
    ensures 0.0 <= Priorities(s)[i] <= Priorities(s)[j] <= 100.0
  {
    RescaleMonotone(s[i], s[j], MinOf(s), MaxOf(s));
  }

  /** The best alternative is at 100; the worst at 0 unless all tie. */
  lemma PriorityEnds(s: seq<real>, k: nat)
    requires k < |s|
    ensures Priorities(s)[k] == 100.0 <==> s[k] == MaxOf(s)
    ensures Priorities(s)[k] == 0.0 <==> s[k] == MinOf(s) && MinOf(s) != MaxOf(s)
  {
    RescaleEnds(s[k], MinOf(s), MaxOf(s));
  }

  /** An alternative at least as good on every criterion never scores lower, and never gets a lower priority. */
  lemma Dominance(pr: Problem, r: nat, s: nat)
    requires pr.Valid() && r < |pr.matrix| && s < |pr.matrix| && Dominates(pr, r, s) && Nonnegative(pr.weights)
    ensures pr.Score(r) >= pr.Score(s)
    ensures Priorities(pr.Scores())[r] >= Priorities(pr.Scores())[s]
  {
    var w := Normalized(pr.weights);
    NormalizedWeights(pr.weights);
    forall k | 0 <= k < |w|
      ensures pr.Nets()[k][r] >= pr.Nets()[k][s]
    {
      NetMonotone(pr, k, r, s);
    }
    WeighMonotone(pr.Nets(), w, r, s, |w|);
    PriorityMonotone(pr.Scores(), s, r);
  }

  /** A product under a name of its own. */
  function Times(x: real, y: real): real {
    x * y
  }

  lemma RescaleTimes(x: real, lo: real, hi: real)
    requires lo < hi
    ensures Times(Rescale(x, lo, hi), hi - lo) == 100.0 * (x - lo)
  {
    var q, d := (x - lo) / (hi - lo), hi - lo;
    assert q * d == x - lo;
    assert (q * 100.0) * d == 100.0 * (q * d);
  }

  lemma DirectedDifference(x: real, y: real, d: real)
    ensures x * d - y * d == (x - y) * d
  {
  }

  lemma TimesMinus(a: real, b: real, w: real)
    ensures Times(a - b, w) == Times(a, w) - Times(b, w)
  {
  }

  lemma TimesPlus(a: real, b: real, w: real)
    ensures Times(a + b, w) == Times(a, w) + Times(b, w)
  {
  }

  lemma TimesScaled(x: real, s: real, y: real, q: real)
    ensures Times(Times(x, y), Times(s, q)) == Times(Times(x, s), Times(y, q))
  {
    assert (x * y) * (s * q) == (x * s) * (y * q);
  }

  lemma TimesPositive(x: real, w: real)
    requires x > 0.0 && w > 0.0
    ensures Times(x, w) > 0.0
  {
  }

  lemma TimesStrict(x: real, y: real, w: real)
    requires x < y && w > 0.0
    ensures Times(x, w) < Times(y, w)
  {
    TimesMinus(y, x, w);
    TimesPositive(y - x, w);
  }

  lemma TimesMonotone(x: real, y: real, w: real)
    requires x <= y && w >= 0.0
    ensures Times(x, w) <= Times(y, w)
  {
    ProductMonotone(x, y, w);
  }

  /**
   * A priority is to 100 as its score's distance from the worst is to the range of all
   * scores; so differences of priorities are proportional to differences of scores.
   */
  lemma PriorityTimes(s: seq<real>, i: nat, lo: real, hi: real)
    requires i < |s| && lo == MinOf(s) && hi == MaxOf(s) && lo != hi
    ensures Times(Priorities(s)[i], hi - lo) == 100.0 * (s[i] - lo)
  {
    RescaleTimes(s[i], lo, hi);
  }

  /******* Pair by pair *******/

  /** What preference row `r` earns over the first `n` rows on criterion `m`, from the raw matrix. */
  function Earned(pr: Problem, m: nat, r: nat, n: nat): real
    requires pr.Valid() && m < |pr.weights| && r < |pr.matrix| && n <= |pr.matrix|
  {
    if n == 0 then 0.0
    else
      Earned(pr, m, r, n - 1)
      + Prefer(pr.preferences[m], Times(pr.matrix[r][m] - pr.matrix[n - 1][m], pr.directions[m]))
  }

  /** And what the first `n` rows earn over row `r`. */
  function Ceded(pr: Problem, m: nat, r: nat, n: nat): real
    requires pr.Valid() && m < |pr.weights| && r < |pr.matrix| && n <= |pr.matrix|
  {
    if n == 0 then 0.0
    else
      Ceded(pr, m, r, n - 1)
      + Prefer(pr.preferences[m], Times(pr.matrix[n - 1][m] - pr.matrix[r][m], pr.directions[m]))
  }

  /** The preferences of some differences, summed over the first `n`. */
  function PreferAll(f: Preference, differences: seq<real>, n: nat): real
    requires n <= |differences|
  {
    if n == 0 then 0.0 else PreferAll(f, differences, n - 1) + Prefer(f, differences[n - 1])
  }

  lemma {:induction false} FlowsOfDifferences(f: Preference, c: seq<real>, x: real, ahead: seq<real>, behind: seq<real>,
                                              n: nat)
    requires n <= |c| == |ahead| == |behind|
    requires forall i :: 0 <= i < |c| ==> ahead[i] == x - c[i] && behind[i] == c[i] - x
    ensures Gain(f, c[..n], x) == PreferAll(f, ahead, n) && Loss(f, c[..n], x) == PreferAll(f, behind, n)
  {
    if n > 0 {
      FlowsOfDifferences(f, c, x, ahead, behind, n - 1);
      assert c[..n][..n - 1] == c[..n - 1] && c[..n][n - 1] == c[n - 1];
    }
  }

  lemma {:induction false} PairsOfDifferences(pr: Problem, m: nat, r: nat, ahead: seq<real>, behind: seq<real>, n: nat)
    requires pr.Valid() && m < |pr.weights| && r < |pr.matrix| && n <= |pr.matrix| == |ahead| == |behind|
    requires forall i :: 0 <= i < |pr.matrix| ==>
               && ahead[i] == Times(pr.matrix[r][m] - pr.matrix[i][m], pr.directions[m])
               && behind[i] == Times(pr.matrix[i][m] - pr.matrix[r][m], pr.directions[m])
    ensures Earned(pr, m, r, n) == PreferAll(pr.preferences[m], ahead, n)
    ensures Ceded(pr, m, r, n) == PreferAll(pr.preferences[m], behind, n)
  {
    if n > 0 {
      PairsOfDifferences(pr, m, r, ahead, behind, n - 1);
    }
  }

  lemma ColumnDifference(pr: Problem, m: nat, r: nat, i: nat)
    requires pr.Valid() && m < |pr.weights| && r < |pr.matrix| && i < |pr.matrix|
    ensures pr.Column(m)[r] - pr.Column(m)[i] == Times(pr.matrix[r][m] - pr.matrix[i][m], pr.directions[m])
  {
    DirectedDifference(pr.matrix[r][m], pr.matrix[i][m], pr.directions[m]);
  }

  lemma FlowsPairByPair(pr: Problem, m: nat, r: nat)
    requires pr.Valid() && m < |pr.weights| && r < |pr.matrix|
    ensures Gain(pr.preferences[m], pr.Column(m), pr.Column(m)[r]) == Earned(pr, m, r, |pr.matrix|)
    ensures Loss(pr.preferences[m], pr.Column(m), pr.Column(m)[r]) == Ceded(pr, m, r, |pr.matrix|)
  {
    var c, n := pr.Column(m), |pr.matrix|;
    var ahead := seq(n, i requires 0 <= i < n => c[r] - c[i]);
    var behind := seq(n, i requires 0 <= i < n => c[i] - c[r]);
    assert c[..n] == c;
    FlowsOfDifferences(pr.preferences[m], c, c[r], ahead, behind, n);
    forall i | 0 <= i < n
      ensures ahead[i] == Times(pr.matrix[r][m] - pr.matrix[i][m], pr.directions[m])
      ensures behind[i] == Times(pr.matrix[i][m] - pr.matrix[r][m], pr.directions[m])
    {
      ColumnDifference(pr, m, r, i);
      ColumnDifference(pr, m, i, r);
    }
    PairsOfDifferences(pr, m, r, ahead, behind, n);
  }

  lemma QuotientTimes(x: real, d: real)
    requires d > 0.0
    ensures Times(x / d, d) == x
  {
  }

  /** The flows of a criterion, from the raw matrix: sums over all pairs with row `r`, over N - 1. */
  lemma FlowsAre(pr: Problem, m: nat, r: nat)
    requires pr.Valid() && m < |pr.weights| && r < |pr.matrix|
    ensures Times(pr.Plus(m, r), (|pr.matrix| - 1) as real) == Earned(pr, m, r, |pr.matrix|)
    ensures Times(pr.Minus(m, r), (|pr.matrix| - 1) as real) == Ceded(pr, m, r, |pr.matrix|)
  {
    FlowsPairByPair(pr, m, r);
    QuotientTimes(Earned(pr, m, r, |pr.matrix|), (|pr.matrix| - 1) as real);
    QuotientTimes(Ceded(pr, m, r, |pr.matrix|), (|pr.matrix| - 1) as real);
  }

  /** What row `r` earns and cedes over the first `m` criteria, each times its weight. */
  function Standing(pr: Problem, r: nat, m: nat): real
    requires pr.Valid() && r < |pr.matrix| && m <= |pr.weights|
  {
    if m == 0 then 0.0
    else
      Standing(pr, r, m - 1)
      + Times(Earned(pr, m - 1, r, |pr.matrix|) - Ceded(pr, m - 1, r, |pr.matrix|), pr.weights[m - 1])
  }

  lemma NetTimes(pr: Problem, m: nat, r: nat)
    requires pr.Valid() && m < |pr.weights| && r < |pr.matrix|
    ensures Times(pr.Nets()[m][r], (|pr.matrix| - 1) as real)
         == Earned(pr, m, r, |pr.matrix|) - Ceded(pr, m, r, |pr.matrix|)
  {
    FlowsAre(pr, m, r);
    TimesMinus(pr.Plus(m, r), pr.Minus(m, r), (|pr.matrix| - 1) as real);
  }

  function Dot(a: seq<real>, b: seq<real>, m: nat): real
    requires m <= |a| && m <= |b|
  {
    if m == 0 then 0.0 else Dot(a, b, m - 1) + Times(a[m - 1], b[m - 1])
  }

  /** Both factors scaled term by term. */
  lemma {:induction false} DotScaled(a: seq<real>, b: seq<real>, u: seq<real>, v: seq<real>, s: real, q: real, m: nat)
    requires m <= |a| == |b| == |u| == |v|
    requires forall k :: 0 <= k < |a| ==> Times(a[k], s) == u[k] && Times(b[k], q) == v[k]
    ensures Times(Dot(a, b, m), Times(s, q)) == Dot(u, v, m)
  {
    if m == 0 {
      assert Times(0.0, Times(s, q)) == 0.0;
    } else {
      DotScaled(a, b, u, v, s, q, m - 1);
      TimesScaled(a[m - 1], s, b[m - 1], q);
      TimesPlus(Dot(a, b, m - 1), Times(a[m - 1], b[m - 1]), Times(s, q));
    }
  }

  lemma WeighStep(nets: seq<seq<real>>, w: seq<real>, r: nat, m: nat)
    requires 0 < m <= |w| == |nets| && forall k :: 0 <= k < |nets| ==> r < |nets[k]|
    ensures Weigh(nets, w, r, m) == Weigh(nets, w, r, m - 1) + Times(nets[m - 1][r], w[m - 1])
  {
  }

  lemma {:induction false} WeighIsDot(nets: seq<seq<real>>, w: seq<real>, r: nat, own: seq<real>, m: nat)
    requires m <= |w| == |nets| == |own| && forall k :: 0 <= k < |nets| ==> r < |nets[k]| && own[k] == nets[k][r]
    ensures Weigh(nets, w, r, m) == Dot(own, w, m)
  {
    if m > 0 {
      WeighIsDot(nets, w, r, own, m - 1);
      WeighStep(nets, w, r, m);
    }
  }

  lemma {:induction false} StandingIsDot(pr: Problem, r: nat, flows: seq<real>, m: nat)
    requires pr.Valid() && r < |pr.matrix| && m <= |pr.weights| == |flows|
    requires forall k :: 0 <= k < |flows| ==> flows[k] == Earned(pr, k, r, |pr.matrix|) - Ceded(pr, k, r, |pr.matrix|)
    ensures Standing(pr, r, m) == Dot(flows, pr.weights, m)
  {
    if m > 0 {
      StandingIsDot(pr, r, flows, m - 1);
    }
  }

  lemma WeighedStanding(pr: Problem, r: nat)
    requires pr.Valid() && r < |pr.matrix| && Total(pr.weights) > 0.0
    ensures Times(pr.Score(r), Times((|pr.matrix| - 1) as real, Total(pr.weights))) == Standing(pr, r, |pr.weights|)
  {
    var n, d, total := |pr.weights|, (|pr.matrix| - 1) as real, Total(pr.weights);
    var own := seq(n, k requires 0 <= k < n => pr.Nets()[k][r]);
    var flows := seq(n, k requires 0 <= k < n => Earned(pr, k, r, |pr.matrix|) - Ceded(pr, k, r, |pr.matrix|));
    var w := Normalized(pr.weights);
    forall k | 0 <= k < n
      ensures Times(own[k], d) == flows[k] && Times(w[k], total) == pr.weights[k]
    {
      NetTimes(pr, k, r);
      QuotientTimes(pr.weights[k], total);
    }
    DotScaled(own, w, flows, pr.weights, d, total, n);
    WeighIsDot(pr.Nets(), w, r, own, n);
    StandingIsDot(pr, r, flows, n);
  }

  lemma {:induction false} NothingWeighs(nets: seq<seq<real>>, w: seq<real>, r: nat, m: nat)
    requires m <= |w| == |nets| && forall k :: 0 <= k < |nets| ==> r < |nets[k]|
    requires forall k :: 0 <= k < |w| ==> w[k] == 0.0
    ensures Weigh(nets, w, r, m) == 0.0
  {
    if m > 0 {
      NothingWeighs(nets, w, r, m - 1);
    }
  }

  /**
   * The score from the raw matrix: all pairs with row `r` on all criteria, weighted,
   * over N - 1 and the sum of the weights; zero where no criterion has any weight.
   */
  lemma ScoreIs(pr: Problem, r: nat)
    requires pr.Valid() && r < |pr.matrix| && Nonnegative(pr.weights)
    ensures Total(pr.weights) > 0.0 ==>
              Times(pr.Scores()[r], Times((|pr.matrix| - 1) as real, Total(pr.weights)))
              == Standing(pr, r, |pr.weights|)
    ensures (forall k :: 0 <= k < |pr.weights| ==> pr.weights[k] == 0.0) ==> pr.Scores()[r] == 0.0
  {
    if Total(pr.weights) > 0.0 {
      WeighedStanding(pr, r);
    }
    if forall k :: 0 <= k < |pr.weights| ==> pr.weights[k] == 0.0 {
      TotalZero(pr.weights);
      NothingWeighs(pr.Nets(), pr.weights, r, |pr.weights|);
    }
  }

  /** On the raw matrix, row `r` is at least as good as row `s` on every criterion. */
  ghost predicate AtLeastAsGood(pr: Problem, r: nat, s: nat)
    requires pr.Valid() && r < |pr.matrix| && s < |pr.matrix|
  {
    forall m :: 0 <= m < |pr.weights| ==>
      && (pr.directions[m] > 0.0 ==> pr.matrix[r][m] >= pr.matrix[s][m])
      && (pr.directions[m] < 0.0 ==> pr.matrix[r][m] <= pr.matrix[s][m])
  }

  lemma DirectedOrder(x: real, y: real, d: real)
    requires (d > 0.0 ==> x >= y) && (d < 0.0 ==> x <= y)
    ensures x * d >= y * d
    ensures d != 0.0 && x != y ==> x * d > y * d
  {
    DirectedDifference(x, y, d);
    if d > 0.0 && x > y {
      ProductPositive(x - y, d);
    } else if d < 0.0 && x < y {
      ProductPositive(y - x, -d);
      assert (x - y) * d == (y - x) * -d;
    }
  }

  /** The better of two alternatives never scores lower, and never gets a lower priority. */
  lemma BetterNeverScoresLower(pr: Problem, r: nat, s: nat)
    requires pr.Valid() && r < |pr.matrix| && s < |pr.matrix| && Nonnegative(pr.weights) && AtLeastAsGood(pr, r, s)
    ensures pr.Scores()[r] >= pr.Scores()[s]
    ensures Priorities(pr.Scores())[r] >= Priorities(pr.Scores())[s]
  {
    forall m | 0 <= m < |pr.weights|
      ensures pr.Column(m)[r] >= pr.Column(m)[s]
    {
      DirectedOrder(pr.matrix[r][m], pr.matrix[s][m], pr.directions[m]);
    }
    Dominance(pr, r, s);
  }

  lemma {:induction false} UsualGainsMore(f: Preference, a: seq<real>, x: real, y: real)
    requires f.shape.Usual? && x > y && y in a
    ensures Gain(f, a, x) >= Gain(f, a, y) + 1.0
    decreases |a|
  {
    var n := |a| - 1;
    if a[n] == y {
      FlowMonotone(f, a[..n], y, x);
    } else {
      assert y in a[..n] by {
        var i :| 0 <= i < |a| && a[i] == y;
        assert a[..n][i] == y;
      }
      UsualGainsMore(f, a[..n], x, y);
    }
  }

  lemma RatioStrict(a: real, b: real, d: real)
    requires a < b && d > 0.0
    ensures a / d < b / d
  {
    var p, q := a / d, b / d;
    RatioMonotone(a, b, d);
    assert p * d == a && q * d == b;
  }

  lemma UsualNetStrict(pr: Problem, m: nat, r: nat, s: nat)
    requires pr.Valid() && m < |pr.weights| && r < |pr.matrix| && s < |pr.matrix|
    requires pr.preferences[m].shape.Usual? && pr.Column(m)[r] > pr.Column(m)[s]
    ensures pr.Net(m, r) > pr.Net(m, s)
  {
    var c, f, d := pr.Column(m), pr.preferences[m], (|pr.matrix| - 1) as real;
    UsualGainsMore(f, c, c[r], c[s]);
    FlowMonotone(f, c, c[s], c[r]);
    RatioStrict(Gain(f, c, c[s]), Gain(f, c, c[r]), d);
    RatioMonotone(Loss(f, c, c[r]), Loss(f, c, c[s]), d);
  }

  lemma {:induction false} WeighStrict(nets: seq<seq<real>>, w: seq<real>, r: nat, s: nat, k: nat, m: nat)
    requires k < m <= |w| == |nets| && Nonnegative(w) && w[k] > 0.0
    requires forall i :: 0 <= i < |nets| ==> r < |nets[i]| && s < |nets[i]| && nets[i][r] >= nets[i][s]
    requires nets[k][r] > nets[k][s]
    ensures Weigh(nets, w, r, m) > Weigh(nets, w, s, m)
  {
    WeighStep(nets, w, r, m);
    WeighStep(nets, w, s, m);
    TimesMonotone(nets[m - 1][s], nets[m - 1][r], w[m - 1]);
    if k == m - 1 {
      TimesStrict(nets[m - 1][s], nets[m - 1][r], w[m - 1]);
      WeighMonotone(nets, w, r, s, m - 1);
    } else {
      WeighStrict(nets, w, r, s, k, m - 1);
    }
  }

  lemma PositiveNormalized(w: seq<real>, k: nat)
    requires Nonnegative(w) && k < |w| && w[k] > 0.0
    ensures Normalized(w)[k] > 0.0
  {
    TotalNonnegative(w);
    RatioStrict(0.0, w[k], Total(w));
  }

  lemma BetterNets(pr: Problem, r: nat, s: nat, m: nat)
    requires pr.Valid() && r < |pr.matrix| && s < |pr.matrix| && AtLeastAsGood(pr, r, s) && m < |pr.weights|
    ensures pr.Net(m, r) >= pr.Net(m, s)
    ensures pr.preferences[m].shape.Usual? && pr.directions[m] != 0.0 && pr.matrix[r][m] != pr.matrix[s][m] ==>
              pr.Net(m, r) > pr.Net(m, s)
  {
    DirectedOrder(pr.matrix[r][m], pr.matrix[s][m], pr.directions[m]);
    NetMonotone(pr, m, r, s);
    if pr.preferences[m].shape.Usual? && pr.directions[m] != 0.0 && pr.matrix[r][m] != pr.matrix[s][m] {
      UsualNetStrict(pr, m, r, s);
    }
  }

  /** With the usual preference, one that is strictly better on a criterion of some weight scores higher. */
  lemma BetterScoresHigher(pr: Problem, r: nat, s: nat, k: nat)
    requires pr.Valid() && r < |pr.matrix| && s < |pr.matrix| && Nonnegative(pr.weights) && AtLeastAsGood(pr, r, s)
    requires k < |pr.weights| && pr.weights[k] > 0.0 && pr.directions[k] != 0.0 && pr.matrix[r][k] != pr.matrix[s][k]
    requires pr.preferences[k].shape.Usual?
    ensures pr.Scores()[r] > pr.Scores()[s]
  {
    var nets, w := pr.Nets(), Normalized(pr.weights);
    NormalizedWeights(pr.weights);
    PositiveNormalized(pr.weights, k);
    forall m | 0 <= m < |w|
      ensures nets[m][r] >= nets[m][s]
    {
      BetterNets(pr, r, s, m);
    }
    BetterNets(pr, r, s, k);
    WeighStrict(nets, w, r, s, k, |w|);
  }

  /******* Symmetries *******/

  ghost predicate SameOrder(a: seq<real>, b: seq<real>) {
    |a| == |b| && forall i, j :: 0 <= i < |a| && 0 <= j < |a| ==> (a[i] > a[j] <==> b[i] > b[j])
  }

  lemma {:induction false} UsualSeesOrder(f: Preference, a: seq<real>, b: seq<real>, i: nat, n: nat)
    requires f.shape.Usual? && SameOrder(a, b) && i < |a| && n <= |a|
    ensures Gain(f, a[..n], a[i]) == Gain(f, b[..n], b[i])
    ensures Loss(f, a[..n], a[i]) == Loss(f, b[..n], b[i])
  {
    if n > 0 {
      assert a[..n][..n - 1] == a[..n - 1] && b[..n][..n - 1] == b[..n - 1];
      UsualSeesOrder(f, a, b, i, n - 1);
      assert a[i] > a[n - 1] <==> b[i] > b[n - 1];
      assert a[n - 1] > a[i] <==> b[n - 1] > b[i];
    }
  }

  /** The application always asks for `usual`. */
  ghost predicate AllUsual(pr: Problem) {
    forall m :: 0 <= m < |pr.preferences| ==> pr.preferences[m].shape.Usual?
  }

  lemma RescaledNet(pr: Problem, pr': Problem, m: nat, r: nat)
    requires pr.Valid() && pr'.Valid() && AllUsual(pr) && pr'.preferences == pr.preferences
    requires |pr.matrix| == |pr'.matrix| && r < |pr.matrix| && m < |pr.weights| == |pr'.weights|
    requires SameOrder(pr.Column(m), pr'.Column(m))
    ensures pr.Net(m, r) == pr'.Net(m, r)
  {
    var a, b := pr.Column(m), pr'.Column(m);
    UsualSeesOrder(pr.preferences[m], a, b, r, |a|);
    assert a[..|a|] == a && b[..|b|] == b;
  }

  /** Any rescaling of the criteria that keeps the order of the alternatives keeps every score. */
  lemma RescalingKeepsScores(pr: Problem, pr': Problem)
    requires pr.Valid() && pr'.Valid() && AllUsual(pr) && pr'.preferences == pr.preferences
    requires |pr.matrix| == |pr'.matrix| && pr'.weights == pr.weights
    requires forall k :: 0 <= k < |pr.weights| ==> SameOrder(pr.Column(k), pr'.Column(k))
    ensures pr'.Scores() == pr.Scores()
  {
    forall k, r | 0 <= k < |pr.weights| && 0 <= r < |pr.matrix|
      ensures pr.Net(k, r) == pr'.Net(k, r)
    {
      RescaledNet(pr, pr', k, r);
    }
    assert forall k :: 0 <= k < |pr.weights| ==> pr'.Nets()[k] == pr.Nets()[k];
    assert pr'.Nets() == pr.Nets();
  }

  ghost predicate StrictlyIncreasing(h: real -> real) {
    forall x, y :: x < y ==> h(x) < h(y)
  }

  /** The same problem with each raw criterion sent through a map of its own. */
  function Rescaled(pr: Problem, hs: seq<real -> real>): (pr': Problem)
    requires pr.Valid() && |hs| == |pr.weights|
    ensures pr'.Valid() && |pr'.matrix| == |pr.matrix|
  {
    pr.(matrix := seq(|pr.matrix|, r requires 0 <= r < |pr.matrix| =>
          seq(|hs|, k requires 0 <= k < |hs| => hs[k](pr.matrix[r][k]))))
  }

  lemma ScaledOrder(x: real, y: real, d: real)
    ensures d > 0.0 ==> (x * d > y * d <==> x > y)
    ensures d < 0.0 ==> (x * d > y * d <==> x < y)
    ensures d == 0.0 ==> x * d == y * d == 0.0
  {
    assert (x - y) * d == x * d - y * d;
    if d > 0.0 && x > y {
      assert (x - y) * d > 0.0;
    } else if d > 0.0 && x < y {
      assert (y - x) * d > 0.0;
      assert (y - x) * d == y * d - x * d;
    } else if d < 0.0 && x > y {
      assert (x - y) * (-d) > 0.0;
      assert (x - y) * (-d) == y * d - x * d;
    } else if d < 0.0 && x < y {
      assert (y - x) * (-d) > 0.0;
      assert (y - x) * (-d) == x * d - y * d;
    }
  }

  /** Of two alternatives the directed column prefers the larger value, or the smaller for a negative direction. */
  lemma ColumnOrder(pr: Problem, k: nat, i: nat, j: nat)
    requires pr.Valid() && k < |pr.weights| && i < |pr.matrix| && j < |pr.matrix|
    ensures pr.Column(k)[i] > pr.Column(k)[j] <==>
            || (pr.directions[k] > 0.0 && pr.matrix[i][k] > pr.matrix[j][k])
            || (pr.directions[k] < 0.0 && pr.matrix[i][k] < pr.matrix[j][k])
  {
    ScaledOrder(pr.matrix[i][k], pr.matrix[j][k], pr.directions[k]);
  }

  /** An increasing map of a raw criterion keeps the order of its directed column, whatever the direction. */
  lemma IncreasingKeepsOrder(pr: Problem, hs: seq<real -> real>, k: nat)
    requires pr.Valid() && |hs| == |pr.weights| && k < |hs| && StrictlyIncreasing(hs[k])
    ensures SameOrder(pr.Column(k), Rescaled(pr, hs).Column(k))
  {
    var h := hs[k];
    forall i, j | 0 <= i < |pr.matrix| && 0 <= j < |pr.matrix|
      ensures pr.Column(k)[i] > pr.Column(k)[j] <==> Rescaled(pr, hs).Column(k)[i] > Rescaled(pr, hs).Column(k)[j]
    {
      var x, y := pr.matrix[i][k], pr.matrix[j][k];
      ColumnOrder(pr, k, i, j);
      ColumnOrder(Rescaled(pr, hs), k, i, j);
      assert (x < y ==> h(x) < h(y)) && (y < x ==> h(y) < h(x));
    }
  }

  /** Strictly increasing rescalings of the raw criteria keep every score, hence every priority. */
  lemma IncreasingKeepsScores(pr: Problem, hs: seq<real -> real>)
    requires pr.Valid() && AllUsual(pr) && |hs| == |pr.weights|
    requires forall k :: 0 <= k < |hs| ==> StrictlyIncreasing(hs[k])
    ensures Rescaled(pr, hs).Scores() == pr.Scores()
  {
    forall k | 0 <= k < |pr.weights|
      ensures SameOrder(pr.Column(k), Rescaled(pr, hs).Column(k))
    {
      IncreasingKeepsOrder(pr, hs, k);
    }
    RescalingKeepsScores(pr, Rescaled(pr, hs));
  }

  lemma CancelFactor(a: real, b: real, c: real)
    requires b > 0.0 && c > 0.0
    ensures b * c > 0.0 && (a * c) / (b * c) == a / b
  {
    ProductPositive(b, c);
    var x := a / b;
    assert x * b == a;
    assert a * c == x * (b * c);
  }

  lemma CancelScaled(a: real, b: real, c: real, num: real, den: real)
    requires b > 0.0 && c > 0.0 && num == a * c && den == b * c && den != 0.0
    ensures num / den == a / b
  {
    CancelFactor(a, b, c);
  }

  lemma NormalizedScaled(w: seq<real>, v: seq<real>, c: real)
    requires Nonnegative(w) && c > 0.0 && |v| == |w| && forall k :: 0 <= k < |w| ==> v[k] == w[k] * c
    ensures Normalized(v) == Normalized(w)
  {
    TotalNonnegative(w);
    ScaledTotal(w, v, c);
    if Total(w) > 0.0 {
      ProductPositive(Total(w), c);
      forall k | 0 <= k < |w|
        ensures Normalized(v)[k] == Normalized(w)[k]
      {
        CancelScaled(w[k], Total(w), c, v[k], Total(v));
      }
    } else {
      forall k | 0 <= k < |w|
        ensures v[k] == w[k]
      {
        assert w[k] == 0.0;
      }
    }
  }

  /** Multiplying all weights by one positive number keeps every score. */
  lemma WeightScaleKeepsScores(pr: Problem, v: seq<real>, c: real)
    requires pr.Valid() && Nonnegative(pr.weights) && c > 0.0
    requires |v| == |pr.weights| && forall k :: 0 <= k < |v| ==> v[k] == pr.weights[k] * c
    ensures pr.(weights := v).Valid() && pr.(weights := v).Scores() == pr.Scores()
  {
    var pr' := pr.(weights := v);
    NormalizedScaled(pr.weights, v, c);
    forall k | 0 <= k < |v|
      ensures pr'.Nets()[k] == pr.Nets()[k]
    {
      assert pr'.Column(k) == pr.Column(k);
    }
    assert pr'.Nets() == pr.Nets();
  }

  ghost function Flipped(pr: Problem): (flipped: Problem)
    requires pr.Valid()
    ensures flipped.Valid()
  {
    pr.(directions := seq(|pr.directions|, k requires 0 <= k < |pr.directions| => -pr.directions[k]))
  }

  lemma {:induction false} NegatedFlows(f: Preference, a: seq<real>, b: seq<real>, x: real)
    requires |a| == |b| && forall k :: 0 <= k < |a| ==> b[k] == -a[k]
    ensures Gain(f, b, -x) == Loss(f, a, x) && Loss(f, b, -x) == Gain(f, a, x)
    decreases |a|
  {
    if a != [] {
      NegatedFlows(f, a[..|a| - 1], b[..|b| - 1], x);
    }
  }

  lemma NegateFactor(x: real, d: real)
    ensures x * -d == -(x * d) && -x * d == -(x * d)
  {
  }

  lemma FlippedNet(pr: Problem, m: nat, r: nat)
    requires pr.Valid() && m < |pr.weights| && r < |pr.matrix|
    ensures Flipped(pr).Net(m, r) == -pr.Net(m, r)
  {
    var a, b := pr.Column(m), Flipped(pr).Column(m);
    forall k | 0 <= k < |a|
      ensures b[k] == -a[k]
    {
      NegateFactor(pr.matrix[k][m], pr.directions[m]);
    }
    NegatedFlows(pr.preferences[m], a, b, a[r]);
  }

  lemma {:induction false} WeighNegated(nets: seq<seq<real>>, nets': seq<seq<real>>, w: seq<real>, r: nat, m: nat)
    requires m <= |w| == |nets| == |nets'|
    requires forall k :: 0 <= k < |nets| ==> r < |nets[k]| && r < |nets'[k]| && nets'[k][r] == -nets[k][r]
    ensures Weigh(nets', w, r, m) == -Weigh(nets, w, r, m)
  {
    if m > 0 {
      WeighNegated(nets, nets', w, r, m - 1);
      NegateFactor(nets[m - 1][r], w[m - 1]);
    }
  }

  lemma FlippedScore(pr: Problem, r: nat)
    requires pr.Valid() && r < |pr.matrix|
    ensures Flipped(pr).Score(r) == -pr.Score(r)
  {
    var nets, nets' := pr.Nets(), Flipped(pr).Nets();
    forall k | 0 <= k < |nets|
      ensures nets'[k][r] == -nets[k][r]
    {
      FlippedNet(pr, k, r);
    }
    WeighNegated(nets, nets', Normalized(pr.weights), r, |pr.weights|);
  }

  lemma NegatedPriority(s: seq<real>, t: seq<real>, r: nat)
    requires r < |s| == |t| && t[r] == -s[r]
    requires MinOf(t) == -MaxOf(s) && MaxOf(t) == -MinOf(s)
    ensures MinOf(s) == MaxOf(s) ==> Priorities(t)[r] == Priorities(s)[r] == 100.0
    ensures MinOf(s) != MaxOf(s) ==> Priorities(t)[r] == 100.0 - Priorities(s)[r]
  {
    RescaleFlipped(s[r], MinOf(s), MaxOf(s), t[r], MinOf(t), MaxOf(t));
  }

  lemma NegatedEnds(s: seq<real>, t: seq<real>)
    requires |s| == |t| && s != [] && forall k :: 0 <= k < |s| ==> t[k] == -s[k]
    ensures MinOf(t) == -MaxOf(s) && MaxOf(t) == -MinOf(s)
  {
    var i :| 0 <= i < |s| && s[i] == MaxOf(s);
    var j :| 0 <= j < |s| && s[j] == MinOf(s);
    var k :| 0 <= k < |t| && t[k] == MinOf(t);
    var l :| 0 <= l < |t| && t[l] == MaxOf(t);
    assert t[i] == -s[i] && t[j] == -s[j] && t[k] == -s[k] && t[l] == -s[l];
  }

  /** Reversing every direction turns the priorities upside down, unless all alternatives tie at 100. */
  lemma FlipReversesPriorities(pr: Problem, r: nat)
    requires pr.Valid() && r < |pr.matrix|
    ensures MinOf(pr.Scores()) == MaxOf(pr.Scores()) ==>
              Priorities(Flipped(pr).Scores())[r] == Priorities(pr.Scores())[r] == 100.0
    ensures MinOf(pr.Scores()) != MaxOf(pr.Scores()) ==>
              Priorities(Flipped(pr).Scores())[r] == 100.0 - Priorities(pr.Scores())[r]
  {
    forall k | 0 <= k < |pr.matrix|
      ensures Flipped(pr).Scores()[k] == -pr.Scores()[k]
    {
      FlippedScore(pr, k);
    }
    NegatedEnds(pr.Scores(), Flipped(pr).Scores());
    NegatedPriority(pr.Scores(), Flipped(pr).Scores(), r);
  }
}
