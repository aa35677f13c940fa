/**
 * One load under a sequence of source controls: `shares[i]` is the share of the load
 * that pass `i` leaves over (one minus its percent reduction), or nothing when the
 * group has no control at that pass.  Pass `i` starts from what the pass it looks up,
 * `parents[i]`, left over; where that pass has no row for the group, it starts from
 * the original load again.
 */
module Reductions {
  import opened Options

  ghost predicate Proper(shares: seq<Option<real>>) {
    forall i :: 0 <= i < |shares| && shares[i].Some? ==> 0.0 <= shares[i].value <= 1.0
  }

  function Leftover(load: real, share: real): real {
    load * share
  }

  /** Every pass but the first looks up an earlier one. */
  predicate Earlier(shares: seq<Option<real>>, parents: seq<nat>) {
    |parents| == |shares| && forall i :: 0 < i < |parents| ==> parents[i] < i
  }

  /** `value_remaining_prev` of pass `i`. */
  function Before(v: real, shares: seq<Option<real>>, parents: seq<nat>, i: nat): real
    requires Earlier(shares, parents) && i < |shares|
    decreases i, 1
  {
    if i > 0 && shares[parents[i]].Some? then Remaining(v, shares, parents, parents[i]) else v
  }

  /** `value_remaining` of pass `i`. */
  function Remaining(v: real, shares: seq<Option<real>>, parents: seq<nat>, i: nat): real
    requires Earlier(shares, parents) && i < |shares| && shares[i].Some?
    decreases i, 2
  {
    Leftover(Before(v, shares, parents, i), shares[i].value)
  }

  /** The sum of `load_reduced` over the first `n` passes. */
  function Taken(v: real, shares: seq<Option<real>>, parents: seq<nat>, n: nat): real
    requires Earlier(shares, parents) && n <= |shares|
  {
    if n == 0 then 0.0
    else
      Taken(v, shares, parents, n - 1)
      + (if shares[n - 1].Some? then Before(v, shares, parents, n - 1) - Remaining(v, shares, parents, n - 1) else 0.0)
  }

  /** What is left of the load when all controls of the first `n` passes act on it one after another. */
  function Kept(v: real, shares: seq<Option<real>>, n: nat): real
    requires n <= |shares|
  {
    if n == 0 then v
    else if shares[n - 1].Some? then Leftover(Kept(v, shares, n - 1), shares[n - 1].value)
    else Kept(v, shares, n - 1)
  }

  /******* Which passes a pass builds on *******/

  predicate Cuts(share: Option<real>) {
    share.Some? && share.value < 1.0
  }

  /** Pass `i` starts from a load that pass `j` has reduced. */
  predicate BuildsOn(shares: seq<Option<real>>, parents: seq<nat>, i: nat, j: nat)
    requires Earlier(shares, parents) && i < |shares|
    decreases i
  {
    i > 0 && shares[parents[i]].Some? && (j == parents[i] || BuildsOn(shares, parents, parents[i], j))
  }

  /** Pass `i` starts from nothing: a pass it builds on left nothing over. */
  predicate Exhausted(shares: seq<Option<real>>, parents: seq<nat>, i: nat)
    requires Earlier(shares, parents) && i < |shares|
    decreases i
  {
    && i > 0 && shares[parents[i]].Some?
    && (shares[parents[i]].value == 0.0 || Exhausted(shares, parents, parents[i]))
  }

  /** Pass `i` takes something off a load from which an earlier cut is missing. */
  ghost predicate Overlooks(shares: seq<Option<real>>, parents: seq<nat>, i: nat)
    requires Earlier(shares, parents) && i < |shares|
  {
    && Cuts(shares[i]) && !Exhausted(shares, parents, i)
    && exists j :: 0 <= j < i && Cuts(shares[j]) && !BuildsOn(shares, parents, i, j)
  }

  ghost predicate Overlooked(shares: seq<Option<real>>, parents: seq<nat>, n: nat)
    requires Earlier(shares, parents) && n <= |shares|
  {
    exists i :: 0 <= i < n && Overlooks(shares, parents, i)
  }

  lemma {:induction false} BuildsOnEarlier(shares: seq<Option<real>>, parents: seq<nat>, i: nat, j: nat)
    requires Earlier(shares, parents) && i < |shares| && BuildsOn(shares, parents, i, j)
    ensures j < i && shares[j].Some?
    decreases i
  {
    if j != parents[i] {
      BuildsOnEarlier(shares, parents, parents[i], j);
    }
  }

  /******* Bounds *******/

  lemma ScaleOrder(a: real, b: real, s: real)
    requires a <= b && s >= 0.0
    ensures a * s <= b * s
  {
    assert (b - a) * s >= 0.0;
    assert (b - a) * s == b * s - a * s;
  }

  lemma LeftoverDown(x: real, s: real)
    requires x >= 0.0 && 0.0 <= s <= 1.0
    ensures 0.0 <= Leftover(x, s)
    ensures Leftover(x, s) <= x
  {
    ScaleOrder(0.0, s, x);
    ScaleOrder(s, 1.0, x);
    assert s * x == x * s;
  }

  lemma LeftoverPlus(k: real, d: real, s: real)
    ensures Leftover(k + d, s) == Leftover(k, s) + Leftover(d, s)
  {
  }

  lemma LeftoverPositive(x: real, s: real)
    requires x > 0.0 && s > 0.0
    ensures Leftover(x, s) > 0.0
  {
  }

  lemma LeftoverOrder(k: real, q: real, s: real)
    requires k <= q && s >= 0.0
    ensures Leftover(k, s) <= Leftover(q, s)
    ensures k < q && s > 0.0 ==> Leftover(k, s) < Leftover(q, s)
  {
    ScaleOrder(k, q, s);
    if k < q && s > 0.0 {
      LeftoverPlus(k, q - k, s);
      LeftoverPositive(q - k, s);
    }
  }

  lemma LeftoverLess(x: real, s: real)
    requires x > 0.0 && s < 1.0
    ensures Leftover(x, s) < x
  {
    assert x * (1.0 - s) > 0.0;
    assert x * (1.0 - s) == x - x * s;
  }

  lemma LeftoverEnds(x: real, s: real)
    ensures Leftover(x, 1.0) == x && Leftover(x, 0.0) == 0.0
    ensures Leftover(x, s) == 0.0 <==> x == 0.0 || s == 0.0
    ensures Leftover(-x, s) == -Leftover(x, s)
  {
  }

  /** The load reduced by those of the first `n` passes that pass `i` builds on. */
  function Share(v: real, shares: seq<Option<real>>, parents: seq<nat>, i: nat, n: nat): real
    requires Earlier(shares, parents) && i < |shares| && n <= |shares|
    decreases n
  {
    if n == 0 then v
    else if shares[n - 1].Some? && BuildsOn(shares, parents, i, n - 1)
    then Leftover(Share(v, shares, parents, i, n - 1), shares[n - 1].value)
    else Share(v, shares, parents, i, n - 1)
  }

  /** Below its parent a pass builds on what its parent builds on. */
  lemma {:induction false} ShareOfParent(v: real, shares: seq<Option<real>>, parents: seq<nat>, i: nat, n: nat)
    requires Earlier(shares, parents) && 0 < i < |shares| && shares[parents[i]].Some? && n <= parents[i]
    ensures Share(v, shares, parents, i, n) == Share(v, shares, parents, parents[i], n)
    decreases n
  {
    if n > 0 {
      ShareOfParent(v, shares, parents, i, n - 1);
    }
  }

  /** Above its parent it builds on nothing more. */
  lemma {:induction false} ShareAbove(v: real, shares: seq<Option<real>>, parents: seq<nat>, i: nat, n: nat)
    requires Earlier(shares, parents) && 0 < i < |shares| && shares[parents[i]].Some? && parents[i] < n <= |shares|
    ensures Share(v, shares, parents, i, n) == Share(v, shares, parents, i, parents[i] + 1)
    decreases n
  {
    if n > parents[i] + 1 {
      ShareAbove(v, shares, parents, i, n - 1);
      if BuildsOn(shares, parents, i, n - 1) {
        BuildsOnEarlier(shares, parents, parents[i], n - 1);
      }
    }
  }

  lemma {:induction false} ShareOfNone(v: real, shares: seq<Option<real>>, parents: seq<nat>, i: nat, n: nat)
    requires Earlier(shares, parents) && i < |shares| && n <= |shares|
    requires i == 0 || shares[parents[i]].None?
    ensures Share(v, shares, parents, i, n) == v
    decreases n
  {
    if n > 0 {
      ShareOfNone(v, shares, parents, i, n - 1);
    }
  }

  lemma ShareAtParent(v: real, shares: seq<Option<real>>, parents: seq<nat>, i: nat)
    requires Earlier(shares, parents) && 0 < i < |shares| && shares[parents[i]].Some?
    ensures Share(v, shares, parents, i, parents[i] + 1)
         == Leftover(Share(v, shares, parents, i, parents[i]), shares[parents[i]].value)
  {
  }

  /** A pass starts from the load reduced by the passes it builds on. */
  lemma {:induction false} BeforeIsShare(v: real, shares: seq<Option<real>>, parents: seq<nat>, i: nat)
    requires Earlier(shares, parents) && i < |shares|
    ensures Before(v, shares, parents, i) == Share(v, shares, parents, i, i)
    decreases i
  {
    if i > 0 && shares[parents[i]].Some? {
      var p := parents[i];
      BeforeIsShare(v, shares, parents, p);
      ShareOfParent(v, shares, parents, i, p);
      ShareAbove(v, shares, parents, i, i);
      ShareAtParent(v, shares, parents, i);
    } else {
      ShareOfNone(v, shares, parents, i, i);
    }
  }

  /** A cut among the first `n` passes that pass `i` does not build on. */
  ghost predicate MissingCut(shares: seq<Option<real>>, parents: seq<nat>, i: nat, n: nat)
    requires Earlier(shares, parents) && i < |shares| && n <= |shares|
  {
    exists j :: 0 <= j < n && Cuts(shares[j]) && !BuildsOn(shares, parents, i, j)
  }

  lemma ScaleBoth(k: real, q: real, s: real)
    requires 0.0 <= k <= q && 0.0 <= s <= 1.0
    ensures 0.0 <= Leftover(k, s) <= Leftover(q, s) <= q
    ensures k < q && Leftover(q, s) > 0.0 ==> Leftover(k, s) < Leftover(q, s)
  {
    LeftoverDown(k, s);
    LeftoverDown(q, s);
    LeftoverOrder(k, q, s);
    LeftoverEnds(q, s);
  }

  lemma ScaleOne(k: real, q: real, s: real)
    requires 0.0 <= k <= q && 0.0 <= s <= 1.0
    ensures 0.0 <= Leftover(k, s) <= q
    ensures s == 1.0 ==> Leftover(k, s) == k
    ensures (k < q || s < 1.0) && q > 0.0 ==> Leftover(k, s) < q
  {
    LeftoverDown(k, s);
    LeftoverEnds(k, s);
    if k == q && s < 1.0 && q > 0.0 {
      LeftoverLess(k, s);
    }
  }

  /**
   * All controls together leave no more than some of them, and less exactly when a
   * cut is missing and anything is left.
   */
  lemma {:induction false} KeptBelowShare(v: real, shares: seq<Option<real>>, parents: seq<nat>, i: nat, n: nat)
    requires Earlier(shares, parents) && i < |shares| && n <= |shares| && Proper(shares) && v >= 0.0
    ensures 0.0 <= Kept(v, shares, n) <= Share(v, shares, parents, i, n) <= v
    ensures !MissingCut(shares, parents, i, n) ==> Kept(v, shares, n) == Share(v, shares, parents, i, n)
    ensures MissingCut(shares, parents, i, n) && Share(v, shares, parents, i, n) > 0.0 ==>
              Kept(v, shares, n) < Share(v, shares, parents, i, n)
    decreases n
  {
    if n > 0 {
      KeptBelowShare(v, shares, parents, i, n - 1);
      var k, q := Kept(v, shares, n - 1), Share(v, shares, parents, i, n - 1);
      if shares[n - 1].Some? {
        var s := shares[n - 1].value;
        if BuildsOn(shares, parents, i, n - 1) {
          ScaleBoth(k, q, s);
        } else {
          ScaleOne(k, q, s);
        }
      }
    }
  }

  lemma {:induction false} ZeroIffExhausted(v: real, shares: seq<Option<real>>, parents: seq<nat>, i: nat)
    requires Earlier(shares, parents) && i < |shares| && v > 0.0
    ensures Before(v, shares, parents, i) == 0.0 <==> Exhausted(shares, parents, i)
    decreases i
  {
    if i > 0 && shares[parents[i]].Some? {
      ZeroIffExhausted(v, shares, parents, parents[i]);
      LeftoverEnds(Before(v, shares, parents, parents[i]), shares[parents[i]].value);
    }
  }

  lemma KeptBounds(v: real, shares: seq<Option<real>>, parents: seq<nat>, i: nat)
    requires Earlier(shares, parents) && i < |shares| && Proper(shares) && v >= 0.0
    ensures 0.0 <= Kept(v, shares, i) <= Before(v, shares, parents, i) <= v
    ensures v > 0.0 && Cuts(shares[i]) ==>
              (Before(v, shares, parents, i) == Kept(v, shares, i) <==> !Overlooks(shares, parents, i))
  {
    BeforeIsShare(v, shares, parents, i);
    KeptBelowShare(v, shares, parents, i, i);
    if v > 0.0 {
      ZeroIffExhausted(v, shares, parents, i);
    }
  }

  /******* When the passes take off the joint reduction *******/

  /** What is taken off beyond the joint reduction. */
  function Excess(v: real, shares: seq<Option<real>>, parents: seq<nat>, n: nat): real
    requires Earlier(shares, parents) && n <= |shares|
  {
    Taken(v, shares, parents, n) - (v - Kept(v, shares, n))
  }

  /**
   * A pass with share `s` adds `(q - k)(1 - s)` to the excess, `q` being what it starts
   * from and `k` what all leave.
   */
  lemma ExcessGrows(q: real, k: real, s: real)
    requires q >= k && s <= 1.0
    ensures (q - Leftover(q, s)) - (k - Leftover(k, s)) >= 0.0
    ensures (q - Leftover(q, s)) - (k - Leftover(k, s)) == 0.0 <==> q == k || s == 1.0
  {
    var a, b := q - k, 1.0 - s;
    assert a * b == (q - q * s) - (k - k * s);
    assert a * b >= 0.0 && (a > 0.0 && b > 0.0 ==> a * b > 0.0);
  }

  lemma ExcessOfPass(v: real, shares: seq<Option<real>>, parents: seq<nat>, n: nat)
    requires Earlier(shares, parents) && 0 < n <= |shares| && Proper(shares) && v >= 0.0 && shares[n - 1].Some?
    ensures Excess(v, shares, parents, n) >= Excess(v, shares, parents, n - 1)
    ensures Excess(v, shares, parents, n) == Excess(v, shares, parents, n - 1) <==>
            Before(v, shares, parents, n - 1) == Kept(v, shares, n - 1) || !Cuts(shares[n - 1])
  {
    var q, k, s := Before(v, shares, parents, n - 1), Kept(v, shares, n - 1), shares[n - 1].value;
    KeptBounds(v, shares, parents, n - 1);
    ExcessGrows(q, k, s);
    assert Excess(v, shares, parents, n)
        == Excess(v, shares, parents, n - 1) + ((q - Leftover(q, s)) - (k - Leftover(k, s)));
  }

  /** The excess is never negative and, for a positive load, zero exactly while no cut has been overlooked. */
  lemma {:induction false} ExcessZeroExactlyWhen(v: real, shares: seq<Option<real>>, parents: seq<nat>, n: nat)
    requires Earlier(shares, parents) && n <= |shares| && Proper(shares) && v > 0.0
    ensures Excess(v, shares, parents, n) >= 0.0
    ensures Excess(v, shares, parents, n) == 0.0 <==> !Overlooked(shares, parents, n)
    decreases n
  {
    if n > 0 {
      ExcessZeroExactlyWhen(v, shares, parents, n - 1);
      assert Overlooked(shares, parents, n) <==>
             Overlooked(shares, parents, n - 1) || Overlooks(shares, parents, n - 1);
      if shares[n - 1].Some? {
        ExcessOfPass(v, shares, parents, n);
        KeptBounds(v, shares, parents, n - 1);
      } else {
        assert Excess(v, shares, parents, n) == Excess(v, shares, parents, n - 1);
      }
    }
  }

  lemma {:induction false} BeforeNegated(v: real, shares: seq<Option<real>>, parents: seq<nat>, i: nat)
    requires Earlier(shares, parents) && i < |shares|
    ensures Before(-v, shares, parents, i) == -Before(v, shares, parents, i)
    decreases i
  {
    if i > 0 && shares[parents[i]].Some? {
      BeforeNegated(v, shares, parents, parents[i]);
      LeftoverEnds(Before(v, shares, parents, parents[i]), shares[parents[i]].value);
    }
  }

  lemma {:induction false} Negated(v: real, shares: seq<Option<real>>, parents: seq<nat>, n: nat)
    requires Earlier(shares, parents) && n <= |shares|
    ensures Kept(-v, shares, n) == -Kept(v, shares, n)
    ensures Taken(-v, shares, parents, n) == -Taken(v, shares, parents, n)
    decreases n
  {
    if n > 0 {
      Negated(v, shares, parents, n - 1);
      if shares[n - 1].Some? {
        BeforeNegated(v, shares, parents, n - 1);
        LeftoverEnds(Kept(v, shares, n - 1), shares[n - 1].value);
        LeftoverEnds(Before(v, shares, parents, n - 1), shares[n - 1].value);
      }
    }
  }

  /**
   * Whatever pass each pass looks up: what the passes take off is what the controls
   * jointly take off - exactly when the load is zero or no pass overlooks a cut.
   */
  lemma ConservedExactlyWhen(v: real, shares: seq<Option<real>>, parents: seq<nat>)
    requires Earlier(shares, parents) && Proper(shares)
    ensures Taken(v, shares, parents, |shares|) == v - Kept(v, shares, |shares|) <==>
            v == 0.0 || !Overlooked(shares, parents, |shares|)
  {
    var n := |shares|;
    Negated(v, shares, parents, n);
    if v > 0.0 {
      ExcessZeroExactlyWhen(v, shares, parents, n);
    } else if v < 0.0 {
      ExcessZeroExactlyWhen(-v, shares, parents, n);
    }
  }

  lemma {:induction false} KeptInRange(v: real, shares: seq<Option<real>>, n: nat)
    requires n <= |shares| && Proper(shares) && v >= 0.0
    ensures 0.0 <= Kept(v, shares, n) <= v
  {
    if n > 0 {
      KeptInRange(v, shares, n - 1);
      if shares[n - 1].Some? {
        LeftoverDown(Kept(v, shares, n - 1), shares[n - 1].value);
      }
    }
  }

  /** Then what is left is what all controls leave together, between nothing and the whole load. */
  lemma LeftoverInRange(v: real, shares: seq<Option<real>>, parents: seq<nat>)
    requires Earlier(shares, parents) && Proper(shares) && v >= 0.0 && !Overlooked(shares, parents, |shares|)
    ensures 0.0 <= v - Taken(v, shares, parents, |shares|) == Kept(v, shares, |shares|) <= v
  {
    ConservedExactlyWhen(v, shares, parents);
    KeptInRange(v, shares, |shares|);
  }

  /** With one control there is nothing to overlook. */
  lemma OneOverlooksNothing(shares: seq<Option<real>>, parents: seq<nat>)
    requires Earlier(shares, parents)
    requires forall i, j :: 0 <= i < j < |shares| ==> shares[i].None? || shares[j].None?
    ensures !Overlooked(shares, parents, |shares|)
  {
  }

  /** After a cut that overlooks nothing, the remaining load is what all controls so far leave together. */
  lemma RemainingIsJoint(v: real, shares: seq<Option<real>>, parents: seq<nat>, i: nat)
    requires Earlier(shares, parents) && i < |shares| && Proper(shares) && v > 0.0
    requires Cuts(shares[i]) && !Overlooks(shares, parents, i)
    ensures Remaining(v, shares, parents, i) == Kept(v, shares, i + 1)
  {
    KeptBounds(v, shares, parents, i);
  }

  /******* Passes that look up the one just before *******/

  function Previous(n: nat): (parents: seq<nat>)
    ensures |parents| == n && forall i :: 0 < i < n ==> parents[i] == i - 1
  {
    seq(n, i requires 0 <= i < n => if i > 0 then i - 1 else 0)
  }

  /** A pass without a control separates two that take something off. */
  ghost predicate Broken(shares: seq<Option<real>>) {
    exists i, k, j :: 0 <= i < k < j < |shares| && Cuts(shares[i]) && shares[k].None? && Cuts(shares[j])
  }

  lemma {:induction false} BuildsOnRun(shares: seq<Option<real>>, i: nat, j: nat)
    requires i < |shares|
    ensures BuildsOn(shares, Previous(|shares|), i, j) <==> j < i && forall k :: j <= k < i ==> shares[k].Some?
    decreases i
  {
    if i > 0 {
      BuildsOnRun(shares, i - 1, j);
    }
  }

  lemma {:induction false} ExhaustedBy(shares: seq<Option<real>>, parents: seq<nat>, i: nat) returns (j: nat)
    requires Earlier(shares, parents) && i < |shares| && Exhausted(shares, parents, i)
    ensures BuildsOn(shares, parents, i, j) && j < i && shares[j].Some? && shares[j].value == 0.0
    decreases i
  {
    if shares[parents[i]].value == 0.0 {
      j := parents[i];
    } else {
      j := ExhaustedBy(shares, parents, parents[i]);
    }
  }

  /** The first cut after position `k`. */
  lemma {:induction false} FirstCut(shares: seq<Option<real>>, k: nat, j: nat) returns (first: nat)
    requires k < j < |shares| && Cuts(shares[j])
    ensures k < first <= j && Cuts(shares[first])
    ensures forall m :: k < m < first ==> !Cuts(shares[m])
    decreases j
  {
    if m :| k < m < j && Cuts(shares[m]) {
      first := FirstCut(shares, k, m);
    } else {
      first := j;
    }
  }

  lemma GapBelow(shares: seq<Option<real>>, i: nat, j: nat) returns (k: nat)
    requires j < i < |shares| && !BuildsOn(shares, Previous(|shares|), i, j)
    ensures j <= k < i && shares[k].None?
  {
    BuildsOnRun(shares, i, j);
    k :| j <= k < i && shares[k].None?;
  }

  lemma OverlookedIsBroken(shares: seq<Option<real>>)
    requires Overlooked(shares, Previous(|shares|), |shares|)
    ensures Broken(shares)
  {
    var i: nat :| 0 <= i < |shares| && Overlooks(shares, Previous(|shares|), i);
    var j: nat :| 0 <= j < i && Cuts(shares[j]) && !BuildsOn(shares, Previous(|shares|), i, j);
    var k := GapBelow(shares, i, j);
  }

  lemma AfterGapNotExhausted(shares: seq<Option<real>>, k: nat, first: nat)
    requires k < first < |shares| && shares[k].None? && forall m :: k < m < first ==> !Cuts(shares[m])
    ensures !Exhausted(shares, Previous(|shares|), first)
  {
    if Exhausted(shares, Previous(|shares|), first) {
      var m := ExhaustedBy(shares, Previous(|shares|), first);
      BuildsOnRun(shares, first, m);
      assert false;
    }
  }

  lemma BrokenIsOverlooked(shares: seq<Option<real>>)
    requires Broken(shares)
    ensures Overlooked(shares, Previous(|shares|), |shares|)
  {
    var i, k, j :| 0 <= i < k < j < |shares| && Cuts(shares[i]) && shares[k].None? && Cuts(shares[j]);
    var first := FirstCut(shares, k, j);
    BuildsOnRun(shares, first, i);
    AfterGapNotExhausted(shares, k, first);
    assert Overlooks(shares, Previous(|shares|), first);
  }

  /** Then a cut is overlooked exactly when a gap separates two cuts. */
  lemma OverlookedIffBroken(shares: seq<Option<real>>)
    ensures Overlooked(shares, Previous(|shares|), |shares|) <==> Broken(shares)
  {
    if Overlooked(shares, Previous(|shares|), |shares|) {
      OverlookedIsBroken(shares);
    }
    if Broken(shares) {
      BrokenIsOverlooked(shares);
    }
  }

  /** A gap can take off more than there is: 80 percent, no control, 80 percent. */
  lemma GapOverdraws()
    ensures var shares := [Some(0.2), None, Some(0.2)];
            Proper(shares) && Broken(shares) && 1.0 - Taken(1.0, shares, Previous(3), 3) < 0.0
  {
    var shares, parents := [Some(0.2), None, Some(0.2)], Previous(3);
    assert Cuts(shares[0]) && shares[1].None? && Cuts(shares[2]);
    assert Remaining(1.0, shares, parents, 0) == 0.2 && Remaining(1.0, shares, parents, 2) == 0.2;
    assert Taken(1.0, shares, parents, 1) == 0.8;
    assert Taken(1.0, shares, parents, 2) == Taken(1.0, shares, parents, 1);
    assert Taken(1.0, shares, parents, 3) == Taken(1.0, shares, parents, 2) + 0.8;
  }

  /** So can a lookup that passes over a pass: three times 50 percent, the third of them on the load of the first. */
  lemma WrongLookupTakesMore()
    ensures var shares, parents := [Some(0.5), Some(0.5), Some(0.5)], [0, 0, 0];
            && Earlier(shares, parents) && Proper(shares)
            && Before(100.0, shares, parents, 2) == 50.0
            && Taken(100.0, shares, parents, 3) == 100.0 && 100.0 - Kept(100.0, shares, 3) == 87.5
  {
    var shares: seq<Option<real>>, parents: seq<nat> := [Some(0.5), Some(0.5), Some(0.5)], [0, 0, 0];
    assert Before(100.0, shares, parents, 0) == 100.0 && Remaining(100.0, shares, parents, 0) == 50.0;
    assert Before(100.0, shares, parents, 1) == 50.0 && Remaining(100.0, shares, parents, 1) == 25.0;
    assert Before(100.0, shares, parents, 2) == 50.0 && Remaining(100.0, shares, parents, 2) == 25.0;
    assert Taken(100.0, shares, parents, 1) == 50.0;
    assert Taken(100.0, shares, parents, 2) == 75.0;
    assert Kept(100.0, shares, 1) == 50.0 && Kept(100.0, shares, 2) == 25.0;
  }

  /******* The order of the controls *******/

  /** `v` times every factor. */
  function Product(v: real, factors: seq<real>): real {
    if factors == [] then v else Product(v, factors[..|factors| - 1]) * factors[|factors| - 1]
  }

  lemma ProductSnoc(v: real, s: seq<real>, x: real)
    ensures Product(v, s + [x]) == Product(v, s) * x
  {
    assert (s + [x])[..|s|] == s;
  }

  lemma SwapFactors(p: real, a: real, i: real, r: real, x: real, y: real)
    requires p == a * x && a == i * y && r == i * x
    ensures p == r * y
  {
    assert (i * y) * x == i * (y * x) == i * (x * y) == (i * x) * y;
  }

  /** The shares of the controls, gaps left out. */
  function Factors(shares: seq<Option<real>>, n: nat): (factors: seq<real>)
    requires n <= |shares|
  {
    if n == 0 then []
    else if shares[n - 1].Some? then Factors(shares, n - 1) + [shares[n - 1].value]
    else Factors(shares, n - 1)
  }

  lemma {:induction false} KeptIsProduct(v: real, shares: seq<Option<real>>, n: nat)
    requires n <= |shares|
    ensures Kept(v, shares, n) == Product(v, Factors(shares, n))
  {
    if n > 0 {
      KeptIsProduct(v, shares, n - 1);
      if shares[n - 1].Some? {
        ProductSnoc(v, Factors(shares, n - 1), shares[n - 1].value);
      }
    }
  }

  lemma {:induction false} ProductTakeOut(v: real, s: seq<real>, y: real, t: seq<real>)
    ensures Product(v, s + [y] + t) == Product(v, s + t) * y
    decreases |t|
  {
    if t == [] {
      assert s + [y] + t == s + [y] && s + t == s;
      ProductSnoc(v, s, y);
    } else {
      var n := |t| - 1;
      var front, x := t[..n], t[n];
      ProductTakeOut(v, s, y, front);
      assert s + [y] + t == (s + [y] + front) + [x] && s + t == (s + front) + [x];
      ProductSnoc(v, s + [y] + front, x);
      ProductSnoc(v, s + front, x);
      SwapFactors(Product(v, s + [y] + t), Product(v, s + [y] + front), Product(v, s + front),
                  Product(v, s + t), x, y);
    }
  }

  lemma MultisetTakeOut(s: seq<real>, k: nat)
    requires k < |s|
    ensures multiset(s[..k] + s[k + 1..]) == multiset(s) - multiset{s[k]}
  {
    assert s == s[..k] + [s[k]] + s[k + 1..];
  }

  lemma FindFactor(s: seq<real>, t: seq<real>) returns (k: nat)
    requires multiset(s) == multiset(t) && s != []
    ensures k < |t| && t[k] == s[0]
    ensures multiset(s[..0] + s[1..]) == multiset(t[..k] + t[k + 1..])
  {
    assert s[0] in multiset(t);
    k :| 0 <= k < |t| && t[k] == s[0];
    MultisetTakeOut(s, 0);
    MultisetTakeOut(t, k);
  }

  lemma {:induction false} ProductPermuted(v: real, s: seq<real>, t: seq<real>)
    requires multiset(s) == multiset(t)
    ensures Product(v, s) == Product(v, t)
    decreases |s|
  {
    if s == [] {
      assert |multiset(t)| == |t|;
    } else {
      var k := FindFactor(s, t);
      ProductPermuted(v, s[..0] + s[1..], t[..k] + t[k + 1..]);
      ProductTakeOut(v, s[..0], s[0], s[1..]);
      ProductTakeOut(v, t[..k], t[k], t[k + 1..]);
      assert s == s[..0] + [s[0]] + s[1..] && t == t[..k] + [t[k]] + t[k + 1..];
    }
  }

  lemma {:induction false} KeptPrefix(v: real, a: seq<Option<real>>, b: seq<Option<real>>, n: nat)
    requires n <= |a| && n <= |b| && forall i :: 0 <= i < n ==> a[i] == b[i]
    ensures Kept(v, a, n) == Kept(v, b, n)
  {
    if n > 0 {
      KeptPrefix(v, a, b, n - 1);
    }
  }

  lemma LeftoverTwice(x: real, s: real, t: real)
    ensures Leftover(Leftover(x, s), t) == Leftover(Leftover(x, t), s)
  {
    assert (x * s) * t == x * (s * t) == x * (t * s) == (x * t) * s;
  }

  /** One control more, at a pass where the group had none. */
  lemma {:induction false} KeptInsert(v: real, shares: seq<Option<real>>, i: nat, s: real, n: nat)
    requires i < n <= |shares| && shares[i].None?
    ensures Kept(v, shares[i := Some(s)], n) == Leftover(Kept(v, shares, n), s)
  {
    var more := shares[i := Some(s)];
    if n == i + 1 {
      KeptPrefix(v, shares, more, i);
    } else {
      KeptInsert(v, shares, i, s, n - 1);
      if shares[n - 1].Some? {
        LeftoverTwice(Kept(v, shares, n - 1), s, shares[n - 1].value);
      }
    }
  }

  lemma {:induction false} KeptOfNone(v: real, shares: seq<Option<real>>, n: nat)
    requires n <= |shares| && forall i :: 0 <= i < n ==> shares[i].None?
    ensures Kept(v, shares, n) == v
  {
    if n > 0 {
      KeptOfNone(v, shares, n - 1);
    }
  }

  /** Permuting the controls among the passes of a group does not change what is jointly left over. */
  lemma KeptPermuted(v: real, a: seq<Option<real>>, b: seq<Option<real>>)
    requires multiset(Factors(a, |a|)) == multiset(Factors(b, |b|))
    ensures Kept(v, a, |a|) == Kept(v, b, |b|)
  {
    KeptIsProduct(v, a, |a|);
    KeptIsProduct(v, b, |b|);
    ProductPermuted(v, Factors(a, |a|), Factors(b, |b|));
  }
}
