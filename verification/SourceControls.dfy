/**
 * Source controls over whole tables: the loop over orders of
 * `calculate_src_ctrl_percent_reduction` and the subtraction that follows it in
 * `apply_tidy_load_reduction`.
 */
module SourceControls {
  import opened Options
  import opened Reductions

  datatype Key = Key(node: string, epoch: string, variable: string)
  datatype Load = Load(key: Key, subbasin: string, value: real)
  datatype Direction = Upstream | Downstream
  datatype Control = Control(subbasin: string, variable: string, order: int, direction: Direction, percent: real)

  /** A load joined with one of its controls, and the same with what the pass left over. */
  datatype Row = Row(key: Key, order: int, value: real, percent: real)
  datatype Reduced = Reduced(row: Row, prev: real, remaining: real)

  datatype Outcome = Computed(rows: seq<Reduced>) | AssertionError | IndexError

  function Share(percent: real): real {
    1.0 - percent / 100.0
  }

  /******* The join *******/

  function JoinOne(l: Load, controls: seq<Control>, direction: Direction): seq<Row> {
    if controls == [] then []
    else
      var c := controls[0];
      (if c.direction == direction && c.subbasin == l.subbasin && c.variable == l.key.variable
       then [Row(l.key, c.order, l.value, c.percent)] else [])
      + JoinOne(l, controls[1..], direction)
  }

  function Join(load: seq<Load>, controls: seq<Control>, direction: Direction): seq<Row> {
    if load == [] then [] else JoinOne(load[0], controls, direction) + Join(load[1..], controls, direction)
  }

  predicate Matches(r: Row, l: Load, c: Control, direction: Direction) {
    && c.direction == direction && c.subbasin == l.subbasin && c.variable == l.key.variable
    && r == Row(l.key, c.order, l.value, c.percent)
  }

  lemma {:induction false} JoinOneRows(l: Load, controls: seq<Control>, direction: Direction, r: Row)
    ensures r in JoinOne(l, controls, direction) <==> exists c :: c in controls && Matches(r, l, c, direction)
  {
    if controls != [] {
      JoinOneRows(l, controls[1..], direction, r);
      assert r in JoinOne(l, controls, direction) <==>
             Matches(r, l, controls[0], direction) || r in JoinOne(l, controls[1..], direction);
      assert forall c :: c in controls <==> c == controls[0] || c in controls[1..];
    }
  }

  /** The rows of the join are the pairs of a load and a control of its subbasin, variable and direction. */
  lemma {:induction false} JoinRows(load: seq<Load>, controls: seq<Control>, direction: Direction, r: Row)
    ensures r in Join(load, controls, direction) <==>
            exists l, c :: l in load && c in controls && Matches(r, l, c, direction)
  {
    if load != [] {
      JoinOneRows(load[0], controls, direction, r);
      JoinRows(load[1..], controls, direction, r);
      assert forall l :: l in load <==> l == load[0] || l in load[1..];
    }
  }

  predicate SameSlot(a: Row, b: Row) {
    a.key == b.key && a.order == b.order
  }

  /** The assertion: one row per group and order. */
  predicate OnePerOrder(rows: seq<Row>) {
    forall i, j :: 0 <= i < j < |rows| ==> !SameSlot(rows[i], rows[j])
  }

  /** Control `c` applies to load `l`. */
  predicate Applies(l: Load, c: Control, direction: Direction) {
    c.direction == direction && c.subbasin == l.subbasin && c.variable == l.key.variable
  }

  /** Two of the controls apply to one load at one order. */
  ghost predicate Clash(l: Load, controls: seq<Control>, direction: Direction) {
    exists i, j :: 0 <= i < j < |controls| && controls[i].order == controls[j].order
                   && Applies(l, controls[i], direction) && Applies(l, controls[j], direction)
  }

  lemma OnePerOrderAppend(a: seq<Row>, b: seq<Row>)
    ensures OnePerOrder(a + b) <==>
            OnePerOrder(a) && OnePerOrder(b) && forall x, y :: x in a && y in b ==> !SameSlot(x, y)
  {
    var c := a + b;
    if OnePerOrder(c) {
      forall i, j | 0 <= i < j < |a|
        ensures !SameSlot(a[i], a[j])
      {
        assert !SameSlot(c[i], c[j]);
      }
      forall i, j | 0 <= i < j < |b|
        ensures !SameSlot(b[i], b[j])
      {
        assert !SameSlot(c[|a| + i], c[|a| + j]);
      }
      forall x, y | x in a && y in b
        ensures !SameSlot(x, y)
      {
        var i :| 0 <= i < |a| && a[i] == x;
        var j :| 0 <= j < |b| && b[j] == y;
        assert !SameSlot(c[i], c[|a| + j]);
      }
    }
    if OnePerOrder(a) && OnePerOrder(b) && forall x, y :: x in a && y in b ==> !SameSlot(x, y) {
      forall i, j | 0 <= i < j < |c|
        ensures !SameSlot(c[i], c[j])
      {
        if i < |a| <= j {
          assert c[i] in a && c[j] in b;
        }
      }
    }
  }

  /** The first of the controls clashes with another. */
  ghost predicate FirstClashes(l: Load, controls: seq<Control>, direction: Direction)
    requires controls != []
  {
    && Applies(l, controls[0], direction)
    && exists c :: c in controls[1..] && Applies(l, c, direction) && c.order == controls[0].order
  }

  lemma ClashDown(l: Load, controls: seq<Control>, direction: Direction)
    requires controls != [] && Clash(l, controls, direction)
    ensures Clash(l, controls[1..], direction) || FirstClashes(l, controls, direction)
  {
    var rest := controls[1..];
    var i, j :| 0 <= i < j < |controls| && controls[i].order == controls[j].order
                && Applies(l, controls[i], direction) && Applies(l, controls[j], direction);
    assert rest[j - 1] == controls[j] && rest[j - 1] in rest;
    if i > 0 {
      assert rest[i - 1] == controls[i];
    }
  }

  lemma ClashUp(l: Load, controls: seq<Control>, direction: Direction)
    requires controls != [] && (Clash(l, controls[1..], direction) || FirstClashes(l, controls, direction))
    ensures Clash(l, controls, direction)
  {
    var rest := controls[1..];
    if Clash(l, rest, direction) {
      var i, j :| 0 <= i < j < |rest| && rest[i].order == rest[j].order
                  && Applies(l, rest[i], direction) && Applies(l, rest[j], direction);
      assert controls[i + 1] == rest[i] && controls[j + 1] == rest[j];
    } else {
      var c :| c in rest && Applies(l, c, direction) && c.order == controls[0].order;
      var j :| 0 <= j < |rest| && rest[j] == c;
      assert controls[j + 1] == c;
    }
  }

  lemma SlotOfControl(l: Load, controls: seq<Control>, direction: Direction, r: Row)
    requires r.key == l.key
    ensures (exists y :: y in JoinOne(l, controls, direction) && SameSlot(r, y)) <==>
            exists d :: d in controls && Applies(l, d, direction) && d.order == r.order
  {
    if y :| y in JoinOne(l, controls, direction) && SameSlot(r, y) {
      JoinOneRows(l, controls, direction, y);
      var d :| d in controls && Matches(y, l, d, direction);
      assert Applies(l, d, direction) && d.order == r.order;
    }
    if d :| d in controls && Applies(l, d, direction) && d.order == r.order {
      var y := Row(l.key, d.order, l.value, d.percent);
      JoinOneRows(l, controls, direction, y);
      assert Matches(y, l, d, direction);
      assert SameSlot(r, y);
    }
  }

  lemma {:induction false} OneLoadOnePerOrder(l: Load, controls: seq<Control>, direction: Direction)
    ensures OnePerOrder(JoinOne(l, controls, direction)) <==> !Clash(l, controls, direction)
  {
    if controls != [] {
      var c, rest := controls[0], JoinOne(l, controls[1..], direction);
      OneLoadOnePerOrder(l, controls[1..], direction);
      if Clash(l, controls, direction) {
        ClashDown(l, controls, direction);
      } else if Clash(l, controls[1..], direction) || FirstClashes(l, controls, direction) {
        ClashUp(l, controls, direction);
      }
      if Applies(l, c, direction) {
        var first := Row(l.key, c.order, l.value, c.percent);
        OnePerOrderAppend([first], rest);
        SlotOfControl(l, controls[1..], direction, first);
        assert (forall x, y :: x in [first] && y in rest ==> !SameSlot(x, y))
          <==> !exists y :: y in rest && SameSlot(first, y);
      } else {
        assert JoinOne(l, controls, direction) == rest;
      }
    }
  }

  predicate Ascending(orders: seq<int>) {
    forall i, j :: 0 <= i < j < |orders| ==> orders[i] < orders[j]
  }

  lemma AscendingCons(x: int, rest: seq<int>)
    requires Ascending(rest) && forall y :: y in rest ==> x < y
    ensures Ascending([x] + rest)
  {
    forall i, j | 0 <= i < j < |[x] + rest|
      ensures ([x] + rest)[i] < ([x] + rest)[j]
    {
      assert rest[j - 1] in rest;
    }
  }

  function InsertOrder(orders: seq<int>, o: int): (longer: seq<int>)
    requires Ascending(orders)
    ensures Ascending(longer) && forall x :: x in longer <==> x in orders || x == o
  {
    if orders == [] then [o]
    else if o < orders[0] then [o] + orders
    else if o == orders[0] then orders
    else
      var rest := InsertOrder(orders[1..], o);
      assert forall x :: x in orders <==> x == orders[0] || x in orders[1..];
      AscendingCons(orders[0], rest);
      [orders[0]] + rest
  }

  /** `sorted(df["order"].unique())`. */
  function SortedOrders(rows: seq<Row>): (orders: seq<int>)
    ensures Ascending(orders)
  {
    if rows == [] then [] else InsertOrder(SortedOrders(rows[1..]), rows[0].order)
  }

  lemma {:induction false} OrdersOccur(rows: seq<Row>, o: int)
    ensures o in SortedOrders(rows) <==> exists r :: r in rows && r.order == o
  {
    if rows != [] {
      OrdersOccur(rows[1..], o);
      assert forall r :: r in rows <==> r == rows[0] || r in rows[1..];
    }
  }

  /******* The loop *******/

  /** A list index the way the language takes it: negative numbers count from the end. */
  function ListIndex(length: nat, i: int): (k: Option<nat>)
    ensures k.Some? ==> k.value < length
  {
    if 0 <= i < length then Some(i)
    else if i < 0 <= length + i then Some(length + i)
    else None
  }

  function OfOrder(rows: seq<Row>, o: int): seq<Row> {
    if rows == [] then []
    else (if rows[0].order == o then [rows[0]] else []) + OfOrder(rows[1..], o)
  }

  /** The left join with an earlier pass: its remaining load for the group, if it has one. */
  function FindRemaining(pass: seq<Reduced>, key: Key): Option<real> {
    if pass == [] then None
    else if pass[0].row.key == key then Some(pass[0].remaining)
    else FindRemaining(pass[1..], key)
  }

  function Reduce(r: Row, earlier: seq<Reduced>): Reduced {
    var found := FindRemaining(earlier, r.key);
    var prev := if found.Some? then found.value else r.value;
    Reduced(r, prev, Leftover(prev, Share(r.percent)))
  }

  function ReduceAll(rows: seq<Row>, earlier: seq<Reduced>): (pass: seq<Reduced>)
    ensures |pass| == |rows| && forall k :: 0 <= k < |rows| ==> pass[k] == Reduce(rows[k], earlier)
  {
    if rows == [] then [] else [Reduce(rows[0], earlier)] + ReduceAll(rows[1..], earlier)
  }

  /** Pass `i`, given the passes before it. */
  function NextPass(rows: seq<Row>, orders: seq<int>, i: nat, passes: seq<seq<Reduced>>): Option<seq<Reduced>>
    requires i == |passes| < |orders|
  {
    if i == 0 then Some(ReduceAll(OfOrder(rows, orders[0]), []))
    else
      var k := ListIndex(i, orders[i - 1]);
      if k.None? then None else Some(ReduceAll(OfOrder(rows, orders[i]), passes[k.value]))
  }

  /** The first `n` passes, or nothing when one of them looks up a pass that is not there. */
  function Passes(rows: seq<Row>, orders: seq<int>, n: nat): (passes: Option<seq<seq<Reduced>>>)
    requires n <= |orders|
    ensures passes.Some? ==> |passes.value| == n
  {
    if n == 0 then Some([])
    else
      var before := Passes(rows, orders, n - 1);
      if before.None? then None
      else
        var pass := NextPass(rows, orders, n - 1, before.value);
        if pass.None? then None else Some(before.value + [pass.value])
  }

  function Concat(passes: seq<seq<Reduced>>): seq<Reduced> {
    if passes == [] then [] else Concat(passes[..|passes| - 1]) + passes[|passes| - 1]
  }

  function Expected(rows: seq<Row>): Outcome {
    var orders := SortedOrders(rows);
    if !OnePerOrder(rows) then AssertionError
    else
      var passes := Passes(rows, orders, |orders|);
      if passes.None? then IndexError else Computed(Concat(passes.value))
  }

  lemma PassesStep(rows: seq<Row>, orders: seq<int>, i: nat, passes: seq<seq<Reduced>>)
    requires i < |orders| && Passes(rows, orders, i) == Some(passes)
    ensures var pass := NextPass(rows, orders, i, passes);
            Passes(rows, orders, i + 1) == if pass.Some? then Some(passes + [pass.value]) else None
  {
  }

  lemma {:induction false} PassesStayNone(rows: seq<Row>, orders: seq<int>, m: nat, n: nat)
    requires m <= n <= |orders| && Passes(rows, orders, m).None?
    ensures Passes(rows, orders, n).None?
  {
    if m < n {
      PassesStayNone(rows, orders, m, n - 1);
    }
  }

  /** The loop of `calculate_src_ctrl_percent_reduction`; None stands for the index error. */
  method RunPasses(rows: seq<Row>, orders: seq<int>) returns (result: Option<seq<seq<Reduced>>>)
    ensures result == Passes(rows, orders, |orders|)
  {
    var passes: seq<seq<Reduced>> := [];
    for i := 0 to |orders|
      invariant Passes(rows, orders, i) == Some(passes)
    {
      PassesStep(rows, orders, i, passes);
      var earlier: seq<Reduced> := [];
      if i > 0 {
        var k := ListIndex(|passes|, orders[i - 1]);
        if k.None? {
          PassesStayNone(rows, orders, i + 1, |orders|);
          return None;
        }
        earlier := passes[k.value];
      }
      passes := passes + [ReduceAll(OfOrder(rows, orders[i]), earlier)];
    }
    return Some(passes);
  }

  /** `calculate_src_ctrl_percent_reduction`. */
  method CalculateSrcCtrlPercentReduction(load: seq<Load>, controls: seq<Control>, direction: Direction)
      returns (result: Outcome)
    ensures result == Expected(Join(load, controls, direction))
  {
    var rows := Join(load, controls, direction);
    if !OnePerOrder(rows) {
      return AssertionError;
    }
    var passes := RunPasses(rows, SortedOrders(rows));
    if passes.None? {
      return IndexError;
    }
    return Computed(Concat(passes.value));
  }

  lemma RowsHaveKeys(load: seq<Load>, controls: seq<Control>, direction: Direction, r: Row)
    requires r in Join(load, controls, direction)
    ensures exists l :: l in load && l.key == r.key
  {
    JoinRows(load, controls, direction, r);
    var l, c :| l in load && c in controls && Matches(r, l, c, direction);
  }

  predicate OneRowPerKey(load: seq<Load>) {
    forall i, j :: 0 <= i < |load| && 0 <= j < |load| && load[i].key == load[j].key ==> i == j
  }

  lemma {:induction false} ClashesFail(load: seq<Load>, controls: seq<Control>, direction: Direction)
    requires OneRowPerKey(load)
    ensures OnePerOrder(Join(load, controls, direction)) <==> forall l :: l in load ==> !Clash(l, controls, direction)
  {
    if load != [] {
      var one, rest := JoinOne(load[0], controls, direction), Join(load[1..], controls, direction);
      assert OneRowPerKey(load[1..]) by {
        forall i, j | 0 <= i < |load[1..]| && 0 <= j < |load[1..]| && load[1..][i].key == load[1..][j].key
          ensures i == j
        {
          assert load[i + 1].key == load[j + 1].key;
        }
      }
      ClashesFail(load[1..], controls, direction);
      OneLoadOnePerOrder(load[0], controls, direction);
      OnePerOrderAppend(one, rest);
      forall x, y | x in one && y in rest
        ensures !SameSlot(x, y)
      {
        JoinOneRows(load[0], controls, direction, x);
        RowsHaveKeys(load[1..], controls, direction, y);
        var l :| l in load[1..] && l.key == y.key;
        var j :| 0 <= j < |load[1..]| && load[1..][j] == l;
        assert load[j + 1].key == y.key;
      }
      assert forall l :: l in load <==> l == load[0] || l in load[1..];
    }
  }

  /** The assertion fails exactly when two controls of one subbasin, variable and direction share an order. */
  lemma AssertionFailsExactlyWhen(load: seq<Load>, controls: seq<Control>, direction: Direction)
    requires OneRowPerKey(load)
    ensures Expected(Join(load, controls, direction)) == AssertionError <==>
            exists l, i, j :: l in load && 0 <= i < j < |controls| && controls[i].order == controls[j].order
                              && Applies(l, controls[i], direction) && Applies(l, controls[j], direction)
  {
    ClashesFail(load, controls, direction);
    if l :| l in load && Clash(l, controls, direction) {
      var i, j :| 0 <= i < j < |controls| && controls[i].order == controls[j].order
                  && Applies(l, controls[i], direction) && Applies(l, controls[j], direction);
    }
  }

  /******* Which pass is looked up *******/

  /** Every order but the last among the first `n`, at position `k`, lies from `-k - 1` to `k`. */
  predicate Complete(orders: seq<int>, n: nat)
    requires n <= |orders|
  {
    forall k :: 0 <= k < n - 1 ==> -k - 1 <= orders[k] <= k
  }

  /** The number of the pass that each pass looks up. */
  function Parents(orders: seq<int>): (parents: seq<nat>)
    ensures |parents| == |orders|
    ensures forall i :: 0 < i < |parents| ==> parents[i] < i
  {
    seq(|orders|, i requires 0 <= i < |orders| =>
      if i == 0 then 0
      else
        var k := ListIndex(i, orders[i - 1]);
        if k.Some? then k.value else 0)
  }

  predicate InReach(order: int, k: int) {
    -k - 1 <= order <= k
  }

  lemma CompleteStep(orders: seq<int>, n: nat)
    requires 0 < n <= |orders|
    ensures Complete(orders, n) <==> Complete(orders, n - 1) && (n > 1 ==> InReach(orders[n - 2], n - 2))
  {
    if n > 1 && Complete(orders, n - 1) && InReach(orders[n - 2], n - 2) {
      forall k | 0 <= k < n - 1
        ensures -k - 1 <= orders[k] <= k
      {
      }
    }
  }

  lemma {:induction false} PassesExactlyWhenComplete(rows: seq<Row>, orders: seq<int>, n: nat)
    requires n <= |orders|
    ensures Passes(rows, orders, n).Some? <==> Complete(orders, n)
  {
    if n > 0 {
      PassesExactlyWhenComplete(rows, orders, n - 1);
      CompleteStep(orders, n);
      if Complete(orders, n - 1) {
        PassesStep(rows, orders, n - 1, Passes(rows, orders, n - 1).value);
        assert n > 1 ==> (ListIndex(n - 1, orders[n - 2]).Some? <==> InReach(orders[n - 2], n - 2));
      }
    }
  }

  /** For all orders, negative ones included: the loop fails exactly when one of them reaches past the list. */
  lemma FailsExactlyWhen(rows: seq<Row>)
    requires OnePerOrder(rows)
    ensures var orders := SortedOrders(rows);
            Expected(rows) == IndexError <==> !Complete(orders, |orders|)
  {
    var orders := SortedOrders(rows);
    PassesExactlyWhenComplete(rows, orders, |orders|);
  }

  /** All orders but the last are their own positions; the first may be -1, which counts from the end. */
  predicate PositionalOrders(orders: seq<int>) {
    forall k :: 0 <= k < |orders| - 1 ==> orders[k] == k || (k == 0 && orders[k] == -1)
  }

  /** Every pass after the first looks up the pass just before it. */
  ghost predicate LooksUpPrevious(orders: seq<int>) {
    forall k: nat :: k + 1 < |orders| ==> ListIndex(k + 1, orders[k]) == Some(k)
  }

  lemma PreviousIffPositional(orders: seq<int>)
    requires Ascending(orders)
    ensures LooksUpPrevious(orders) <==> PositionalOrders(orders)
    ensures LooksUpPrevious(orders) ==> Parents(orders) == Previous(|orders|) && Complete(orders, |orders|)
  {
    if LooksUpPrevious(orders) {
      forall k | 0 <= k < |orders| - 1
        ensures orders[k] == k || (k == 0 && orders[k] == -1)
      {
        assert ListIndex(k + 1, orders[k]) == Some(k);
        assert k > 0 ==> orders[0] < orders[k];
      }
      forall i | 0 < i < |orders|
        ensures Parents(orders)[i] == i - 1
      {
        assert ListIndex(i - 1 + 1, orders[i - 1]) == Some(i - 1);
      }
    }
    if PositionalOrders(orders) {
      forall k: nat | k + 1 < |orders|
        ensures ListIndex(k + 1, orders[k]) == Some(k)
      {
        assert orders[k] == k || (k == 0 && orders[k] == -1);
      }
    }
  }

  /** An ascending list of numbers from 0 on is at least its positions. */
  lemma {:induction false} AtLeastPosition(orders: seq<int>, k: nat)
    requires Ascending(orders) && k < |orders| && orders[0] >= 0
    ensures orders[k] >= k
  {
    if k > 0 {
      AtLeastPosition(orders, k - 1);
    }
  }

  lemma CompleteIsPositional(orders: seq<int>)
    requires Ascending(orders) && (orders != [] ==> orders[0] >= 0)
    ensures Complete(orders, |orders|) <==> PositionalOrders(orders)
  {
    forall k | 0 <= k < |orders|
      ensures orders[k] >= k
    {
      AtLeastPosition(orders, k);
    }
  }

  /**
   * For orders that are not negative the loop is never silently wrong: it either
   * threads the remaining load from each pass to the next or fails, and it fails
   * exactly when some order but the last is not its own position.
   */
  lemma FailsUnlessPositional(rows: seq<Row>)
    requires OnePerOrder(rows) && forall r :: r in rows ==> r.order >= 0
    ensures var orders := SortedOrders(rows);
            && (Expected(rows) == IndexError <==> !PositionalOrders(orders))
            && (Expected(rows).Computed? <==> LooksUpPrevious(orders))
  {
    var orders := SortedOrders(rows);
    if orders != [] {
      OrdersOccur(rows, orders[0]);
    }
    FailsExactlyWhen(rows);
    CompleteIsPositional(orders);
    PreviousIffPositional(orders);
  }

  /******* One group of rows *******/

  /** What the control of the group at some order leaves over, if there is one. */
  function ShareAt(rows: seq<Row>, key: Key, o: int): Option<real> {
    if rows == [] then None
    else if rows[0].key == key && rows[0].order == o then Some(Share(rows[0].percent))
    else ShareAt(rows[1..], key, o)
  }

  function GroupShares(rows: seq<Row>, key: Key, orders: seq<int>): (shares: seq<Option<real>>)
    ensures |shares| == |orders|
    ensures forall i :: 0 <= i < |orders| ==> shares[i] == ShareAt(rows, key, orders[i])
  {
    seq(|orders|, i requires 0 <= i < |orders| => ShareAt(rows, key, orders[i]))
  }

  function TakenBy(x: Reduced, key: Key): real {
    if x.row.key == key then x.prev - x.remaining else 0.0
  }

  /** `load_reduced` summed over a group. */
  function GroupTaken(reduced: seq<Reduced>, key: Key): real {
    if reduced == [] then 0.0 else TakenBy(reduced[0], key) + GroupTaken(reduced[1..], key)
  }

  lemma {:induction false} GroupTakenAppend(a: seq<Reduced>, b: seq<Reduced>, key: Key)
    ensures GroupTaken(a + b, key) == GroupTaken(a, key) + GroupTaken(b, key)
  {
    if a == [] {
      assert a + b == b;
    } else {
      assert (a + b)[1..] == a[1..] + b;
      GroupTakenAppend(a[1..], b, key);
    }
  }

  /** A pass over a table, one row more. */
  lemma PassCons(rows: seq<Row>, o: int, earlier: seq<Reduced>, key: Key)
    requires rows != []
    ensures var pass := ReduceAll(OfOrder(rows, o), earlier);
            var rest := ReduceAll(OfOrder(rows[1..], o), earlier);
            var x := Reduce(rows[0], earlier);
            && FindRemaining(pass, key)
               == (if rows[0].order == o && rows[0].key == key then Some(x.remaining) else FindRemaining(rest, key))
            && GroupTaken(pass, key)
               == (if rows[0].order == o then TakenBy(x, key) else 0.0) + GroupTaken(rest, key)
  {
    var rest := OfOrder(rows[1..], o);
    if rows[0].order == o {
      assert OfOrder(rows, o) == [rows[0]] + rest;
      assert OfOrder(rows, o)[1..] == rest;
      var pass := ReduceAll(OfOrder(rows, o), earlier);
      assert pass[0] == Reduce(rows[0], earlier) && pass[1..] == ReduceAll(rest, earlier);
    } else {
      assert OfOrder(rows, o) == rest;
    }
  }

  lemma {:induction false} NoRowNoShare(rows: seq<Row>, key: Key, o: int)
    ensures ShareAt(rows, key, o).None? <==> forall r :: r in rows ==> !(r.key == key && r.order == o)
  {
    if rows != [] {
      NoRowNoShare(rows[1..], key, o);
      assert forall r :: r in rows <==> r == rows[0] || r in rows[1..];
    }
  }

  lemma {:induction false} AbsentFromPass(rows: seq<Row>, o: int, earlier: seq<Reduced>, key: Key)
    requires forall r :: r in rows ==> !(r.key == key && r.order == o)
    ensures FindRemaining(ReduceAll(OfOrder(rows, o), earlier), key).None?
    ensures GroupTaken(ReduceAll(OfOrder(rows, o), earlier), key) == 0.0
  {
    if rows != [] {
      AbsentFromPass(rows[1..], o, earlier, key);
      assert rows[0] in rows;
      PassCons(rows, o, earlier, key);
    }
  }

  function Coalesce(found: Option<real>, v: real): real {
    if found.Some? then found.value else v
  }

  lemma OnlyRowOfGroup(rows: seq<Row>, o: int, key: Key)
    requires OnePerOrder(rows) && rows != [] && rows[0].key == key && rows[0].order == o
    ensures forall t :: t in rows[1..] ==> !(t.key == key && t.order == o)
  {
    forall t | t in rows[1..]
      ensures !(t.key == key && t.order == o)
    {
      var j :| 0 <= j < |rows[1..]| && rows[1..][j] == t;
      assert !SameSlot(rows[0], rows[j + 1]);
    }
  }

  lemma OnePerOrderTail(rows: seq<Row>)
    requires OnePerOrder(rows) && rows != []
    ensures OnePerOrder(rows[1..])
  {
    forall i, j | 0 <= i < j < |rows[1..]|
      ensures !SameSlot(rows[1..][i], rows[1..][j])
    {
      assert !SameSlot(rows[i + 1], rows[j + 1]);
    }
  }

  /** What a pass holds for a group that enters it with `prev`. */
  ghost predicate PassHolds(pass: seq<Reduced>, key: Key, prev: real, share: Option<real>) {
    && FindRemaining(pass, key) == (if share.Some? then Some(Leftover(prev, share.value)) else None)
    && GroupTaken(pass, key) == (if share.Some? then prev - Leftover(prev, share.value) else 0.0)
  }

  lemma HeadOfGroup(rows: seq<Row>, o: int, earlier: seq<Reduced>, key: Key)
    requires OnePerOrder(rows) && rows != [] && rows[0].key == key && rows[0].order == o
    ensures PassHolds(ReduceAll(OfOrder(rows, o), earlier), key,
                      Coalesce(FindRemaining(earlier, key), rows[0].value), ShareAt(rows, key, o))
  {
    PassCons(rows, o, earlier, key);
    OnlyRowOfGroup(rows, o, key);
    AbsentFromPass(rows[1..], o, earlier, key);
    assert Reduce(rows[0], earlier).prev == Coalesce(FindRemaining(earlier, key), rows[0].value);
  }

  /** A pass holds one row of a group that has a control at its order, and none of any other. */
  lemma {:induction false} PassOfGroup(rows: seq<Row>, o: int, earlier: seq<Reduced>, key: Key, v: real)
    requires OnePerOrder(rows) && forall r :: r in rows && r.key == key ==> r.value == v
    ensures PassHolds(ReduceAll(OfOrder(rows, o), earlier), key,
                      Coalesce(FindRemaining(earlier, key), v), ShareAt(rows, key, o))
  {
    if rows != [] {
      assert rows[0] in rows && forall t :: t in rows[1..] ==> t in rows;
      if rows[0].key == key && rows[0].order == o {
        HeadOfGroup(rows, o, earlier, key);
      } else {
        PassCons(rows, o, earlier, key);
        OnePerOrderTail(rows);
        PassOfGroup(rows[1..], o, earlier, key, v);
      }
    }
  }

  /** What pass `i` has left of a group that has a control there. */
  function Left(v: real, shares: seq<Option<real>>, parents: seq<nat>, i: nat): Option<real>
    requires Earlier(shares, parents) && i < |shares|
  {
    if shares[i].Some? then Some(Remaining(v, shares, parents, i)) else None
  }

  function TakenAt(v: real, shares: seq<Option<real>>, parents: seq<nat>, i: nat): real
    requires Earlier(shares, parents) && i < |shares|
  {
    if shares[i].Some? then Before(v, shares, parents, i) - Remaining(v, shares, parents, i) else 0.0
  }

  /** What pass `i` makes of a group, once the pass it looks up is known. */
  lemma PassMatches(v: real, shares: seq<Option<real>>, parents: seq<nat>, i: nat, found: Option<real>, prev: real)
    requires Earlier(shares, parents) && i < |shares| && prev == Coalesce(found, v)
    requires found == if i > 0 then Left(v, shares, parents, parents[i]) else None
    ensures prev == Before(v, shares, parents, i)
    ensures shares[i].Some? ==> Leftover(prev, shares[i].value) == Remaining(v, shares, parents, i)
  {
  }

  lemma TakenStep(v: real, shares: seq<Option<real>>, parents: seq<nat>, i: nat)
    requires Earlier(shares, parents) && i < |shares|
    ensures Taken(v, shares, parents, i) + TakenAt(v, shares, parents, i) == Taken(v, shares, parents, i + 1)
  {
  }

  ghost predicate GroupMatches(passes: seq<seq<Reduced>>, v: real, shares: seq<Option<real>>, parents: seq<nat>,
                               key: Key)
    requires Earlier(shares, parents) && |passes| <= |shares|
  {
    && GroupTaken(Concat(passes), key) == Taken(v, shares, parents, |passes|)
    && forall i :: 0 <= i < |passes| ==> FindRemaining(passes[i], key) == Left(v, shares, parents, i)
  }

  lemma GroupStep(before: seq<seq<Reduced>>, pass: seq<Reduced>, v: real, shares: seq<Option<real>>,
                  parents: seq<nat>, key: Key)
    requires Earlier(shares, parents) && |before| < |shares| && GroupMatches(before, v, shares, parents, key)
    requires FindRemaining(pass, key) == Left(v, shares, parents, |before|)
    requires GroupTaken(pass, key) == TakenAt(v, shares, parents, |before|)
    ensures GroupMatches(before + [pass], v, shares, parents, key)
  {
    assert (before + [pass])[..|before|] == before;
    GroupTakenAppend(Concat(before), pass, key);
    TakenStep(v, shares, parents, |before|);
  }

  /** The pass that the next one looks up. */
  function LookedUp(orders: seq<int>, before: seq<seq<Reduced>>): seq<Reduced>
    requires |before| < |orders|
  {
    if before == [] then [] else before[Parents(orders)[|before|]]
  }

  /** The next pass when its lookup succeeds. */
  function Pass(rows: seq<Row>, orders: seq<int>, before: seq<seq<Reduced>>): seq<Reduced>
    requires |before| < |orders|
  {
    ReduceAll(OfOrder(rows, orders[|before|]), LookedUp(orders, before))
  }

  lemma PassIsNext(rows: seq<Row>, orders: seq<int>, before: seq<seq<Reduced>>, pass: seq<Reduced>)
    requires |before| < |orders| && NextPass(rows, orders, |before|, before) == Some(pass)
    ensures pass == Pass(rows, orders, before)
  {
  }

  lemma PassesEnd(rows: seq<Row>, orders: seq<int>, n: nat) returns (before: seq<seq<Reduced>>, pass: seq<Reduced>)
    requires 0 < n <= |orders| && Passes(rows, orders, n).Some?
    ensures Passes(rows, orders, n - 1) == Some(before) && |before| == n - 1
    ensures NextPass(rows, orders, n - 1, before) == Some(pass)
    ensures Passes(rows, orders, n) == Some(before + [pass])
  {
    before := Passes(rows, orders, n - 1).value;
    pass := NextPass(rows, orders, n - 1, before).value;
  }

  lemma PassesSplit(rows: seq<Row>, orders: seq<int>, n: nat) returns (before: seq<seq<Reduced>>)
    requires 0 < n <= |orders| && Passes(rows, orders, n).Some?
    ensures Passes(rows, orders, n - 1) == Some(before) && |before| == n - 1
    ensures Passes(rows, orders, n) == Some(before + [Pass(rows, orders, before)])
  {
    var pass;
    before, pass := PassesEnd(rows, orders, n);
    PassIsNext(rows, orders, before, pass);
  }

  lemma AnotherPass(rows: seq<Row>, orders: seq<int>, before: seq<seq<Reduced>>, key: Key, v: real)
    requires |before| < |orders| && OnePerOrder(rows)
    requires forall r :: r in rows && r.key == key ==> r.value == v
    requires GroupMatches(before, v, GroupShares(rows, key, orders), Parents(orders), key)
    ensures GroupMatches(before + [Pass(rows, orders, before)], v, GroupShares(rows, key, orders), Parents(orders), key)
  {
    var i, shares, parents := |before|, GroupShares(rows, key, orders), Parents(orders);
    var earlier := LookedUp(orders, before);
    var found := FindRemaining(earlier, key);
    PassOfGroup(rows, orders[i], earlier, key, v);
    PassMatches(v, shares, parents, i, found, Coalesce(found, v));
    GroupStep(before, Pass(rows, orders, before), v, shares, parents, key);
  }

  /** The passes over a table are, group by group, the passes over one load, whatever passes are looked up. */
  lemma {:induction false} PassesOfGroup(rows: seq<Row>, orders: seq<int>, n: nat, key: Key, v: real)
    requires n <= |orders| && Passes(rows, orders, n).Some?
    requires OnePerOrder(rows) && forall r :: r in rows && r.key == key ==> r.value == v
    ensures GroupMatches(Passes(rows, orders, n).value, v, GroupShares(rows, key, orders), Parents(orders), key)
  {
    if n > 0 {
      var before := PassesSplit(rows, orders, n);
      PassesOfGroup(rows, orders, n - 1, key, v);
      AnotherPass(rows, orders, before, key, v);
    }
  }

  /******* The next stage *******/

  /** `apply_tidy_load_reduction`: subtract what was taken from each group, nothing where no control applied. */
  function ApplyTidyLoadReduction(load: seq<Load>, reduced: seq<Reduced>): (next: seq<Load>)
    ensures |next| == |load|
    ensures forall k :: 0 <= k < |load| ==> next[k].key == load[k].key && next[k].subbasin == load[k].subbasin
  {
    seq(|load|, k requires 0 <= k < |load| => load[k].(value := load[k].value - GroupTaken(reduced, load[k].key)))
  }

  predicate PercentsInRange(rows: seq<Row>) {
    forall r :: r in rows ==> 0.0 <= r.percent <= 100.0
  }

  lemma {:induction false} SharesInRange(rows: seq<Row>, key: Key, o: int)
    requires PercentsInRange(rows)
    ensures ShareAt(rows, key, o).Some? ==> 0.0 <= ShareAt(rows, key, o).value <= 1.0
  {
    if rows != [] {
      assert rows[0] in rows;
      SharesInRange(rows[1..], key, o);
    }
  }

  lemma JoinKeepsValue(load: seq<Load>, controls: seq<Control>, direction: Direction, k: nat)
    requires OneRowPerKey(load) && k < |load|
    ensures forall r :: r in Join(load, controls, direction) && r.key == load[k].key ==> r.value == load[k].value
  {
    forall r | r in Join(load, controls, direction) && r.key == load[k].key
      ensures r.value == load[k].value
    {
      JoinRows(load, controls, direction, r);
      var l, c :| l in load && c in controls && Matches(r, l, c, direction);
      var j :| 0 <= j < |load| && load[j] == l;
      assert j == k;
    }
  }

  lemma ProperShares(rows: seq<Row>, key: Key, orders: seq<int>)
    requires PercentsInRange(rows)
    ensures Proper(GroupShares(rows, key, orders))
  {
    forall i | 0 <= i < |orders|
      ensures ShareAt(rows, key, orders[i]).Some? ==> 0.0 <= ShareAt(rows, key, orders[i]).value <= 1.0
    {
      SharesInRange(rows, key, orders[i]);
    }
  }

  /** What is subtracted from a group is what its own controls take off, pass by pass. */
  lemma TakenFromGroup(rows: seq<Row>, key: Key, v: real)
    requires Expected(rows).Computed? && forall r :: r in rows && r.key == key ==> r.value == v
    ensures var orders := SortedOrders(rows);
            GroupTaken(Expected(rows).rows, key) == Taken(v, GroupShares(rows, key, orders), Parents(orders), |orders|)
  {
    PassesOfGroup(rows, SortedOrders(rows), |SortedOrders(rows)|, key, v);
  }

  /** The shares of the controls of one group, by pass. */
  function SharesOf(load: seq<Load>, controls: seq<Control>, direction: Direction, key: Key): seq<Option<real>> {
    var rows := Join(load, controls, direction);
    GroupShares(rows, key, SortedOrders(rows))
  }

  /** The value of load `k` for the next stage. */
  function Next(load: seq<Load>, controls: seq<Control>, direction: Direction, k: nat): real
    requires k < |load| && Expected(Join(load, controls, direction)).Computed?
  {
    ApplyTidyLoadReduction(load, Expected(Join(load, controls, direction)).rows)[k].value
  }

  /** A pass reduces a load of the group from which an earlier reduction is missing. */
  ghost predicate OverlooksCut(load: seq<Load>, controls: seq<Control>, direction: Direction, key: Key) {
    var shares := SharesOf(load, controls, direction, key);
    Overlooked(shares, Parents(SortedOrders(Join(load, controls, direction))), |shares|)
  }

  /**
   * The two stages together, for every load row, whenever the first returns: what is
   * passed on is the load with all controls of its group applied one after another -
   * exactly when the load is zero or no pass of the group overlooks a cut.
   */
  lemma JointReductionExactlyWhen(load: seq<Load>, controls: seq<Control>, direction: Direction, k: nat)
    requires OneRowPerKey(load) && k < |load|
    requires var rows := Join(load, controls, direction); Expected(rows).Computed? && PercentsInRange(rows)
    ensures var shares, v := SharesOf(load, controls, direction, load[k].key), load[k].value;
            var next := Next(load, controls, direction, k);
            var overlooks := OverlooksCut(load, controls, direction, load[k].key);
            && (next == Kept(v, shares, |shares|) <==> v == 0.0 || !overlooks)
            && (v >= 0.0 && !overlooks ==> 0.0 <= next <= v)
  {
    var rows, key, v := Join(load, controls, direction), load[k].key, load[k].value;
    var shares, parents := SharesOf(load, controls, direction, key), Parents(SortedOrders(rows));
    JoinKeepsValue(load, controls, direction, k);
    TakenFromGroup(rows, key, v);
    ProperShares(rows, key, SortedOrders(rows));
    ConservedExactlyWhen(v, shares, parents);
    if v >= 0.0 && !Overlooked(shares, parents, |shares|) {
      LeftoverInRange(v, shares, parents);
    }
  }

  /**
   * Where every pass looks up the one before it, a cut is overlooked exactly when a
   * pass without a control of the group lies between two that reduce it.
   */
  lemma OverlooksCutIffBroken(load: seq<Load>, controls: seq<Control>, direction: Direction, key: Key)
    requires PositionalOrders(SortedOrders(Join(load, controls, direction)))
    ensures OverlooksCut(load, controls, direction, key) <==> Broken(SharesOf(load, controls, direction, key))
  {
    var orders := SortedOrders(Join(load, controls, direction));
    PreviousIffPositional(orders);
    OverlookedIffBroken(SharesOf(load, controls, direction, key));
    assert Parents(orders) == Previous(|orders|);
  }

  /** Two sets of controls that give a group the same percents in another order pass on the same load. */
  lemma OrderOfControlsIsImmaterial(load: seq<Load>, a: seq<Control>, b: seq<Control>, direction: Direction, k: nat)
    requires OneRowPerKey(load) && k < |load|
    requires var rows := Join(load, a, direction); Expected(rows).Computed? && PercentsInRange(rows)
    requires var rows := Join(load, b, direction); Expected(rows).Computed? && PercentsInRange(rows)
    requires !OverlooksCut(load, a, direction, load[k].key) && !OverlooksCut(load, b, direction, load[k].key)
    requires var sa, sb := SharesOf(load, a, direction, load[k].key), SharesOf(load, b, direction, load[k].key);
             multiset(Factors(sa, |sa|)) == multiset(Factors(sb, |sb|))
    ensures Next(load, a, direction, k) == Next(load, b, direction, k)
  {
    JointReductionExactlyWhen(load, a, direction, k);
    JointReductionExactlyWhen(load, b, direction, k);
    KeptPermuted(load[k].value, SharesOf(load, a, direction, load[k].key), SharesOf(load, b, direction, load[k].key));
  }

  lemma {:induction false} NothingTaken(v: real, shares: seq<Option<real>>, parents: seq<nat>, n: nat)
    requires Earlier(shares, parents) && n <= |shares| && forall i :: 0 <= i < |shares| ==> shares[i].None?
    ensures Taken(v, shares, parents, n) == 0.0
  {
    if n > 0 {
      NothingTaken(v, shares, parents, n - 1);
    }
  }

  /** A group without any control keeps its load. */
  lemma UncontrolledLoadKept(load: seq<Load>, controls: seq<Control>, direction: Direction, k: nat)
    requires k < |load|
    requires var rows := Join(load, controls, direction);
             Expected(rows).Computed? && forall r :: r in rows ==> r.key != load[k].key
    ensures Next(load, controls, direction, k) == load[k].value
  {
    var rows, key, v := Join(load, controls, direction), load[k].key, load[k].value;
    var orders := SortedOrders(rows);
    var shares := GroupShares(rows, key, orders);
    TakenFromGroup(rows, key, v);
    forall i | 0 <= i < |shares|
      ensures shares[i].None?
    {
      NoRowNoShare(rows, key, orders[i]);
    }
    NothingTaken(v, shares, Parents(orders), |shares|);
  }

  /******* Percents alone *******/

  /** A load with so many percent of it taken off. */
  function Off(x: real, percent: real): real {
    x * (100.0 - percent) / 100.0
  }

  /** The load with the percent of every control of its group taken off what the others leave. */
  function AfterControls(v: real, rows: seq<Row>, key: Key): real {
    if rows == [] then v
    else
      var rest := AfterControls(v, rows[1..], key);
      if rows[0].key == key then Off(rest, rows[0].percent) else rest
  }

  lemma PercentOff(x: real, percent: real)
    ensures Leftover(x, Share(percent)) == Off(x, percent)
  {
    assert x * (1.0 - percent / 100.0) == x - x * (percent / 100.0);
    assert x * (percent / 100.0) == x * percent / 100.0;
  }

  lemma OrderedAt(orders: seq<int>, o: int) returns (i: nat)
    requires Ascending(orders) && o in orders
    ensures i < |orders| && orders[i] == o && forall j :: 0 <= j < |orders| && j != i ==> orders[j] != o
  {
    i :| 0 <= i < |orders| && orders[i] == o;
  }

  lemma SharesOfOther(rows: seq<Row>, key: Key, orders: seq<int>)
    requires rows != [] && rows[0].key != key
    ensures GroupShares(rows, key, orders) == GroupShares(rows[1..], key, orders)
  {
  }

  lemma SharesOfOneMore(rows: seq<Row>, key: Key, orders: seq<int>, i: nat)
    requires OnePerOrder(rows) && rows != [] && rows[0].key == key
    requires i < |orders| && orders[i] == rows[0].order
    requires forall j :: 0 <= j < |orders| && j != i ==> orders[j] != orders[i]
    ensures GroupShares(rows[1..], key, orders)[i].None?
    ensures GroupShares(rows, key, orders) == GroupShares(rows[1..], key, orders)[i := Some(Share(rows[0].percent))]
  {
    OnlyRowOfGroup(rows, orders[i], key);
    NoRowNoShare(rows[1..], key, orders[i]);
  }

  lemma {:induction false} KeptIsAfterControls(v: real, rows: seq<Row>, key: Key, orders: seq<int>)
    requires OnePerOrder(rows) && Ascending(orders) && forall r :: r in rows ==> r.order in orders
    ensures Kept(v, GroupShares(rows, key, orders), |orders|) == AfterControls(v, rows, key)
  {
    if rows == [] {
      KeptOfNone(v, GroupShares(rows, key, orders), |orders|);
    } else {
      assert rows[0] in rows && forall t :: t in rows[1..] ==> t in rows;
      OnePerOrderTail(rows);
      KeptIsAfterControls(v, rows[1..], key, orders);
      if rows[0].key == key {
        var i := OrderedAt(orders, rows[0].order);
        SharesOfOneMore(rows, key, orders, i);
        KeptInsert(v, GroupShares(rows[1..], key, orders), i, Share(rows[0].percent), |orders|);
        PercentOff(AfterControls(v, rows[1..], key), rows[0].percent);
      } else {
        SharesOfOther(rows, key, orders);
      }
    }
  }

  /**
   * In percents: the next stage gets the load with the percent of each of its controls
   * taken off - exactly when the load is zero or no pass overlooks a cut.
   */
  lemma NextInPercents(load: seq<Load>, controls: seq<Control>, direction: Direction, k: nat)
    requires OneRowPerKey(load) && k < |load|
    requires var rows := Join(load, controls, direction); Expected(rows).Computed? && PercentsInRange(rows)
    ensures Next(load, controls, direction, k)
            == AfterControls(load[k].value, Join(load, controls, direction), load[k].key)
            <==> load[k].value == 0.0 || !OverlooksCut(load, controls, direction, load[k].key)
  {
    var rows := Join(load, controls, direction);
    forall r | r in rows
      ensures r.order in SortedOrders(rows)
    {
      OrdersOccur(rows, r.order);
    }
    JointReductionExactlyWhen(load, controls, direction, k);
    KeptIsAfterControls(load[k].value, rows, load[k].key, SortedOrders(rows));
  }

  /** A group with a control at every order overlooks nothing, whatever the percents. */
  lemma NextOfFullGroup(load: seq<Load>, controls: seq<Control>, direction: Direction, k: nat)
    requires OneRowPerKey(load) && k < |load|
    requires var rows := Join(load, controls, direction); Expected(rows).Computed? && PercentsInRange(rows)
    requires var rows := Join(load, controls, direction);
             && PositionalOrders(SortedOrders(rows))
             && forall r :: r in rows ==> exists t :: t in rows && t.key == load[k].key && t.order == r.order
    ensures Next(load, controls, direction, k)
         == AfterControls(load[k].value, Join(load, controls, direction), load[k].key)
  {
    var rows, key := Join(load, controls, direction), load[k].key;
    var orders := SortedOrders(rows);
    forall i | 0 <= i < |orders|
      ensures GroupShares(rows, key, orders)[i].Some?
    {
      OrdersOccur(rows, orders[i]);
      NoRowNoShare(rows, key, orders[i]);
    }
    OverlooksCutIffBroken(load, controls, direction, key);
    NextInPercents(load, controls, direction, k);
  }

  /** Row `i` is the only one of its group. */
  ghost predicate OnlyRow(rows: seq<Row>, key: Key, i: nat) {
    i < |rows| && rows[i].key == key && forall j :: 0 <= j < |rows| && j != i ==> rows[j].key != key
  }

  lemma {:induction false} AfterNone(v: real, rows: seq<Row>, key: Key)
    requires forall r :: r in rows ==> r.key != key
    ensures AfterControls(v, rows, key) == v
  {
    if rows != [] {
      assert rows[0] in rows;
      AfterNone(v, rows[1..], key);
    }
  }

  lemma {:induction false} AfterOne(v: real, rows: seq<Row>, key: Key, i: nat)
    requires OnlyRow(rows, key, i)
    ensures AfterControls(v, rows, key) == Off(v, rows[i].percent)
  {
    if i == 0 {
      forall r | r in rows[1..]
        ensures r.key != key
      {
        var j :| 0 <= j < |rows[1..]| && rows[1..][j] == r;
        assert rows[j + 1] == r;
      }
      AfterNone(v, rows[1..], key);
    } else {
      assert rows[0].key != key;
      AfterOne(v, rows[1..], key, i - 1);
    }
  }

  lemma {:induction false} OneShare(rows: seq<Row>, key: Key, o: int, i: nat)
    requires OnlyRow(rows, key, i)
    ensures ShareAt(rows, key, o).Some? ==> o == rows[i].order
  {
    if i > 0 {
      assert rows[0].key != key;
      OneShare(rows[1..], key, o, i - 1);
    } else if o != rows[0].order {
      NoRowNoShare(rows[1..], key, o);
      forall r | r in rows[1..]
        ensures !(r.key == key && r.order == o)
      {
        var j :| 0 <= j < |rows[1..]| && rows[1..][j] == r;
        assert rows[j + 1] == r;
      }
    }
  }

  lemma OneControlOverlooksNothing(rows: seq<Row>, key: Key, orders: seq<int>, i: nat)
    requires OnlyRow(rows, key, i) && Ascending(orders)
    ensures !Overlooked(GroupShares(rows, key, orders), Parents(orders), |orders|)
  {
    var shares := GroupShares(rows, key, orders);
    forall j | 0 <= j < |orders| && shares[j].Some?
      ensures orders[j] == rows[i].order
    {
      OneShare(rows, key, orders[j], i);
    }
    OneOverlooksNothing(shares, Parents(orders));
  }

  lemma OneControlOverlooksNoCut(load: seq<Load>, controls: seq<Control>, direction: Direction, rows: seq<Row>,
                                 key: Key, i: nat)
    requires rows == Join(load, controls, direction) && OnlyRow(rows, key, i)
    ensures !OverlooksCut(load, controls, direction, key)
  {
    OneControlOverlooksNothing(rows, key, SortedOrders(rows), i);
  }

  lemma NextOverlookingNothing(load: seq<Load>, controls: seq<Control>, direction: Direction, k: nat, rows: seq<Row>)
    requires OneRowPerKey(load) && k < |load| && rows == Join(load, controls, direction)
    requires Expected(rows).Computed? && PercentsInRange(rows) && !OverlooksCut(load, controls, direction, load[k].key)
    ensures Next(load, controls, direction, k) == AfterControls(load[k].value, rows, load[k].key)
  {
    NextInPercents(load, controls, direction, k);
  }

  /** The one control of a group, at row `i` of the join, takes its percent off, whatever the orders. */
  lemma NextOfOneControl(load: seq<Load>, controls: seq<Control>, direction: Direction, k: nat, rows: seq<Row>, i: nat)
    requires OneRowPerKey(load) && k < |load| && rows == Join(load, controls, direction)
    requires Expected(rows).Computed? && PercentsInRange(rows) && OnlyRow(rows, load[k].key, i)
    ensures Next(load, controls, direction, k) == Off(load[k].value, rows[i].percent)
  {
    OneControlOverlooksNoCut(load, controls, direction, rows, load[k].key, i);
    NextOverlookingNothing(load, controls, direction, k, rows);
    AfterOne(load[k].value, rows, load[k].key, i);
  }

  /** On one load and one control of its subbasin and variable, all the way through both stages. */
  lemma OneLoadOneControl(l: Load, c: Control)
    requires c.subbasin == l.subbasin && c.variable == l.key.variable && 0.0 <= c.percent <= 100.0
    ensures Expected(Join([l], [c], c.direction)).Computed?
    ensures Next([l], [c], c.direction, 0) == l.value * (100.0 - c.percent) / 100.0
  {
    var rows := [Row(l.key, c.order, l.value, c.percent)];
    var none, unmatched := [l][1..], [c][1..];
    assert JoinOne(l, unmatched, c.direction) == [] && Join(none, [c], c.direction) == [];
    assert JoinOne(l, [c], c.direction) == rows;
    assert Join([l], [c], c.direction) == rows;
    assert rows[1..] == [] && SortedOrders(rows) == [c.order];
    FailsExactlyWhen(rows);
    NextOfOneControl([l], [c], c.direction, 0, rows, 0);
  }

  /******* A negative order *******/

  function Halving(order: int): Control {
    Control("s", "Zn", order, Upstream, 50.0)
  }

  lemma HalvingRows(load: seq<Load>, controls: seq<Control>)
    requires load == [Load(Key("n", "e", "Zn"), "s", 100.0)]
    requires |controls| == 3 && controls[0] == Halving(-1) && controls[1] == Halving(0) && controls[2] == Halving(1)
    ensures var key := Key("n", "e", "Zn");
            Join(load, controls, Upstream)
            == [Row(key, -1, 100.0, 50.0), Row(key, 0, 100.0, 50.0), Row(key, 1, 100.0, 50.0)]
  {
    var l := load[0];
    assert Join(load[1..], controls, Upstream) == [];
    assert Join(load, controls, Upstream) == JoinOne(l, controls, Upstream);
    var two := controls[1..];
    var one := two[1..];
    assert one[1..] == [];
    assert JoinOne(l, one, Upstream) == [Row(l.key, 1, 100.0, 50.0)];
    assert JoinOne(l, two, Upstream) == [Row(l.key, 0, 100.0, 50.0)] + JoinOne(l, one, Upstream);
  }

  lemma HalvingOrders(rows: seq<Row>)
    requires |rows| == 3 && rows[0].order == -1 && rows[1].order == 0 && rows[2].order == 1
    ensures SortedOrders(rows) == [-1, 0, 1] && OnePerOrder(rows)
  {
    var two := rows[1..];
    var one := two[1..];
    assert one[1..] == [];
    assert SortedOrders(one) == [1];
    assert SortedOrders(two) == [0, 1];
  }

  lemma HalvingShares(rows: seq<Row>, key: Key)
    requires rows == [Row(key, -1, 100.0, 50.0), Row(key, 0, 100.0, 50.0), Row(key, 1, 100.0, 50.0)]
    ensures GroupShares(rows, key, [-1, 0, 1]) == [Some(0.5), Some(0.5), Some(0.5)]
  {
    var two := rows[1..];
    var one := two[1..];
    assert ShareAt(one, key, 1) == Some(0.5);
    assert ShareAt(two, key, 1) == ShareAt(one, key, 1) && ShareAt(two, key, 0) == Some(0.5);
    assert ShareAt(rows, key, 1) == ShareAt(two, key, 1) && ShareAt(rows, key, 0) == ShareAt(two, key, 0);
    assert ShareAt(rows, key, -1) == Some(0.5);
  }

  /**
   * A negative order can make a pass look up one that is not its predecessor, without
   * failing: three controls of 50 percent with orders -1, 0 and 1 pass on nothing of
   * a load of 100, where 12.5 are due.
   */
  lemma NegativeOrderTakesTooMuch(load: seq<Load>, controls: seq<Control>)
    requires load == [Load(Key("n", "e", "Zn"), "s", 100.0)]
    requires |controls| == 3 && controls[0] == Halving(-1) && controls[1] == Halving(0) && controls[2] == Halving(1)
    ensures Expected(Join(load, controls, Upstream)).Computed?
    ensures Next(load, controls, Upstream, 0) == 0.0
    ensures var shares := SharesOf(load, controls, Upstream, load[0].key); Kept(100.0, shares, |shares|) == 12.5
  {
    var rows, key := Join(load, controls, Upstream), load[0].key;
    HalvingRows(load, controls);
    HalvingOrders(rows);
    FailsExactlyWhen(rows);
    TakenFromGroup(rows, key, 100.0);
    HalvingShares(rows, key);
    assert Parents([-1, 0, 1]) == [0, 0, 0];
    WrongLookupTakesMore();
  }
}
