/**
 * PROMETHEE II (`decision_support/prom.py`, `decision_support/util.py`): pairwise
 * preference flows, accumulated chunk by chunk, weighted and rescaled.
 */
module Promethee {
  import opened Preferences

  /******* Sums *******/

  function Total(s: seq<real>): real {
    if s == [] then 0.0 else Total(s[..|s| - 1]) + s[|s| - 1]
  }

  /** The preference of `x` over the values of `a`, summed. */
  function Gain(f: Preference, a: seq<real>, x: real): real {
    if a == [] then 0.0 else Gain(f, a[..|a| - 1], x) + Prefer(f, x - a[|a| - 1])
  }

  /** The preference of the values of `a` over `x`, summed. */
  function Loss(f: Preference, a: seq<real>, x: real): real {
    if a == [] then 0.0 else Loss(f, a[..|a| - 1], x) + Prefer(f, a[|a| - 1] - x)
  }

  lemma {:induction false} GainAppend(f: Preference, a: seq<real>, b: seq<real>, x: real)
    ensures Gain(f, a + b, x) == Gain(f, a, x) + Gain(f, b, x)
    ensures Loss(f, a + b, x) == Loss(f, a, x) + Loss(f, b, x)
    decreases |b|
  {
    if b == [] {
      assert a + b == a;
    } else {
      assert (a + b)[..|a + b| - 1] == a + b[..|b| - 1];
      GainAppend(f, a, b[..|b| - 1], x);
    }
  }

  lemma {:induction false} TotalUpdate(s: seq<real>, k: nat, v: real)
    requires k < |s|
    ensures Total(s[k := s[k] + v]) == Total(s) + v
    decreases |s|
  {
    var n := |s| - 1;
    if k < n {
      assert s[k := s[k] + v][..n] == s[..n][k := s[..n][k] + v];
      TotalUpdate(s[..n], k, v);
    } else {
      assert s[k := s[k] + v][..n] == s[..n];
    }
  }

  lemma {:induction false} TotalZero(s: seq<real>)
    requires forall k :: 0 <= k < |s| ==> s[k] == 0.0
    ensures Total(s) == 0.0
    decreases |s|
  {
    if s != [] {
      TotalZero(s[..|s| - 1]);
    }
  }

  /******* Chunks *******/

  /** `numpy.array_split(array, numpy.arange(chunksize, N, chunksize))`. */
  function Chunks(a: seq<real>, chunksize: nat): (chunks: seq<seq<real>>)
    requires chunksize >= 1
    decreases |a|
  {
    if |a| <= chunksize then [a] else [a[..chunksize]] + Chunks(a[chunksize..], chunksize)
  }

  function Flatten(chunks: seq<seq<real>>): seq<real> {
    if chunks == [] then [] else Flatten(chunks[..|chunks| - 1]) + chunks[|chunks| - 1]
  }

  lemma {:induction false} FlattenPrepend(c: seq<real>, chunks: seq<seq<real>>)
    ensures Flatten([c] + chunks) == c + Flatten(chunks)
    decreases |chunks|
  {
    if chunks == [] {
      assert [c] + chunks == [c] && [c][..0] == [];
    } else {
      assert ([c] + chunks)[..|chunks|] == [c] + chunks[..|chunks| - 1];
      FlattenPrepend(c, chunks[..|chunks| - 1]);
    }
  }

  lemma {:induction false} ChunksFlatten(a: seq<real>, chunksize: nat)
    requires chunksize >= 1
    ensures Flatten(Chunks(a, chunksize)) == a
    decreases |a|
  {
    if |a| <= chunksize {
      assert [a][..0] == [];
    } else {
      ChunksFlatten(a[chunksize..], chunksize);
      FlattenPrepend(a[..chunksize], Chunks(a[chunksize..], chunksize));
    }
  }

  /** Every chunk but the last has the chunk size; the last has the rest, and is empty for an empty array only. */
  lemma {:induction false} ChunkSizes(a: seq<real>, chunksize: nat, j: nat)
    requires chunksize >= 1 && j < |Chunks(a, chunksize)|
    ensures j < |Chunks(a, chunksize)| - 1 ==> |Chunks(a, chunksize)[j]| == chunksize
    ensures j == |Chunks(a, chunksize)| - 1 ==>
              |Chunks(a, chunksize)[j]| <= chunksize && (a != [] ==> |Chunks(a, chunksize)[j]| >= 1)
    decreases |a|
  {
    if |a| > chunksize && j > 0 {
      ChunkSizes(a[chunksize..], chunksize, j - 1);
    }
  }

  /** The window of chunk number `j`, placed at `j` and not at the offset of the chunk, stays inside the array. */
  lemma {:induction false} WindowInBounds(a: seq<real>, chunksize: nat, j: nat)
    requires chunksize >= 1 && j < |Chunks(a, chunksize)|
    ensures j + |Chunks(a, chunksize)[j]| <= |a|
    decreases |a|
  {
    if |a| > chunksize && j > 0 {
      WindowInBounds(a[chunksize..], chunksize, j - 1);
    }
  }

  /******* The engine *******/

  /** `array / divisor`, element by element. */
  method DivideAll(x: array<real>, divisor: real)
    requires divisor != 0.0
    modifies x
    ensures forall k :: 0 <= k < x.Length ==> x[k] == old(x[k]) / divisor
  {
    for i := 0 to x.Length
      invariant forall k :: 0 <= k < i ==> x[k] == old(x[k]) / divisor
      invariant forall k :: i <= k < x.Length ==> x[k] == old(x[k])
    {
      x[i] := x[i] / divisor;
    }
  }

  lemma FlattenOneMore(chunks: seq<seq<real>>, j: nat)
    requires j < |chunks|
    ensures Flatten(chunks[..j + 1]) == Flatten(chunks[..j]) + chunks[j]
  {
    assert chunks[..j + 1][..j] == chunks[..j];
  }

  /** `splits[j : j + n] += fxn(diff, q, p)`, with the difference taken forwards or backwards. */
  method AddToWindow(splits: array<real>, j: nat, arr: seq<real>, f: Preference, c: real, forwards: bool)
    requires j + |arr| <= splits.Length
    modifies splits
    ensures Total(splits[..]) == old(Total(splits[..])) + (if forwards then Gain(f, arr, c) else Loss(f, arr, c))
  {
    for k := 0 to |arr|
      invariant Total(splits[..]) ==
                old(Total(splits[..])) + (if forwards then Gain(f, arr[..k], c) else Loss(f, arr[..k], c))
    {
      var v := Prefer(f, if forwards then c - arr[k] else arr[k] - c);
      ghost var before := splits[..];
      splits[j + k] := splits[j + k] + v;
      assert splits[..] == before[j + k := before[j + k] + v];
      TotalUpdate(before, j + k, v);
      assert arr[..k + 1][..k] == arr[..k];
    }
    assert arr[..|arr|] == arr;
  }

  /** What one chunk adds to the two accumulators. */
  method AddChunk(splitsPlus: array<real>, splitsMinus: array<real>, j: nat, arr: seq<real>, f: Preference, c: real)
    requires splitsPlus != splitsMinus && j + |arr| <= splitsPlus.Length && j + |arr| <= splitsMinus.Length
    modifies splitsPlus, splitsMinus
    ensures Total(splitsPlus[..]) == old(Total(splitsPlus[..])) + Gain(f, arr, c)
    ensures Total(splitsMinus[..]) == old(Total(splitsMinus[..])) + Loss(f, arr, c)
  {
    AddToWindow(splitsPlus, j, arr, f, c, true);
    AddToWindow(splitsMinus, j, arr, f, c, false);
  }

  /** One pass over the chunks for the value `c`: both accumulators and their sums. */
  method ChunkedSum(a: seq<real>, chunks: seq<seq<real>>, f: Preference, chunksize: nat, c: real)
      returns (flowPlus: real, flowMinus: real)
    requires chunksize >= 1 && chunks == Chunks(a, chunksize)
    ensures flowPlus == Gain(f, a, c) && flowMinus == Loss(f, a, c)
  {
    ChunksFlatten(a, chunksize);
    var splitsPlus, splitsMinus := new real[|a|](_ => 0.0), new real[|a|](_ => 0.0);
    TotalZero(splitsPlus[..]);
    TotalZero(splitsMinus[..]);
    for j := 0 to |chunks|
      invariant Total(splitsPlus[..]) == Gain(f, Flatten(chunks[..j]), c)
      invariant Total(splitsMinus[..]) == Loss(f, Flatten(chunks[..j]), c)
    {
      WindowInBounds(a, chunksize, j);
      AddChunk(splitsPlus, splitsMinus, j, chunks[j], f, c);
      GainAppend(f, Flatten(chunks[..j]), chunks[j], c);
      FlattenOneMore(chunks, j);
    }
    assert chunks[..|chunks|] == chunks;
    flowPlus, flowMinus := Total(splitsPlus[..]), Total(splitsMinus[..]);
  }

  /**
   * `unicriterion_flow`.  The windows of successive chunks overlap, so the slots of
   * `splits` mix unrelated differences; their sum is still the plain sum over all
   * alternatives, for every chunk size.
   */
  method UnicriterionFlow(a: array<real>, f: Preference, chunksize: nat)
      returns (plus: array<real>, minus: array<real>)
    requires a.Length >= 2 && chunksize >= 1
    ensures fresh(plus) && fresh(minus) && plus.Length == minus.Length == a.Length
    ensures forall i :: 0 <= i < a.Length ==> plus[i] == Gain(f, a[..], a[i]) / (a.Length - 1) as real
    ensures forall i :: 0 <= i < a.Length ==> minus[i] == Loss(f, a[..], a[i]) / (a.Length - 1) as real
  {
    var n, s := a.Length, a[..];
    plus, minus := new real[n](_ => 0.0), new real[n](_ => 0.0);
    var chunks := Chunks(s, chunksize);
    for i := 0 to n
      invariant forall k :: i <= k < n ==> plus[k] == minus[k] == 0.0
      invariant forall k :: 0 <= k < i ==> plus[k] == Gain(f, s, s[k]) && minus[k] == Loss(f, s, s[k])
    {
      var flowPlus, flowMinus := ChunkedSum(s, chunks, f, chunksize, a[i]);
      plus[i] := plus[i] + flowPlus;
      minus[i] := minus[i] + flowMinus;
    }
    DivideAll(plus, (n - 1) as real);
    DivideAll(minus, (n - 1) as real);
  }
}
