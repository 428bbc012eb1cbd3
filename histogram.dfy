// The cumulative histogram behind histogram equalization: one entry per raw
// sample value, zeroed, filled with per-value counts, then prefix-summed in
// place from index 2 on.

module Histogram {

  /** Number of histogram entries: samples are 16-bit, so values index [0, 0xFFFF]. */
  const MAX_DEPTH: nat := 0x10000

  /** Every sample is a valid index into a histogram of `n` entries. */
  predicate InRange(s: seq<int>, n: nat)
  {
    forall i :: 0 <= i < |s| ==> 0 <= s[i] < n
  }

  /** Number of samples equal to `v`. */
  function Count(s: seq<int>, v: int): nat
  {
    if s == [] then 0
    else Count(s[..|s| - 1], v) + (if s[|s| - 1] == v then 1 else 0)
  }

  /** Number of samples whose value lies in [lo, hi]. */
  function CountBetween(s: seq<int>, lo: int, hi: int): nat
  {
    if s == [] then 0
    else CountBetween(s[..|s| - 1], lo, hi) + (if lo <= s[|s| - 1] <= hi then 1 else 0)
  }

  /** Number of samples that carry a depth (nonzero). */
  function NonzeroCount(s: seq<int>): nat
  {
    if s == [] then 0
    else NonzeroCount(s[..|s| - 1]) + (if s[|s| - 1] != 0 then 1 else 0)
  }

  /**
    * The histogram both builders leave behind, in closed form: entry 0 is the
    * number of zero samples, entry v >= 1 the number of samples in [1, v].
    * Zero samples are counted at index 0 and nowhere else.
    */
  function Cumulative(s: seq<int>, n: nat): seq<int>
  {
    seq(n, v => if v == 0 then Count(s, 0) else CountBetween(s, 1, v))
  }

  /** C's `(int)` conversion of a float: truncation toward zero. */
  function TruncateToInt(x: real): (t: int)
    ensures 0.0 <= x ==> t as real <= x < t as real + 1.0
    ensures x < 0.0 ==> t as real - 1.0 < x <= t as real
  {
    if x >= 0.0 then x.Floor else -((-x).Floor)
  }

  /** Disparity samples after the `(int)` conversion the builder applies to each. */
  function Truncated(s: seq<real>): seq<int>
  {
    seq(|s|, i requires 0 <= i < |s| => TruncateToInt(s[i]))
  }

  // ---------------------------------------------------------------------------
  // Counting facts

  lemma {:induction false} CountBetweenEmpty(s: seq<int>, lo: int, hi: int)
    requires hi < lo
    ensures CountBetween(s, lo, hi) == 0
  {
    if s != [] {
      CountBetweenEmpty(s[..|s| - 1], lo, hi);
    }
  }

  /** Widening the range by its upper end adds exactly the samples equal to that end. */
  lemma {:induction false} CountBetweenStep(s: seq<int>, lo: int, hi: int)
    requires lo <= hi
    ensures CountBetween(s, lo, hi) == CountBetween(s, lo, hi - 1) + Count(s, hi)
  {
    if s != [] {
      CountBetweenStep(s[..|s| - 1], lo, hi);
    }
  }

  lemma {:induction false} CountBetweenMonotone(s: seq<int>, lo: int, hi1: int, hi2: int)
    requires hi1 <= hi2
    ensures CountBetween(s, lo, hi1) <= CountBetween(s, lo, hi2)
  {
    if s != [] {
      CountBetweenMonotone(s[..|s| - 1], lo, hi1, hi2);
    }
  }

  /** A value that occurs in the samples is counted at least once. */
  lemma {:induction false} CountOccurring(s: seq<int>, v: int)
    requires v in s
    ensures Count(s, v) >= 1
  {
    var last := s[|s| - 1];
    if last != v {
      assert s == s[..|s| - 1] + [last];
      CountOccurring(s[..|s| - 1], v);
    }
  }

  /** When all samples are below `n`, the range [1, n-1] holds exactly the nonzero ones. */
  lemma {:induction false} CountBetweenAllNonzero(s: seq<int>, n: nat)
    requires InRange(s, n)
    ensures CountBetween(s, 1, n - 1) == NonzeroCount(s)
  {
    if s != [] {
      CountBetweenAllNonzero(s[..|s| - 1], n);
    }
  }

  /** Without zero samples, every sample is nonzero. */
  lemma {:induction false} NonzeroCountNoZeros(s: seq<int>)
    requires 0 !in s
    ensures NonzeroCount(s) == |s|
  {
    if s != [] {
      assert s[|s| - 1] in s;
      assert forall x | x in s[..|s| - 1] :: x in s;
      NonzeroCountNoZeros(s[..|s| - 1]);
    }
  }

  // ---------------------------------------------------------------------------
  // Properties of the cumulative histogram

  /** The cumulative entries [1, n) never decrease. */
  lemma CumulativeMonotone(s: seq<int>, n: nat, v1: int, v2: int)
    requires 1 <= v1 <= v2 < n
    ensures Cumulative(s, n)[v1] <= Cumulative(s, n)[v2]
  {
    CountBetweenMonotone(s, 1, v1, v2);
  }

  /**
    * The last entry, the divisor of the equalized position, is the number of
    * nonzero samples: all of them when the frame has no zero sample.
    */
  lemma {:induction false} CumulativeLast(s: seq<int>, n: nat)
    requires n >= 2 && InRange(s, n)
    ensures Cumulative(s, n)[n - 1] == NonzeroCount(s)
    ensures 0 !in s ==> Cumulative(s, n)[n - 1] == |s|
  {
    CountBetweenAllNonzero(s, n);
    if 0 !in s {
      NonzeroCountNoZeros(s);
    }
  }

  /** A nonzero sample's entry lies in [1, last entry]: the equalized divisor is never zero. */
  lemma CumulativeBounds(s: seq<int>, n: nat, d: int)
    requires 0 < d < n && d in s
    ensures 1 <= Cumulative(s, n)[d] <= Cumulative(s, n)[n - 1]
  {
    CountOccurring(s, d);
    CountBetweenStep(s, 1, d);
    CountBetweenMonotone(s, 1, d, n - 1);
  }

  /** A larger value that occurs in the samples has a strictly larger entry. */
  lemma CumulativeStrict(s: seq<int>, n: nat, d1: int, d2: int)
    requires 1 <= d1 < d2 < n && d2 in s
    ensures Cumulative(s, n)[d1] < Cumulative(s, n)[d2]
  {
    CountOccurring(s, d2);
    CountBetweenStep(s, 1, d2);
    CountBetweenMonotone(s, 1, d1, d2 - 1);
  }

  /** One more sample raises entry 0 if it is zero, and entry v >= 1 iff it lies in [1, v]. */
  lemma CumulativeAppend(s: seq<int>, x: int, n: nat, v: int)
    requires 0 <= v < n
    ensures Cumulative(s + [x], n)[v]
         == Cumulative(s, n)[v] + (if (v == 0 && x == 0) || (1 <= x <= v) then 1 else 0)
  {
    var t := s + [x];
    assert t[..|t| - 1] == s && t[|t| - 1] == x;
    if v == 0 {
      assert Count(t, 0) == Count(s, 0) + (if x == 0 then 1 else 0);
    } else {
      assert CountBetween(t, 1, v) == CountBetween(s, 1, v) + (if 1 <= x <= v then 1 else 0);
    }
  }

  /** Samples [0, 1, 1, 2]: one zero, two samples in [1, 1], three in [1, 2] and in [1, 0xFFFF]. */
  lemma WorkedExample()
    ensures Cumulative([0, 1, 1, 2], MAX_DEPTH)[0] == 1
    ensures Cumulative([0, 1, 1, 2], MAX_DEPTH)[1] == 2
    ensures Cumulative([0, 1, 1, 2], MAX_DEPTH)[2] == 3
    ensures Cumulative([0, 1, 1, 2], MAX_DEPTH)[MAX_DEPTH - 1] == 3
  {
    var s1, s2, s3, s := [0], [0, 1], [0, 1, 1], [0, 1, 1, 2];
    assert s1[..0] == [] && s2[..1] == s1 && s3[..2] == s2 && s[..3] == s3;
    assert Count(s1, 0) == 1 && Count(s2, 0) == 1 && Count(s3, 0) == 1 && Count(s, 0) == 1;
    assert CountBetween(s1, 1, 1) == 0 && CountBetween(s2, 1, 1) == 1;
    assert CountBetween(s3, 1, 1) == 2 && CountBetween(s, 1, 1) == 2;
    assert CountBetween(s1, 1, 2) == 0 && CountBetween(s2, 1, 2) == 1;
    assert CountBetween(s3, 1, 2) == 2 && CountBetween(s, 1, 2) == 3;
    assert NonzeroCount(s1) == 0 && NonzeroCount(s2) == 1 && NonzeroCount(s3) == 2 && NonzeroCount(s) == 3;
    CumulativeLast(s, MAX_DEPTH);
  }

  // ---------------------------------------------------------------------------
  // The two builders

  /** Extending a prefix by one sample raises the count of that sample's value only. */
  lemma CountPrefixStep(s: seq<int>, k: nat, v: int)
    requires k < |s|
    ensures Count(s[..k + 1], v) == Count(s[..k], v) + (if s[k] == v then 1 else 0)
  {
    assert s[..k + 1][..k] == s[..k];
  }

  /**
    * Builds the cumulative histogram of a 16-bit depth frame of `w * h` samples
    * into `hist`, overwriting all of it.
    */
  method UpdateHistogram(hist: array<int>, depth: seq<int>, w: nat, h: nat)
    requires hist.Length >= 2
    requires |depth| == w * h && InRange(depth, hist.Length)
    modifies hist
    ensures hist[..] == Cumulative(depth, hist.Length)
  {
    var n := hist.Length;
    forall v | 0 <= v < n {
      hist[v] := 0;
    }
    var count := w * h;
    var i := 0;
    while i < count
      invariant 0 <= i <= count
      invariant forall v :: 0 <= v < n ==> hist[v] == Count(depth[..i], v)
    {
      CountPrefixStep(depth, i, depth[i]);
      forall v | 0 <= v < n && v != depth[i] ensures Count(depth[..i + 1], v) == Count(depth[..i], v) {
        CountPrefixStep(depth, i, v);
      }
      hist[depth[i]] := hist[depth[i]] + 1;
      i := i + 1;
    }
    assert depth[..count] == depth;
    CountBetweenStep(depth, 1, 1);
    CountBetweenEmpty(depth, 1, 0);
    i := 2;
    while i < n
      invariant 2 <= i <= n
      invariant hist[0] == Count(depth, 0)
      invariant forall v :: 1 <= v < i ==> hist[v] == CountBetween(depth, 1, v)
      invariant forall v :: i <= v < n ==> hist[v] == Count(depth, v)
    {
      CountBetweenStep(depth, 1, i);
      hist[i] := hist[i] + hist[i - 1];
      i := i + 1;
    }
  }

  /**
    * Builds the cumulative histogram of a 32-bit float disparity frame: each
    * sample is truncated toward zero and the integer used as the index.
    */
  method UpdateDisparityHistogram(hist: array<int>, disparity: seq<real>, w: nat, h: nat)
    requires hist.Length >= 2
    requires |disparity| == w * h && InRange(Truncated(disparity), hist.Length)
    modifies hist
    ensures hist[..] == Cumulative(Truncated(disparity), hist.Length)
  {
    var n := hist.Length;
    ghost var t := Truncated(disparity);
    forall v | 0 <= v < n {
      hist[v] := 0;
    }
    var count := w * h;
    var i := 0;
    while i < count
      invariant 0 <= i <= count
      invariant forall v :: 0 <= v < n ==> hist[v] == Count(t[..i], v)
    {
      var d := TruncateToInt(disparity[i]);
      assert d == t[i];
      CountPrefixStep(t, i, d);
      forall v | 0 <= v < n && v != d ensures Count(t[..i + 1], v) == Count(t[..i], v) {
        CountPrefixStep(t, i, v);
      }
      hist[d] := hist[d] + 1;
      i := i + 1;
    }
    assert t[..count] == t;
    CountBetweenStep(t, 1, 1);
    CountBetweenEmpty(t, 1, 0);
    i := 2;
    while i < n
      invariant 2 <= i <= n
      invariant hist[0] == Count(t, 0)
      invariant forall v :: 1 <= v < i ==> hist[v] == CountBetween(t, 1, v)
      invariant forall v :: i <= v < n ==> hist[v] == Count(t, v)
    {
      CountBetweenStep(t, 1, i);
      hist[i] := hist[i] + hist[i - 1];
      i := i + 1;
    }
  }
}
