/** The resampling transforms of `Wave`: block-average downsampling,
    linear-interpolation upsampling and their composition, the low-pass
    filter. */
module Resampler {
  import opened Samples

  // Integer facts about blocks of `k` samples.

  lemma MulAtLeast(a: int, k: int)
    requires a >= 1 && k >= 1
    ensures a * k >= k
    decreases a
  {
    if a > 1 {
      MulAtLeast(a - 1, k);
      assert a * k == (a - 1) * k + k;
    }
  }

  lemma MulMonotone(a: int, b: int, k: int)
    requires a <= b && k >= 1
    ensures a * k <= b * k
  {
    if a < b {
      MulAtLeast(b - a, k);
      assert b * k - a * k == (b - a) * k;
    }
  }

  lemma DivModUnique(n: int, k: int, q: int, r: int)
    requires k >= 1 && 0 <= r < k && n == q * k + r
    ensures n / k == q && n % k == r
  {
    var q', r' := n / k, n % k;
    assert n == q' * k + r' && 0 <= r' < k;
    var d := q' - q;
    assert d * k == r - r';
    if d >= 1 {
      MulAtLeast(d, k);
    } else if d <= -1 {
      MulAtLeast(-d, k);
    }
  }

  lemma DivStep(n: int, k: int)
    requires k >= 1 && n >= k
    ensures (n - k) / k == n / k - 1
  {
    var q, r := (n - k) / k, (n - k) % k;
    assert n - k == q * k + r && 0 <= r < k;
    DivModUnique(n, k, q + 1, r);
  }

  /** The full blocks of `n` samples: `n / k` of them, covering `(n / k) * k`
      samples, which leaves fewer than `k` over. */
  lemma FullBlocks(n: nat, k: nat)
    requires k >= 1
    ensures (n / k) * k <= n < (n / k) * k + k
  {
    DivModUnique(n, k, n / k, n % k);
  }

  /** Block `i` of a buffer lies inside it whenever `i` is below the block count. */
  lemma BlockInside(n: nat, k: nat, i: nat)
    requires k >= 1 && i < n / k
    ensures i * k + k <= n
  {
    FullBlocks(n, k);
    MulMonotone(i + 1, n / k, k);
  }

  /** `Downsample(k)`: the mean of each full block of `k` samples, trailing
      samples that do not fill a block dropped. */
  function Downsample(s: Buffer, k: nat): (r: Buffer)
    requires k >= 1
    ensures |r| == |s| / k
    decreases |s|
  {
    if |s| < k then
      DivModUnique(|s|, k, 0, |s|);
      []
    else
      DivStep(|s|, k);
      [Sum(s[..k]) / (k as real)] + Downsample(s[k..], k)
  }

  /** Block `j` of the tail after one block is block `j + 1` of the whole. */
  lemma TailBlock(s: Buffer, k: nat, j: nat)
    requires k >= 1 && j * k + k <= |s| - k
    ensures (j + 1) * k + k <= |s|
    ensures s[k..][j * k..j * k + k] == s[(j + 1) * k..(j + 1) * k + k]
  {
    assert (j + 1) * k == j * k + k;
  }

  /** Output sample `i` of `Downsample(k)` is the mean of input block
      `[i*k, i*k+k)`. */
  lemma {:induction false} DownsampleMeans(s: Buffer, k: nat)
    requires k >= 1
    ensures forall i :: 0 <= i < |Downsample(s, k)| ==>
      i * k + k <= |s| && Downsample(s, k)[i] == Sum(s[i * k..i * k + k]) / (k as real)
    decreases |s|
  {
    if |s| >= k {
      var r, rest := Downsample(s, k), Downsample(s[k..], k);
      assert r == [Sum(s[..k]) / (k as real)] + rest;
      DownsampleMeans(s[k..], k);
      forall i | 0 <= i < |r|
        ensures i * k + k <= |s| && r[i] == Sum(s[i * k..i * k + k]) / (k as real)
      {
        if i == 0 {
          assert s[..k] == s[0 * k..0 * k + k];
        } else {
          assert r[i] == rest[i - 1];
          TailBlock(s, k, i - 1);
        }
      }
    }
  }

  lemma {:induction false} DropsTailFrom(s: Buffer, k: nat, q: nat)
    requires k >= 1 && q * k <= |s| < q * k + k
    ensures Downsample(s, k) == Downsample(s[..q * k], k)
    decreases q
  {
    if q == 0 {
      assert s[..0] == [];
    } else {
      var m := (q - 1) * k;
      assert q * k == m + k;
      var tail, p := s[k..], s[..q * k];
      DropsTailFrom(tail, k, q - 1);
      assert p[..k] == s[..k];
      assert p[k..] == tail[..m];
    }
  }

  /** Samples after the last full block never influence `Downsample`. */
  lemma DownsampleDropsTail(s: Buffer, k: nat)
    requires k >= 1
    ensures (|s| / k) * k <= |s|
    ensures Downsample(s, k) == Downsample(s[..(|s| / k) * k], k)
  {
    FullBlocks(|s|, k);
    DropsTailFrom(s, k, |s| / k);
  }

  /** Point `j` of `k` on the line from `a` towards `b`: coefficient `j/k`. */
  function Lerp(a: real, b: real, j: nat, k: nat): (x: real)
    requires k >= 1
    ensures j == 0 ==> x == a
    ensures j == k ==> x == b
    ensures j <= k && a <= b ==> a <= x <= b
    ensures j <= k && b <= a ==> b <= x <= a
  {
    var c := (j as real) / (k as real);
    assert 0.0 <= c && (j <= k ==> c <= 1.0);
    ScaleBetween(b - a, c);
    a + (b - a) * c
  }

  /** A fraction `c` in `[0, 1]` of `d` lies between 0 and `d`. */
  lemma ScaleBetween(d: real, c: real)
    requires 0.0 <= c
    ensures c <= 1.0 && d >= 0.0 ==> 0.0 <= d * c <= d
    ensures c <= 1.0 && d <= 0.0 ==> d <= d * c <= 0.0
  {
    if c <= 1.0 && d >= 0.0 {
      assert d - d * c == d * (1.0 - c);
    } else if c <= 1.0 && d <= 0.0 {
      assert d * c - d == (-d) * (1.0 - c);
    }
  }

  /** The `k` points interpolated from `a` towards `b`, with coefficients
      0, 1/k, ..., (k-1)/k; `b` itself is never reached. */
  function Segment(a: real, b: real, k: nat): (seg: Buffer)
    requires k >= 1
    ensures |seg| == k
  {
    seq(k, j requires 0 <= j < k => Lerp(a, b, j, k))
  }

  /** A segment starts at its first end sample, and interpolation never
      overshoots: every point lies between the two end samples. */
  lemma SegmentBetween(a: real, b: real, k: nat, j: nat)
    requires k >= 1 && j < k
    ensures j == 0 ==> Segment(a, b, k)[j] == a
    ensures RealMin(a, b) <= Segment(a, b, k)[j] <= RealMax(a, b)
  {
    assert Segment(a, b, k)[j] == Lerp(a, b, j, k);
  }

  /** Point `j` of the segment that starts at input sample `i`: the segment
      ends at the next sample, or at sample `i` itself for the last one. */
  function Interpolated(s: Buffer, i: nat, j: nat, k: nat): real
    requires i < |s| && k >= 1
  {
    Lerp(s[i], s[Min(i + 1, |s| - 1)], j, k)
  }

  /** Index of point `j` of segment `i` in a buffer of `n` samples
      upsampled by `k`. */
  function Offset(n: nat, i: nat, j: nat, k: nat): (o: nat)
    requires i < n && j < k
    ensures o < n * k
  {
    MulMonotone(i, n - 1, k);
    assert (n - 1) * k + k == n * k;
    i * k + j
  }

  /** `Upsample(k)`: `k` linearly interpolated points per input sample, the
      final segment clamped to the last sample. */
  function Upsample(s: Buffer, k: nat): (r: Buffer)
    requires k >= 1
    ensures |r| == |s| * k
  {
    if |s| == 0 then []
    else if |s| == 1 then Segment(s[0], s[0], k)
    else Segment(s[0], s[1], k) + Upsample(s[1..], k)
  }

  /** Segment `i` of `Upsample(k)`, outputs `[i*k, i*k+k)`, interpolates
      from input sample `i` towards its successor, or towards itself for the
      last sample. */
  lemma {:induction false} UpsampleBlock(s: Buffer, k: nat, i: nat)
    requires k >= 1 && i < |s|
    ensures i * k + k <= |Upsample(s, k)|
    ensures Upsample(s, k)[i * k..i * k + k] == Segment(s[i], s[Min(i + 1, |s| - 1)], k)
    decreases i
  {
    var r := Upsample(s, k);
    if |s| == 1 {
      assert r[0..k] == r;
    } else {
      var seg, rest := Segment(s[0], s[1], k), Upsample(s[1..], k);
      assert r == seg + rest;
      if i == 0 {
        assert r[0..k] == seg;
      } else {
        var lo := (i - 1) * k;
        UpsampleBlock(s[1..], k, i - 1);
        OffsetShift(i, k);
        SliceAfter(seg, rest, lo, k);
        var a, b := s[1..][i - 1], s[1..][Min(i, |s| - 2)];
        assert a == s[i] && b == s[Min(i + 1, |s| - 1)];
        assert rest[lo..lo + k] == Segment(a, b, k);
      }
    }
  }

  lemma OffsetShift(i: nat, k: nat)
    requires i >= 1
    ensures i * k == (i - 1) * k + k
  {
  }

  /** A slice of the tail of a concatenation, shifted by the head's length. */
  lemma SliceAfter(a: Buffer, b: Buffer, lo: nat, n: nat)
    requires lo + n <= |b|
    ensures (a + b)[|a| + lo..|a| + lo + n] == b[lo..lo + n]
  {
  }

  /** Output `i*k + j` of `Upsample(k)` is point `j` of the segment that
      starts at input sample `i`. */
  lemma UpsampleAt(s: Buffer, k: nat, i: nat, j: nat)
    requires k >= 1 && i < |s| && j < k
    ensures Offset(|s|, i, j, k) == i * k + j < |Upsample(s, k)|
    ensures Upsample(s, k)[Offset(|s|, i, j, k)] == Interpolated(s, i, j, k)
  {
    var lo := i * k;
    UpsampleBlock(s, k, i);
    assert Upsample(s, k)[lo + j] == Upsample(s, k)[lo..lo + k][j];
  }

  /** Every input sample reappears at the start of its segment. */
  lemma UpsampleKeepsSamples(s: Buffer, k: nat, i: nat)
    requires k >= 1 && i < |s|
    ensures i * k < |Upsample(s, k)| && Upsample(s, k)[i * k] == s[i]
  {
    UpsampleAt(s, k, i, 0);
  }

  /** The last `k` outputs all equal the last input sample. */
  lemma UpsampleClampsTail(s: Buffer, k: nat, j: nat)
    requires k >= 1 && |s| >= 1 && j < k
    ensures (|s| - 1) * k + j < |Upsample(s, k)|
    ensures Upsample(s, k)[(|s| - 1) * k + j] == s[|s| - 1]
  {
    UpsampleAt(s, k, |s| - 1, j);
  }

  /** The block size of the low-pass filter. */
  const LowPassFactor: nat := 8

  /** `LowPass`: downsample by 8, then upsample by 8. */
  function LowPass(s: Buffer): (r: Buffer)
    ensures |r| == (|s| / LowPassFactor) * LowPassFactor
    ensures |r| <= |s|
  {
    FullBlocks(|s|, LowPassFactor);
    Upsample(Downsample(s, LowPassFactor), LowPassFactor)
  }

  /** At the start of every block the low-pass output is that block's mean. */
  lemma LowPassBlockMeans(s: Buffer, i: nat)
    requires i < |s| / LowPassFactor
    ensures i * 8 + 8 <= |s| && i * 8 < |LowPass(s)|
    ensures LowPass(s)[i * 8] == Sum(s[i * 8..i * 8 + 8]) / 8.0
  {
    var d := Downsample(s, 8);
    DownsampleMeans(s, 8);
    assert i < |d|;
    assert i * 8 + 8 <= |s| && d[i] == Sum(s[i * 8..i * 8 + 8]) / 8.0;
    UpsampleKeepsSamples(d, 8, i);
    assert LowPass(s) == Upsample(d, 8);
  }

  /** `Downsample` for any integer factor, as the class behaves: a factor of
      0 reaches a division by zero, and a negative factor gives a negative
      block count, so no block is produced. */
  function DownsampleBy(s: Buffer, k: int): (r: Result<Buffer>)
    ensures r.Err? <==> k == 0
    ensures r.Err? ==> r.error == DivisionByZero
    ensures k < 0 ==> r == Ok([])
    ensures k >= 1 ==> r.Ok? && |r.value| == |s| / k
    ensures k >= 1 ==> r == Ok(Downsample(s, k))
  {
    if k == 0 then Err(DivisionByZero)
    else if k < 0 then Ok([])
    else Ok(Downsample(s, k))
  }

  /** `Upsample` for any integer factor, as the class behaves: with a factor
      of at most 0 every segment is empty, and the coefficient step, which
      would divide by the factor, is never reached. */
  function UpsampleBy(s: Buffer, k: int): (r: Buffer)
    ensures k <= 0 ==> r == []
    ensures k >= 1 ==> |r| == |s| * k
    ensures k >= 1 ==> r == Upsample(s, k)
  {
    if k <= 0 then [] else Upsample(s, k)
  }

  lemma SumExtend(s: Buffer, lo: nat, hi: nat)
    requires lo <= hi < |s|
    ensures Sum(s[lo..hi + 1]) == Sum(s[lo..hi]) + s[hi]
  {
    var b := s[lo..hi + 1];
    assert b[..|b| - 1] == s[lo..hi];
  }

  /** The nested loop of `Downsample`: for each full block, a running total
      of its samples divided by the factor. */
  method DownsampleLoop(s: Buffer, k: nat) returns (out: Buffer)
    requires k >= 1
    ensures |out| == |s| / k
    ensures forall t :: 0 <= t < |out| ==>
      t * k + k <= |s| && out[t] == Sum(s[t * k..t * k + k]) / (k as real)
    ensures out == Downsample(s, k)
  {
    ghost var full := Downsample(s, k);
    DownsampleMeans(s, k);
    var count := |s| / k;
    out := [];
    var t := 0;
    while t < count
      invariant 0 <= t <= count
      invariant out == full[..t]
    {
      var start := t * k;
      BlockInside(|s|, k, t);
      var total := 0.0;
      var i := start;
      while i < start + k
        invariant start <= i <= start + k
        invariant total == Sum(s[start..i])
      {
        SumExtend(s, start, i);
        total := total + s[i];
        i := i + 1;
      }
      assert full[t] == total / (k as real);
      out := out + [total / (k as real)];
      t := t + 1;
    }
  }

  lemma CoefStep(j: nat, k: nat)
    requires k >= 1
    ensures (j as real) / (k as real) + 1.0 / (k as real) == ((j + 1) as real) / (k as real)
  {
  }

  /** The inner loop of `Upsample`: the coefficient starts at 0 and grows by
      1/k per point, which the loop keeps exactly equal to j/k. */
  method SegmentLoop(start: real, end: real, k: nat) returns (seg: Buffer)
    requires k >= 1
    ensures |seg| == k
    ensures forall j :: 0 <= j < k ==> seg[j] == Lerp(start, end, j, k)
    ensures seg == Segment(start, end, k)
  {
    seg := [];
    var coef := 0.0;
    var j := 0;
    while j < k
      invariant 0 <= j <= k
      invariant |seg| == j
      invariant coef == (j as real) / (k as real)
      invariant forall m :: 0 <= m < j ==> seg[m] == Lerp(start, end, m, k)
    {
      seg := seg + [start + (end - start) * coef];
      CoefStep(j, k);
      coef := coef + 1.0 / (k as real);
      j := j + 1;
    }
    assert forall m :: 0 <= m < k ==> seg[m] == Segment(start, end, k)[m];
  }

  /** The outer loop of `Upsample`: one segment per input sample, from the
      sample towards its successor, or towards itself for the last one. */
  method UpsampleLoop(s: Buffer, k: nat) returns (out: Buffer)
    requires k >= 1
    ensures |out| == |s| * k
    ensures forall i, j :: 0 <= i < |s| && 0 <= j < k ==>
      out[Offset(|s|, i, j, k)] == Interpolated(s, i, j, k)
    ensures out == Upsample(s, k)
  {
    ghost var full := Upsample(s, k);
    out := [];
    var i := 0;
    while i < |s|
      invariant 0 <= i <= |s|
      invariant |out| == i * k
      invariant i * k <= |full| && out == full[..i * k]
    {
      var seg := SegmentLoop(s[i], s[Min(i + 1, |s| - 1)], k);
      UpsampleBlock(s, k, i);
      assert seg == full[i * k..i * k + k];
      assert full[..i * k + k] == full[..i * k] + seg;
      out := out + seg;
      assert (i + 1) * k == i * k + k;
      i := i + 1;
    }
    forall i, j | 0 <= i < |s| && 0 <= j < k
      ensures out[Offset(|s|, i, j, k)] == Interpolated(s, i, j, k)
    {
      UpsampleAt(s, k, i, j);
    }
  }
}
