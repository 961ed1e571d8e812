/** The length-preserving filters of `Wave`: the halved first difference
    (`HighPass`) and full-wave rectification (`Rectify`). */
module Filters {
  import opened Samples

  /** `HighPass`: half the difference of each sample and its successor, the
      last sample, which has no successor, mapped to 0. The sign (current
      minus next) is the class's own convention. */
  function HighPass(s: Buffer): (r: Buffer)
    requires |s| >= 1
    ensures |r| == |s|
    ensures r[|s| - 1] == 0.0
    ensures forall i :: 0 <= i < |s| - 1 ==> r[i] == (s[i] - s[i + 1]) / 2.0
  {
    if |s| == 1 then [0.0] else [(s[0] - s[1]) / 2.0] + HighPass(s[1..])
  }

  /** The outputs telescope: together they add up to half the drop from
      the first sample to the last. */
  lemma {:induction false} HighPassTelescopes(s: Buffer)
    requires |s| >= 1
    ensures Sum(HighPass(s)) == (s[0] - s[|s| - 1]) / 2.0
    decreases |s|
  {
    var h := HighPass(s);
    if |s| == 1 {
      assert h == [0.0];
      assert h[..0] == [];
    } else {
      HighPassTelescopes(s[1..]);
      SumFront(h);
      assert h[1..] == HighPass(s[1..]);
    }
  }

  /** The array the class actually builds in `HighPass`, as PHP's key-to-value
      map: keys `0 .. |s|-2` from the loop, then key `|s|-1` set to 0. For an
      empty buffer that final write lands on key -1, so the result is not
      empty; for any other buffer it is exactly the list `HighPass(s)`. */
  method HighPassArray(s: Buffer) returns (a: map<int, real>)
    ensures |s| == 0 ==> a == map[-1 := 0.0]
    ensures |s| >= 1 ==> forall i :: i in a <==> 0 <= i < |s|
    ensures |s| >= 1 ==> forall i :: 0 <= i < |s| ==> a[i] == HighPass(s)[i]
  {
    a := map[];
    var i := 0;
    while i < |s| - 1
      invariant 0 <= i
      invariant |s| >= 1 ==> i <= |s| - 1
      invariant |s| == 0 ==> i == 0
      invariant forall j :: j in a <==> 0 <= j < i
      invariant forall j :: 0 <= j < i ==> a[j] == (s[j] - s[j + 1]) / 2.0
    {
      a := a[i := (s[i] - s[i + 1]) / 2.0];
      i := i + 1;
    }
    a := a[|s| - 1 := 0.0];
    if |s| >= 1 {
      var h := HighPass(s);
      forall j | 0 <= j < |s|
        ensures a[j] == h[j]
      {
        if j < |s| - 1 {
          assert a[j] == (s[j] - s[j + 1]) / 2.0;
        }
      }
    }
  }

  /** `Rectify`: the absolute value of every sample. */
  function Rectify(s: Buffer): (r: Buffer)
    ensures |r| == |s|
    ensures forall i :: 0 <= i < |s| ==> r[i] == Abs(s[i])
  {
    if |s| == 0 then [] else [Abs(s[0])] + Rectify(s[1..])
  }

  /** Rectified samples are never negative, and each has the magnitude of
      its input. */
  lemma RectifyNonnegative(s: Buffer, i: nat)
    requires i < |s|
    ensures Rectify(s)[i] >= 0.0
    ensures Rectify(s)[i] == s[i] || Rectify(s)[i] == -s[i]
  {
  }

  /** Rectifying twice is rectifying once. */
  lemma RectifyIdempotent(s: Buffer)
    ensures Rectify(Rectify(s)) == Rectify(s)
  {
    var once := Rectify(s);
    assert forall i :: 0 <= i < |once| ==> Rectify(once)[i] == once[i];
  }

  /** Rectification commutes with taking a prefix, so the magnitudes of the
      first `n` samples are the first `n` rectified samples. */
  lemma RectifyPrefix(s: Buffer, n: nat)
    requires n <= |s|
    ensures Rectify(s[..n]) == Rectify(s)[..n]
  {
  }
}
