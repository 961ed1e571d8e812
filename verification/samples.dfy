/** The sample buffer shared by every transform of the `Wave` class: a finite
    sequence of real-valued samples, together with the small helpers the
    transforms are written with and the buffer's one query, its maximum. */
module Samples {

  /** A sample buffer. Samples are exact reals; floating-point rounding is
      not modelled. */
  type Buffer = seq<real>

  /** The ways a transform of the class can fail. */
  datatype WaveError =
    | DivisionByZero   // a resampling factor of 0 reaches PHP's `/`
    | EmptySequence    // PHP's `max` of an empty array

  datatype Result<T> = Ok(value: T) | Err(error: WaveError)

  function Abs(x: real): (r: real)
    ensures r >= 0.0
    ensures r == x || r == -x
  {
    if x < 0.0 then -x else x
  }

  function Min(a: int, b: int): int
  {
    if a <= b then a else b
  }

  function RealMin(a: real, b: real): real
  {
    if a <= b then a else b
  }

  function RealMax(a: real, b: real): real
  {
    if a <= b then b else a
  }

  /** Sum of a buffer, accumulated from left to right as the block loop of
      Downsample does: the sum of all but the last sample, plus the last. It
      agrees with the sum taken from the front. */
  function Sum(s: Buffer): (r: real)
    ensures r == FrontSum(s)
  {
    if |s| == 0 then 0.0
    else
      FrontSumSnoc(s);
      Sum(s[..|s| - 1]) + s[|s| - 1]
  }

  /** The reference sum: the first sample plus the sum of the rest. */
  function FrontSum(s: Buffer): real
  {
    if |s| == 0 then 0.0 else s[0] + FrontSum(s[1..])
  }

  lemma {:induction false} FrontSumSnoc(s: Buffer)
    requires |s| >= 1
    ensures FrontSum(s) == FrontSum(s[..|s| - 1]) + s[|s| - 1]
    decreases |s|
  {
    if |s| > 1 {
      FrontSumSnoc(s[1..]);
      assert s[1..][..|s[1..]| - 1] == s[..|s| - 1][1..];
    }
  }

  /** The sum read from the other end: the first sample plus the sum of the rest. */
  lemma SumFront(s: Buffer)
    requires |s| >= 1
    ensures Sum(s) == s[0] + Sum(s[1..])
  {
  }

  /** `GetMax`: the largest sample of the buffer. PHP's `max` rejects an
      empty array; that is the `EmptySequence` error here. */
  function GetMax(s: Buffer): (r: Result<real>)
    ensures r.Err? <==> |s| == 0
    ensures r.Err? ==> r.error == EmptySequence
    ensures r.Ok? ==> r.value in s
    ensures r.Ok? ==> forall i :: 0 <= i < |s| ==> s[i] <= r.value
  {
    if |s| == 0 then Err(EmptySequence)
    else if |s| == 1 then Ok(s[0])
    else
      var rest := GetMax(s[1..]).value;
      Ok(if rest <= s[0] then s[0] else rest)
  }

  /** The maximum is unique: any member of the buffer that bounds every
      sample is the value `GetMax` returns. */
  lemma GetMaxCharacterized(s: Buffer, m: real)
    requires m in s
    requires forall i :: 0 <= i < |s| ==> s[i] <= m
    ensures GetMax(s) == Ok(m)
  {
    var k :| 0 <= k < |s| && s[k] == m;
    var g := GetMax(s).value;
    var j :| 0 <= j < |s| && s[j] == g;
    assert g <= m && m <= g by {
      assert s[k] <= g;
      assert s[j] <= m;
    }
  }
}
