/** The envelope follower of `Wave`: one left-to-right pass carrying a single
    accumulator that rises towards larger magnitudes at rate `resp` and
    otherwise decays by the factor `damp`. */
module EnvelopeFollower {
  import opened Samples
  import opened Filters

  /** One step of the follower from envelope value `e` on sample `x`: a
      magnitude above the envelope closes the fraction `resp` of the gap,
      anything else scales the envelope by `damp`. */
  function Step(e: real, x: real, resp: real, damp: real): (e': real)
    ensures Abs(x) > e ==> e' - e == resp * (Abs(x) - e)
    ensures Abs(x) <= e ==> e' == e * damp
  {
    if Abs(x) > e then
      assert (1.0 - resp) * e + resp * Abs(x) - e == resp * (Abs(x) - e);
      (1.0 - resp) * e + resp * Abs(x)
    else e * damp
  }

  /** The follower started from envelope value `e`: each output is the value
      after that sample's step, and the next step starts from it. */
  function Follow(e: real, s: Buffer, resp: real, damp: real): (out: Buffer)
    ensures |out| == |s|
    ensures |s| > 0 ==> out[0] == Step(e, s[0], resp, damp)
    ensures forall i :: 0 < i < |s| ==> out[i] == Step(out[i - 1], s[i], resp, damp)
    decreases |s|
  {
    if |s| == 0 then []
    else
      var e' := Step(e, s[0], resp, damp);
      [e'] + Follow(e', s[1..], resp, damp)
  }

  /** `Envelope(resp, damp)`: the follower started from 0. */
  function Envelope(s: Buffer, resp: real, damp: real): (out: Buffer)
    ensures |out| == |s|
    ensures |s| > 0 ==> out[0] == Step(0.0, s[0], resp, damp)
    ensures forall i :: 0 < i < |s| ==> out[i] == Step(out[i - 1], s[i], resp, damp)
  {
    Follow(0.0, s, resp, damp)
  }

  /** The envelope value the step for sample `i` starts from. */
  function Before(s: Buffer, resp: real, damp: real, i: nat): real
    requires i < |s|
  {
    if i == 0 then 0.0 else Envelope(s, resp, damp)[i - 1]
  }

  /** The loop of `Envelope`: a single accumulator, updated in place and
      recorded after every sample. */
  method EnvelopeLoop(s: Buffer, resp: real, damp: real) returns (out: Buffer)
    ensures |out| == |s|
    ensures forall i :: 0 <= i < |s| ==>
      out[i] == Step(if i == 0 then 0.0 else out[i - 1], s[i], resp, damp)
    ensures out == Envelope(s, resp, damp)
  {
    ghost var full := Envelope(s, resp, damp);
    out := [];
    var value := 0.0;
    var i := 0;
    while i < |s|
      invariant 0 <= i <= |s|
      invariant out == full[..i]
      invariant value == if i == 0 then 0.0 else full[i - 1]
    {
      assert full[i] == Step(value, s[i], resp, damp);
      var magnitude := Abs(s[i]);
      if magnitude > value {
        value := (1.0 - resp) * value + resp * magnitude;
      } else {
        value := value * damp;
      }
      assert value == full[i];
      assert full[..i + 1] == full[..i] + [full[i]];
      out := out + [value];
      i := i + 1;
    }
  }

  lemma StepNonnegative(e: real, x: real, resp: real, damp: real)
    requires e >= 0.0 && 0.0 <= resp <= 1.0 && damp >= 0.0
    ensures Step(e, x, resp, damp) >= 0.0
  {
    assert (1.0 - resp) * e >= 0.0;
    assert resp * Abs(x) >= 0.0;
    assert e * damp >= 0.0;
  }

  /** With `0 <= resp <= 1` and `damp >= 0` the envelope is never negative. */
  lemma {:induction false} EnvelopeNonnegative(s: Buffer, resp: real, damp: real, i: nat)
    requires 0.0 <= resp <= 1.0 && damp >= 0.0
    requires i < |s|
    ensures Envelope(s, resp, damp)[i] >= 0.0
    decreases i
  {
    if i > 0 {
      EnvelopeNonnegative(s, resp, damp, i - 1);
    }
    StepNonnegative(Before(s, resp, damp, i), s[i], resp, damp);
  }

  /** A step never overshoots: it ends at or below the larger of the value it
      starts from and the new magnitude. */
  lemma StepBelowPeak(e: real, x: real, resp: real, damp: real)
    requires e >= 0.0 && 0.0 <= resp <= 1.0 && 0.0 <= damp <= 1.0
    ensures Step(e, x, resp, damp) <= e || Step(e, x, resp, damp) <= Abs(x)
  {
    var m := Abs(x);
    if m > e {
      assert m - ((1.0 - resp) * e + resp * m) == (1.0 - resp) * (m - e);
      MulNonnegative(1.0 - resp, m - e);
    } else {
      assert e - e * damp == e * (1.0 - damp);
      MulNonnegative(e, 1.0 - damp);
    }
  }

  lemma MulNonnegative(a: real, b: real)
    requires a >= 0.0 && b >= 0.0
    ensures a * b >= 0.0
  {
  }

  /** With `0 <= resp <= 1` and `0 <= damp <= 1` every output is at most the
      magnitude of some sample seen so far. */
  lemma {:induction false} EnvelopeBelowPeak(s: Buffer, resp: real, damp: real, i: nat)
    requires 0.0 <= resp <= 1.0 && 0.0 <= damp <= 1.0
    requires i < |s|
    ensures exists j :: 0 <= j <= i && Envelope(s, resp, damp)[i] <= Abs(s[j])
    decreases i
  {
    var out := Envelope(s, resp, damp);
    if i == 0 {
      StepBelowPeak(0.0, s[0], resp, damp);
      assert out[0] <= Abs(s[0]);
    } else {
      EnvelopeBelowPeak(s, resp, damp, i - 1);
      var j :| 0 <= j <= i - 1 && out[i - 1] <= Abs(s[j]);
      EnvelopeNonnegative(s, resp, damp, i - 1);
      StepBelowPeak(out[i - 1], s[i], resp, damp);
      if out[i] <= out[i - 1] {
        assert out[i] <= Abs(s[j]);
      } else {
        assert out[i] <= Abs(s[i]);
      }
    }
  }

  /** The same bound through `GetMax`: output `i` is at most the largest
      rectified sample among the first `i + 1`. */
  lemma EnvelopeBelowMax(s: Buffer, resp: real, damp: real, i: nat)
    requires 0.0 <= resp <= 1.0 && 0.0 <= damp <= 1.0
    requires i < |s|
    ensures GetMax(Rectify(s[..i + 1])).Ok?
    ensures Envelope(s, resp, damp)[i] <= GetMax(Rectify(s[..i + 1])).value
  {
    EnvelopeBelowPeak(s, resp, damp, i);
    var j :| 0 <= j <= i && Envelope(s, resp, damp)[i] <= Abs(s[j]);
    RectifyPrefix(s, i + 1);
    assert Rectify(s[..i + 1])[j] == Abs(s[j]);
  }

  /** With `resp == 1` a rise snaps exactly to the new magnitude; otherwise
      the previous value is scaled by `damp`. */
  lemma EnvelopeSnapsOnRise(s: Buffer, damp: real, i: nat)
    requires i < |s|
    ensures Abs(s[i]) > Before(s, 1.0, damp, i) ==> Envelope(s, 1.0, damp)[i] == Abs(s[i])
    ensures Abs(s[i]) <= Before(s, 1.0, damp, i) ==>
      Envelope(s, 1.0, damp)[i] == Before(s, 1.0, damp, i) * damp
  {
  }

  lemma StepRisesWithoutDecay(e: real, x: real, resp: real)
    requires 0.0 <= resp <= 1.0
    ensures Step(e, x, resp, 1.0) >= e
  {
    if Abs(x) > e {
      assert (1.0 - resp) * e + resp * Abs(x) - e == resp * (Abs(x) - e);
    }
  }

  /** With `damp == 1` nothing decays: the envelope never falls. */
  lemma EnvelopeNeverFallsWithoutDecay(s: Buffer, resp: real, i: nat)
    requires 0.0 <= resp <= 1.0
    requires 0 < i < |s|
    ensures Envelope(s, resp, 1.0)[i - 1] <= Envelope(s, resp, 1.0)[i]
  {
    StepRisesWithoutDecay(Envelope(s, resp, 1.0)[i - 1], s[i], resp);
  }
}
