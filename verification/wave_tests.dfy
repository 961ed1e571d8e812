/** The vectors of the class's unit tests, as facts about the model. Sample
    values are exact reals here. */
module WaveTests {
  import opened Samples
  import opened Resampler
  import opened Filters
  import opened EnvelopeFollower
  import opened Hysteresis

  lemma DownsampleVector()
    ensures Downsample([0.2, 0.6, -0.2, 0.5, 1.0], 2) == [0.4, 0.15]
  {
    var s: Buffer := [0.2, 0.6, -0.2, 0.5, 1.0];
    assert s[..2] == [0.2, 0.6] && s[2..] == [-0.2, 0.5, 1.0];
    assert Sum([0.2, 0.6]) == 0.8 by {
      assert [0.2, 0.6][..1] == [0.2] && [0.2][..0] == [];
    }
    var t: Buffer := [-0.2, 0.5, 1.0];
    assert t[..2] == [-0.2, 0.5] && t[2..] == [1.0];
    assert Sum([-0.2, 0.5]) == 0.3 by {
      assert [-0.2, 0.5][..1] == [-0.2] && [-0.2][..0] == [];
    }
    assert Downsample([1.0], 2) == [];
    assert Downsample(t, 2) == [0.15];
  }

  lemma UpsampleVector()
    ensures Upsample([0.2, 0.6, -0.2], 2) == [0.2, 0.4, 0.6, 0.2, -0.2, -0.2]
  {
    var s: Buffer := [0.2, 0.6, -0.2];
    assert s[1..] == [0.6, -0.2];
    assert s[1..][1..] == [-0.2];
    assert Segment(0.2, 0.6, 2) == [0.2, 0.4];
    assert Segment(0.6, -0.2, 2) == [0.6, 0.2];
    assert Segment(-0.2, -0.2, 2) == [-0.2, -0.2];
  }

  lemma HighPassVector()
    ensures HighPass([-1.0, 1.0, 0.4, -0.7]) == [-1.0, 0.3, 0.55, 0.0]
  {
    var h := HighPass([-1.0, 1.0, 0.4, -0.7]);
    assert h[0] == -1.0 && h[1] == 0.3 && h[2] == 0.55 && h[3] == 0.0;
  }

  lemma RectifyVector()
    ensures Rectify([-1.0, 0.4, 1.0, -0.1, 0.0]) == [1.0, 0.4, 1.0, 0.1, 0.0]
  {
    var r := Rectify([-1.0, 0.4, 1.0, -0.1, 0.0]);
    assert r[0] == 1.0 && r[1] == 0.4 && r[2] == 1.0 && r[3] == 0.1 && r[4] == 0.0;
  }

  /** Rising magnitudes from 0 take the rising branch at every step. */
  lemma EnvelopeResponsivenessVector()
    ensures Envelope([-4.0, 12.0, -16.0], 0.25, 0.0) ==
      [0.0 * 0.75 + 4.0 * 0.25,
       (0.0 * 0.75 + 4.0 * 0.25) * 0.75 + 12.0 * 0.25,
       ((0.0 * 0.75 + 4.0 * 0.25) * 0.75 + 12.0 * 0.25) * 0.75 + 16.0 * 0.25]
  {
    var s: Buffer := [-4.0, 12.0, -16.0];
    var e := Envelope(s, 0.25, 0.0);
    assert e[0] == 1.0;
    assert e[1] == EnvelopeFollower.Step(e[0], s[1], 0.25, 0.0) == 3.75;
    assert e[2] == EnvelopeFollower.Step(e[1], s[2], 0.25, 0.0) == 6.8125;
  }

  /** With responsiveness 1 a rise snaps to the magnitude; falls decay by 1/4. */
  lemma EnvelopeDampeningVector()
    ensures Envelope([256.0, 255.0, 63.0, 15.0, 5.0], 1.0, 0.25) == [256.0, 64.0, 16.0, 4.0, 5.0]
  {
    var s: Buffer := [256.0, 255.0, 63.0, 15.0, 5.0];
    var e := Envelope(s, 1.0, 0.25);
    assert e[0] == 256.0;
    assert e[1] == EnvelopeFollower.Step(e[0], s[1], 1.0, 0.25) == 64.0;
    assert e[2] == EnvelopeFollower.Step(e[1], s[2], 1.0, 0.25) == 16.0;
    assert e[3] == EnvelopeFollower.Step(e[2], s[3], 1.0, 0.25) == 4.0;
    assert e[4] == EnvelopeFollower.Step(e[3], s[4], 1.0, 0.25) == 5.0;
  }

  lemma TriggerVector()
    ensures Trigger([0.5, 0.4, 0.3, 0.2, -0.3, -0.2, 0.0, 0.7], -0.1, 0.4) ==
      [1.0, 1.0, 1.0, 1.0, 0.0, 0.0, 0.0, 1.0]
  {
    var s: Buffer := [0.5, 0.4, 0.3, 0.2, -0.3, -0.2, 0.0, 0.7];
    var t := Trigger(s, -0.1, 0.4);
    assert t[0] == 1.0;
    assert t[1] == Hysteresis.Step(t[0], s[1], -0.1, 0.4) == 1.0;
    assert t[2] == Hysteresis.Step(t[1], s[2], -0.1, 0.4) == 1.0;
    assert t[3] == Hysteresis.Step(t[2], s[3], -0.1, 0.4) == 1.0;
    assert t[4] == Hysteresis.Step(t[3], s[4], -0.1, 0.4) == 0.0;
    assert t[5] == Hysteresis.Step(t[4], s[5], -0.1, 0.4) == 0.0;
    assert t[6] == Hysteresis.Step(t[5], s[6], -0.1, 0.4) == 0.0;
    assert t[7] == Hysteresis.Step(t[6], s[7], -0.1, 0.4) == 1.0;
  }
}
