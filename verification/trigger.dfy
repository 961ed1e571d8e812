/** The hysteresis trigger of `Wave`: one left-to-right pass over a 0/1 state
    that a sample above `high` sets and a sample below `low` clears. The two
    tests are independent, and the clearing test comes second. */
module Hysteresis {
  import opened Samples

  /** A sample that sets the state: above `high` and not below `low`, since
      the clearing test, made second, would undo it. */
  predicate Fires(x: real, low: real, high: real)
  {
    x > high && !(x < low)
  }

  /** One step of the trigger from state `t` on sample `x`: first
      `x > high` sets 1, then `x < low` sets 0. */
  function Step(t: real, x: real, low: real, high: real): (t': real)
    ensures x < low ==> t' == 0.0
    ensures Fires(x, low, high) ==> t' == 1.0
    ensures !(x < low) && !(x > high) ==> t' == t
  {
    var afterHigh := if x > high then 1.0 else t;
    if x < low then 0.0 else afterHigh
  }

  /** The trigger started from state `t`: each output is the state after
      that sample's step. */
  function Gate(t: real, s: Buffer, low: real, high: real): (out: Buffer)
    requires t == 0.0 || t == 1.0
    ensures |out| == |s|
    ensures forall i :: 0 <= i < |s| ==> out[i] == 0.0 || out[i] == 1.0
    ensures |s| > 0 ==> out[0] == Step(t, s[0], low, high)
    ensures forall i :: 0 < i < |s| ==> out[i] == Step(out[i - 1], s[i], low, high)
    decreases |s|
  {
    if |s| == 0 then []
    else
      var t' := Step(t, s[0], low, high);
      [t'] + Gate(t', s[1..], low, high)
  }

  /** `Trigger(low, high)`: the trigger started from state 0. */
  function Trigger(s: Buffer, low: real, high: real): (out: Buffer)
    ensures |out| == |s|
    ensures forall i :: 0 <= i < |s| ==> out[i] == 0.0 || out[i] == 1.0
    ensures |s| > 0 ==> out[0] == Step(0.0, s[0], low, high)
    ensures forall i :: 0 < i < |s| ==> out[i] == Step(out[i - 1], s[i], low, high)
  {
    Gate(0.0, s, low, high)
  }

  /** The loop of `Trigger`: a single state variable, updated by the two
      tests and recorded after every sample. */
  method TriggerLoop(s: Buffer, low: real, high: real) returns (out: Buffer)
    ensures |out| == |s|
    ensures forall i :: 0 <= i < |s| ==>
      out[i] == Step(if i == 0 then 0.0 else out[i - 1], s[i], low, high)
    ensures out == Trigger(s, low, high)
  {
    ghost var full := Trigger(s, low, high);
    out := [];
    var state := 0.0;
    var i := 0;
    while i < |s|
      invariant 0 <= i <= |s|
      invariant out == full[..i]
      invariant state == if i == 0 then 0.0 else full[i - 1]
    {
      assert full[i] == Step(state, s[i], low, high);
      var x := s[i];
      if x > high {
        state := 1.0;
      }
      if x < low {
        state := 0.0;
      }
      assert state == full[i];
      assert full[..i + 1] == full[..i] + [full[i]];
      out := out + [state];
      i := i + 1;
    }
  }

  /** Sample `j` fired and no sample after it, up to `i`, was below `low`. */
  ghost predicate LatchedSince(s: Buffer, low: real, high: real, j: nat, i: nat)
    requires j <= i < |s|
  {
    Fires(s[j], low, high) && forall k :: j < k <= i ==> !(s[k] < low)
  }

  /** The trigger is on at `i` exactly when some sample up to `i` fired and
      none since then was below `low`: once on, it stays on until a sample
      drops below `low`. */
  lemma {:induction false} TriggerOnIff(s: Buffer, low: real, high: real, i: nat)
    requires i < |s|
    ensures Trigger(s, low, high)[i] == 1.0 <==>
      exists j :: 0 <= j <= i && LatchedSince(s, low, high, j, i)
    decreases i
  {
    var out := Trigger(s, low, high);
    var x := s[i];
    var prev := if i == 0 then 0.0 else out[i - 1];
    assert out[i] == Step(prev, x, low, high);
    if x < low {
      assert out[i] == 0.0;
      forall j | 0 <= j <= i
        ensures !LatchedSince(s, low, high, j, i)
      {
        if j < i {
          assert !(forall k :: j < k <= i ==> !(s[k] < low));
        }
      }
    } else if x > high {
      assert out[i] == 1.0;
      assert LatchedSince(s, low, high, i, i);
    } else if i == 0 {
      assert out[0] == 0.0;
      assert !LatchedSince(s, low, high, 0, 0);
    } else {
      assert out[i] == out[i - 1];
      TriggerOnIff(s, low, high, i - 1);
      if out[i - 1] == 1.0 {
        var j :| 0 <= j <= i - 1 && LatchedSince(s, low, high, j, i - 1);
        assert LatchedSince(s, low, high, j, i);
      } else {
        forall j | 0 <= j <= i
          ensures !LatchedSince(s, low, high, j, i)
        {
          if j < i {
            assert !LatchedSince(s, low, high, j, i - 1);
          }
        }
      }
    }
  }

  /** With `low > high`, a sample strictly between them passes the setting
      test and then the clearing test, and the clearing test wins. */
  lemma TriggerInvertedBand(s: Buffer, low: real, high: real, i: nat)
    requires low > high
    requires i < |s| && high < s[i] < low
    ensures Trigger(s, low, high)[i] == 0.0
  {
    var out := Trigger(s, low, high);
    var prev := if i == 0 then 0.0 else out[i - 1];
    assert out[i] == Step(prev, s[i], low, high);
  }

  /** The textbook Schmitt gate, with the clearing test only reached when the
      setting test fails. */
  function SchmittStep(t: real, x: real, low: real, high: real): real
  {
    if x > high then 1.0 else if x < low then 0.0 else t
  }

  function SchmittGate(t: real, s: Buffer, low: real, high: real): (out: Buffer)
    ensures |out| == |s|
    decreases |s|
  {
    if |s| == 0 then []
    else
      var t' := SchmittStep(t, s[0], low, high);
      [t'] + SchmittGate(t', s[1..], low, high)
  }

  /** With `low <= high` no sample passes both tests, so the two independent
      tests of `Trigger` behave as the Schmitt gate. */
  lemma {:induction false} GateMatchesSchmitt(t: real, s: Buffer, low: real, high: real)
    requires low <= high
    requires t == 0.0 || t == 1.0
    ensures Gate(t, s, low, high) == SchmittGate(t, s, low, high)
    decreases |s|
  {
    if |s| > 0 {
      var t' := Step(t, s[0], low, high);
      assert t' == SchmittStep(t, s[0], low, high);
      GateMatchesSchmitt(t', s[1..], low, high);
    }
  }

  lemma TriggerMatchesSchmitt(s: Buffer, low: real, high: real)
    requires low <= high
    ensures Trigger(s, low, high) == SchmittGate(0.0, s, low, high)
  {
    GateMatchesSchmitt(0.0, s, low, high);
  }

  /** With `low > high` the two definitions part: on `[0.5]` with `low = 1`
      and `high = 0`, the trigger stays off where the Schmitt gate turns on. */
  lemma InvertedThresholdsDiffer()
    ensures Trigger([0.5], 1.0, 0.0) == [0.0]
    ensures SchmittGate(0.0, [0.5], 1.0, 0.0) == [1.0]
  {
    assert [0.5][1..] == [];
  }
}
