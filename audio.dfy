/**
 * The audio side of `TTSKoko::tts`: the first-order recurrence of `apply_phase_shift`, and
 * the sequence of samples the WAV writer receives in mono, duplicated stereo and
 * phase-shifted stereo. Samples are real numbers.
 */
module Audio {

  /**
   * The filter `y[n] = k * x[n] + y[n-1] - k * x[n-1]` run over `x` from the delayed
   * input `x1` and the delayed output `y1`.
   */
  function Filter(x: seq<real>, k: real, x1: real, y1: real): (y: seq<real>)
    ensures |y| == |x|
  {
    if x == [] then []
    else
      var y0 := k * x[0] + y1 - k * x1;
      [y0] + Filter(x[1..], k, x[0], y0)
  }

  /** The output of `apply_phase_shift`: the filter with both delayed samples at 0. */
  function AllPass(x: seq<real>, k: real): (y: seq<real>)
    ensures |y| == |x|
  {
    Filter(x, k, 0.0, 0.0)
  }

  /**
   * The recurrence telescopes: every output sample is `k` times its input plus the
   * starting offset `y1 - k * x1`.
   */
  lemma {:induction false} FilterIsGainPlusOffset(x: seq<real>, k: real, x1: real, y1: real)
    ensures forall n :: 0 <= n < |x| ==> Filter(x, k, x1, y1)[n] == k * x[n] + (y1 - k * x1)
  {
    if x != [] {
      var y0 := k * x[0] + y1 - k * x1;
      FilterIsGainPlusOffset(x[1..], k, x[0], y0);
      var y := Filter(x, k, x1, y1);
      forall n | 0 <= n < |x|
        ensures y[n] == k * x[n] + (y1 - k * x1)
      {
        if n > 0 {
          assert y[n] == Filter(x[1..], k, x[0], y0)[n - 1];
          assert x[1..][n - 1] == x[n];
        }
      }
    }
  }

  /** Every output sample of `apply_phase_shift` follows the difference equation. */
  lemma AllPassRecurrence(x: seq<real>, k: real, n: nat)
    requires n < |x|
    ensures var y := AllPass(x, k);
      y[n] == k * x[n] + (if n == 0 then 0.0 else y[n - 1]) - k * (if n == 0 then 0.0 else x[n - 1])
  {
    FilterIsGainPlusOffset(x, k, 0.0, 0.0);
  }

  /**
   * With both delayed samples starting at 0 the filter is a pure gain: the output is the
   * input scaled by `k`, sample for sample, and no phase is shifted.
   */
  lemma AllPassIsGain(x: seq<real>, k: real)
    ensures forall n :: 0 <= n < |x| ==> AllPass(x, k)[n] == k * x[n]
  {
    FilterIsGainPlusOffset(x, k, 0.0, 0.0);
  }

  /** A coefficient of 1 passes the audio through unchanged. */
  lemma AllPassUnity(x: seq<real>)
    ensures AllPass(x, 1.0) == x
  {
    AllPassIsGain(x, 1.0);
  }

  /** A coefficient of 0 outputs silence. */
  lemma AllPassZero(x: seq<real>)
    ensures AllPass(x, 0.0) == seq(|x|, _ => 0.0)
  {
    AllPassIsGain(x, 0.0);
  }

  /** One step of the filter: the first output sample, then the rest from it. */
  lemma FilterStep(x: seq<real>, k: real, x1: real, y1: real)
    requires x != []
    ensures Filter(x, k, x1, y1) == [k * x[0] + y1 - k * x1] + Filter(x[1..], k, x[0], k * x[0] + y1 - k * x1)
  {
  }

  /** `apply_phase_shift`: runs the recurrence over the audio with its two delayed samples. */
  method ApplyPhaseShift(audio: seq<real>, phaseShift: real) returns (output: seq<real>)
    ensures |output| == |audio|
    ensures output == AllPass(audio, phaseShift)
  {
    output := [];
    var y1 := 0.0;
    var x1 := 0.0;
    var k := phaseShift;
    for i := 0 to |audio|
      invariant output + Filter(audio[i..], k, x1, y1) == AllPass(audio, k)
    {
      ghost var rest := audio[i..];
      FilterStep(rest, k, x1, y1);
      var x := audio[i];
      assert rest[0] == x && rest[1..] == audio[i + 1..];
      var y := k * x + y1 - k * x1;
      assert k * rest[0] + y1 - k * x1 == y;
      assert Filter(rest, k, x1, y1) == [y] + Filter(audio[i + 1..], k, x, y);
      assert output + ([y] + Filter(audio[i + 1..], k, x, y)) == (output + [y]) + Filter(audio[i + 1..], k, x, y);
      output := output + [y];
      x1 := x;
      y1 := y;
    }
  }

  /**
   * The samples `tts` hands to the WAV writer, in order: the audio itself in mono; in
   * stereo, for each sample, the left channel (the sample) and then the right channel
   * (the sample again, or the phase-shifted sample when the shift is not 0).
   */
  method WriteSamples(audio: seq<real>, mono: bool, stereoPhaseShift: real) returns (written: seq<real>)
    ensures mono ==> written == audio
    ensures !mono ==> |written| == 2 * |audio|
    ensures !mono ==> forall i :: 0 <= i < |audio| ==> written[2 * i] == audio[i]
    ensures !mono && stereoPhaseShift == 0.0 ==> forall i :: 0 <= i < |audio| ==> written[2 * i + 1] == audio[i]
    ensures !mono && stereoPhaseShift != 0.0 ==>
      forall i :: 0 <= i < |audio| ==> written[2 * i + 1] == AllPass(audio, stereoPhaseShift)[i]
  {
    written := [];
    if mono {
      for i := 0 to |audio|
        invariant written == audio[..i]
      {
        written := written + [audio[i]];
      }
      assert audio[..|audio|] == audio;
    } else if stereoPhaseShift != 0.0 {
      var shiftedAudio := ApplyPhaseShift(audio, stereoPhaseShift);
      for i := 0 to |audio|
        invariant |written| == 2 * i
        invariant forall j :: 0 <= j < i ==> written[2 * j] == audio[j] && written[2 * j + 1] == shiftedAudio[j]
      {
        written := written + [audio[i]] + [shiftedAudio[i]];
      }
    } else {
      for i := 0 to |audio|
        invariant |written| == 2 * i
        invariant forall j :: 0 <= j < i ==> written[2 * j] == audio[j] && written[2 * j + 1] == audio[j]
      {
        written := written + [audio[i]] + [audio[i]];
      }
    }
  }
}
