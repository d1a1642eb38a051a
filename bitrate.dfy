/**
 * The bitrate budget of DiscordVideoShrink.py: how many kilobits per second
 * the video stream may use so that video plus two audio streams fill a target
 * file size over the clip's duration. Arithmetic is exact (`real`); the
 * floating-point rounding of the script is not modelled.
 */
module Bitrate {

  /** Bits in one megabyte as the script counts it (8 * 1024 * 1024). */
  const BitsPerMegabyte: real := 8.0 * 1024.0 * 1024.0

  /** Number of audio streams the budget assumes are present. */
  const AudioStreams: real := 2.0

  /** The target output size `main` asks for, in megabytes. */
  const TargetSizeMb: real := 24.5

  /** The per-stream audio bitrate `main` assumes, in kbps. */
  const AudioBitrateKbps: real := 192.0

  /** Total bits the output file may take. */
  function TargetBits(targetSizeMb: real): real
  {
    targetSizeMb * BitsPerMegabyte
  }

  /** Bits per second the two audio streams are assumed to take. */
  function AudioBudgetBps(audioBitrateKbps: real): real
  {
    AudioStreams * (audioBitrateKbps * 1000.0)
  }

  /**
   * calculate_video_bitrate. The result, in kbps, is the video rate that
   * together with the audio streams spends exactly the target size over the
   * clip's duration. Nothing clamps it: it may be zero or negative. A zero
   * duration has no result (the script raises ZeroDivisionError).
   */
  function VideoBitrateKbps(videoLength: real, targetSizeMb: real, audioBitrateKbps: real): (kbps: real)
    requires videoLength != 0.0
    ensures (kbps * 1000.0 + AudioBudgetBps(audioBitrateKbps)) * videoLength == TargetBits(targetSizeMb)
  {
    var targetSizeBits := targetSizeMb * 8.0 * 1024.0 * 1024.0;
    var audioBitrateBps := audioBitrateKbps * 1000.0;
    var totalAudioBitrateBps := 2.0 * audioBitrateBps;
    var videoBitrateBps := targetSizeBits / videoLength - totalAudioBitrateBps;
    videoBitrateBps / 1000.0
  }

  /** The budget equation has exactly one solution: the computed bitrate. */
  lemma BudgetDeterminesBitrate(videoLength: real, targetSizeMb: real, audioBitrateKbps: real, kbps: real)
    requires videoLength != 0.0
    requires (kbps * 1000.0 + AudioBudgetBps(audioBitrateKbps)) * videoLength == TargetBits(targetSizeMb)
    ensures kbps == VideoBitrateKbps(videoLength, targetSizeMb, audioBitrateKbps)
  {
    var r := VideoBitrateKbps(videoLength, targetSizeMb, audioBitrateKbps);
    assert (kbps * 1000.0 + AudioBudgetBps(audioBitrateKbps)) * videoLength
        == (r * 1000.0 + AudioBudgetBps(audioBitrateKbps)) * videoLength;
    assert kbps * 1000.0 + AudioBudgetBps(audioBitrateKbps) == r * 1000.0 + AudioBudgetBps(audioBitrateKbps);
  }

  /** The closed form: (s * 8 * 1024 * 1024 / d - 2 * (a * 1000)) / 1000. */
  lemma ClosedForm(d: real, s: real, a: real)
    requires d != 0.0
    ensures VideoBitrateKbps(d, s, a) == (s * 8.0 * 1024.0 * 1024.0 / d - 2.0 * (a * 1000.0)) / 1000.0
  {
  }

  /**
   * No clamping: the bitrate is negative exactly when the size budget per
   * second is below the audio budget, and zero exactly when they are equal.
   */
  lemma NegativeExactlyWhenAudioExceedsBudget(d: real, s: real, a: real)
    requires d != 0.0
    ensures VideoBitrateKbps(d, s, a) < 0.0 <==> TargetBits(s) / d < AudioBudgetBps(a)
    ensures VideoBitrateKbps(d, s, a) == 0.0 <==> TargetBits(s) / d == AudioBudgetBps(a)
  {
  }

  /** A larger target size gives a strictly larger bitrate. */
  lemma IncreasingInTargetSize(d: real, a: real, s1: real, s2: real)
    requires d > 0.0
    requires s1 < s2
    ensures VideoBitrateKbps(d, s1, a) < VideoBitrateKbps(d, s2, a)
  {
    assert TargetBits(s1) < TargetBits(s2);
    assert TargetBits(s1) / d < TargetBits(s2) / d;
  }

  /** A larger audio bitrate gives a strictly smaller video bitrate. */
  lemma DecreasingInAudioBitrate(d: real, s: real, a1: real, a2: real)
    requires d != 0.0
    requires a1 < a2
    ensures VideoBitrateKbps(d, s, a1) > VideoBitrateKbps(d, s, a2)
  {
  }

  /** With a positive target, a longer clip gets a strictly smaller bitrate. */
  lemma DecreasingInDuration(s: real, a: real, d1: real, d2: real)
    requires s > 0.0
    requires 0.0 < d1 < d2
    ensures VideoBitrateKbps(d1, s, a) > VideoBitrateKbps(d2, s, a)
  {
    var bits := TargetBits(s);
    assert bits > 0.0;
    assert bits / d2 * d2 == bits == bits / d1 * d1;
    assert bits / d2 * d2 < bits / d1 * d2;
    assert bits / d2 < bits / d1;
  }

  /** The script's own parameters on a one-minute clip: 5702528/1875 kbps (about 3041.35). */
  lemma OneMinuteClip()
    ensures VideoBitrateKbps(60.0, TargetSizeMb, AudioBitrateKbps) == 5702528.0 / 1875.0
  {
  }

  /** A tiny target over a long clip comes out negative and is returned as is. */
  lemma DegenerateTargetIsNegative()
    ensures VideoBitrateKbps(100.0, 0.001, 192.0) < 0.0
  {
  }
}
