/** The utterance segmenter of engines/voice_ai/main.py
    (`RealTimeAudioCapture`): microphone frames are read one by one; a frame is
    loud when its RMS energy reaches the threshold. Loud frames are kept and
    start the utterance; after speech has started, a run of quiet frames of the
    required length ends it. Independently, a frame budget ends the capture.
    The stream is a finite sequence of frames and the RMS energy a parameter. */
module VoiceCapture {
  import opened Numeric

  /** One frame of mono samples. */
  type Samples = seq<real>

  /** Why the loop ended, or `Running` while it goes on. */
  datatype Stop = Running | SilenceRun | FrameBudget

  /** The loop's variables: `speech_started`, `silence_count`, `collected`,
      `frames_collected`, and whether a `break` has been taken. */
  datatype CaptureState = CaptureState(
    speechStarted: bool,
    silenceCount: nat,
    collected: nat,
    kept: seq<Samples>,
    stop: Stop)

  /** `energy_threshold`, `required_silence_frames` and `max_frames`. */
  datatype Limits = Limits(energyThreshold: real, requiredSilenceFrames: nat, maxFrames: int)

  const Initial := CaptureState(false, 0, 0, [], Running)

  predicate Loud(frame: Samples, lim: Limits, rms: Samples -> real)
  {
    rms(frame) >= lim.energyThreshold
  }

  /** `collected += 1`, then the frame-budget test. */
  function Count(s: CaptureState, lim: Limits): CaptureState
  {
    s.(collected := s.collected + 1, stop := if s.collected + 1 >= lim.maxFrames then FrameBudget else Running)
  }

  /** One iteration of the loop on one frame; a stopped capture reads no more. */
  function Step(s: CaptureState, frame: Samples, lim: Limits, rms: Samples -> real): CaptureState
  {
    if s.stop != Running then s
    else if Loud(frame, lim, rms) then
      Count(s.(speechStarted := true, silenceCount := 0, kept := s.kept + [frame]), lim)
    else if s.speechStarted then
      if s.silenceCount + 1 >= lim.requiredSilenceFrames then s.(silenceCount := s.silenceCount + 1, stop := SilenceRun)
      else Count(s.(silenceCount := s.silenceCount + 1), lim)
    else Count(s, lim)
  }

  /** The state after the loop has been offered the frames `xs`. */
  function Run(xs: seq<Samples>, lim: Limits, rms: Samples -> real): CaptureState
  {
    if xs == [] then Initial else Step(Run(xs[..|xs| - 1], lim, rms), xs[|xs| - 1], lim, rms)
  }

  /** Number of frames the loop took from the queue: every counted frame, plus
      the quiet frame that completed a silence run. */
  function Consumed(s: CaptureState): nat
  {
    s.collected + (if s.stop == SilenceRun then 1 else 0)
  }

  /** The loud frames of `xs`, in arrival order. */
  function LoudFrames(xs: seq<Samples>, lim: Limits, rms: Samples -> real): seq<Samples>
  {
    if xs == [] then []
    else LoudFrames(xs[..|xs| - 1], lim, rms) + (if Loud(xs[|xs| - 1], lim, rms) then [xs[|xs| - 1]] else [])
  }

  predicate AnyLoud(xs: seq<Samples>, lim: Limits, rms: Samples -> real)
  {
    exists i :: 0 <= i < |xs| && Loud(xs[i], lim, rms)
  }

  /** Number of quiet frames at the end of `xs`. */
  function TrailingQuiet(xs: seq<Samples>, lim: Limits, rms: Samples -> real): nat
  {
    if xs == [] || Loud(xs[|xs| - 1], lim, rms) then 0 else TrailingQuiet(xs[..|xs| - 1], lim, rms) + 1
  }

  /** `np.concatenate(frames_collected)`: the samples of the frames, one after another. */
  function Flatten(frames: seq<Samples>): (audio: Samples)
    ensures frames == [] ==> audio == []
  {
    if frames == [] then [] else Flatten(frames[..|frames| - 1]) + frames[|frames| - 1]
  }

  /** What `capture_utterance` returns for the frames `xs`: the loud frames
      among those the loop consumed, concatenated. */
  function Utterance(xs: seq<Samples>, lim: Limits, rms: Samples -> real): Samples
  {
    Flatten(LoudFrames(xs[..if Consumed(Run(xs, lim, rms)) <= |xs| then Consumed(Run(xs, lim, rms)) else |xs|], lim, rms))
  }

  lemma {:induction false} FlattenLength(frames: seq<Samples>, k: nat)
    requires forall i :: 0 <= i < |frames| ==> |frames[i]| == k
    ensures |Flatten(frames)| == |frames| * k
  {
    if frames != [] {
      var init := frames[..|frames| - 1];
      assert forall i :: 0 <= i < |init| ==> init[i] == frames[i];
      FlattenLength(init, k);
      assert |Flatten(frames)| == |Flatten(init)| + k;
      assert |frames| * k == |init| * k + k;
    }
  }

  // ----- What the loop keeps true -----

  /** The counters: while running, every frame offered has been counted and
      both the frame budget and the silence run are still short; a silence run
      stops on a quiet frame after speech, before that frame is counted; the
      budget stops the first time `collected` reaches `max_frames`. */
  lemma {:induction false} RunCounts(xs: seq<Samples>, lim: Limits, rms: Samples -> real)
    requires lim.requiredSilenceFrames >= 1
    ensures Consumed(Run(xs, lim, rms)) <= |xs|
    ensures Run(xs, lim, rms).stop == Running ==>
              && Consumed(Run(xs, lim, rms)) == |xs|
              && Run(xs, lim, rms).collected < Max(1, lim.maxFrames)
              && Run(xs, lim, rms).silenceCount < lim.requiredSilenceFrames
    ensures Run(xs, lim, rms).stop == SilenceRun ==>
              && Run(xs, lim, rms).speechStarted
              && Run(xs, lim, rms).silenceCount == lim.requiredSilenceFrames
              && Run(xs, lim, rms).collected < Max(1, lim.maxFrames)
              && !Loud(xs[Consumed(Run(xs, lim, rms)) - 1], lim, rms)
    ensures Run(xs, lim, rms).stop == FrameBudget ==> Run(xs, lim, rms).collected == Max(1, lim.maxFrames)
  {
    if xs != [] {
      var init := xs[..|xs| - 1];
      RunCounts(init, lim, rms);
      if Run(init, lim, rms).stop != Running {
        assert Run(xs, lim, rms) == Run(init, lim, rms);
        if Run(init, lim, rms).stop == SilenceRun {
          assert init[Consumed(Run(init, lim, rms)) - 1] == xs[Consumed(Run(init, lim, rms)) - 1];
        }
      }
    }
  }

  /** A stopped capture ignores every later frame. */
  lemma {:induction false} RunStopped(xs: seq<Samples>, k: nat, lim: Limits, rms: Samples -> real)
    requires k <= |xs| && Run(xs[..k], lim, rms).stop != Running
    ensures Run(xs, lim, rms) == Run(xs[..k], lim, rms)
    decreases |xs| - k
  {
    if k < |xs| {
      var init := xs[..|xs| - 1];
      assert init[..k] == xs[..k];
      RunStopped(init, k, lim, rms);
    } else {
      assert xs[..k] == xs;
    }
  }

  /** The kept frames are the loud frames among those the loop consumed. */
  lemma {:induction false} RunKept(xs: seq<Samples>, lim: Limits, rms: Samples -> real)
    requires lim.requiredSilenceFrames >= 1
    ensures Consumed(Run(xs, lim, rms)) <= |xs|
    ensures Run(xs, lim, rms).kept == LoudFrames(xs[..Consumed(Run(xs, lim, rms))], lim, rms)
  {
    RunCounts(xs, lim, rms);
    if xs != [] {
      var init := xs[..|xs| - 1];
      RunKept(init, lim, rms);
      RunCounts(init, lim, rms);
      var s0 := Run(init, lim, rms);
      if s0.stop != Running {
        assert xs[..Consumed(s0)] == init[..Consumed(s0)];
      } else {
        assert init[..|init|] == init;
        assert xs[..|xs|][..|xs| - 1] == init;
        if Run(xs, lim, rms).stop == SilenceRun {
          assert xs[..Consumed(Run(xs, lim, rms))] == xs;
        } else {
          assert xs[..|xs|] == xs;
        }
      }
    }
  }

  /** `speech_started` says a loud frame has been consumed, and
      `silence_count` is the number of quiet frames since the last loud one
      (0 before speech): quiet frames before speech do not count, and every
      loud frame resets the count. */
  lemma {:induction false} RunSilence(xs: seq<Samples>, lim: Limits, rms: Samples -> real)
    requires lim.requiredSilenceFrames >= 1
    ensures Consumed(Run(xs, lim, rms)) <= |xs|
    ensures Run(xs, lim, rms).speechStarted <==> AnyLoud(xs[..Consumed(Run(xs, lim, rms))], lim, rms)
    ensures Run(xs, lim, rms).silenceCount
              == if Run(xs, lim, rms).speechStarted then TrailingQuiet(xs[..Consumed(Run(xs, lim, rms))], lim, rms) else 0
  {
    RunCounts(xs, lim, rms);
    if xs != [] {
      var init := xs[..|xs| - 1];
      RunSilence(init, lim, rms);
      RunCounts(init, lim, rms);
      var s0 := Run(init, lim, rms);
      if s0.stop != Running {
        assert xs[..Consumed(s0)] == init[..Consumed(s0)];
      } else {
        assert init[..|init|] == init;
        var s := Run(xs, lim, rms);
        assert xs[..Consumed(s)] == xs by {
          assert xs[..|xs|] == xs;
        }
        var x := xs[|xs| - 1];
        if Loud(x, lim, rms) {
          assert AnyLoud(xs, lim, rms);
        } else if AnyLoud(xs, lim, rms) {
          var i :| 0 <= i < |xs| && Loud(xs[i], lim, rms);
          assert init[i] == xs[i];
        }
        if AnyLoud(init, lim, rms) {
          var i :| 0 <= i < |init| && Loud(init[i], lim, rms);
          assert xs[i] == init[i];
        }
      }
    }
  }

  /** Offered at least `max(1, max_frames)` frames, the loop always stops. */
  lemma RunStops(xs: seq<Samples>, lim: Limits, rms: Samples -> real)
    requires lim.requiredSilenceFrames >= 1 && |xs| >= Max(1, lim.maxFrames)
    ensures Run(xs, lim, rms).stop != Running
  {
    RunCounts(xs, lim, rms);
  }

  /** With no loud frame the loop ends on the frame budget, having kept nothing. */
  lemma NoSpeechNoAudio(xs: seq<Samples>, lim: Limits, rms: Samples -> real)
    requires lim.requiredSilenceFrames >= 1 && |xs| >= Max(1, lim.maxFrames)
    requires !AnyLoud(xs, lim, rms)
    ensures Run(xs, lim, rms).stop == FrameBudget
    ensures Run(xs, lim, rms).collected == Max(1, lim.maxFrames)
    ensures Run(xs, lim, rms).kept == []
    ensures Utterance(xs, lim, rms) == []
  {
    RunCounts(xs, lim, rms);
    RunSilence(xs, lim, rms);
    RunKept(xs, lim, rms);
    LoudFramesNone(xs[..Consumed(Run(xs, lim, rms))], lim, rms);
  }

  lemma {:induction false} LoudFramesNone(xs: seq<Samples>, lim: Limits, rms: Samples -> real)
    ensures !AnyLoud(xs, lim, rms) <==> LoudFrames(xs, lim, rms) == []
  {
    if xs != [] {
      var init := xs[..|xs| - 1];
      LoudFramesNone(init, lim, rms);
      if AnyLoud(init, lim, rms) {
        var i :| 0 <= i < |init| && Loud(init[i], lim, rms);
        assert xs[i] == init[i];
      }
      if AnyLoud(xs, lim, rms) && !Loud(xs[|xs| - 1], lim, rms) {
        var i :| 0 <= i < |xs| && Loud(xs[i], lim, rms);
        assert init[i] == xs[i];
      }
    }
  }

  // ----- The capture object -----

  /** `RealTimeAudioCapture`: the settings fixed by `__init__`; the queue and
      the stream are not modelled. */
  class AudioCapture {
    const sampleRate: int
    const frameSamples: int
    const energyThreshold: real
    const requiredSilenceFrames: nat

    /** `__init__`: `frame_samples = int(sample_rate * frame_ms / 1000)` and
        `required_silence_frames = max(1, int(silence_ms / frame_ms))`, the
        divisions truncating toward zero. Python raises on `frame_ms == 0`. */
    constructor(sampleRate: int, frameMs: int, energyThreshold: real, silenceMs: int)
      requires frameMs != 0
      ensures this.sampleRate == sampleRate
      ensures frameSamples == TruncDiv(sampleRate * frameMs, 1000)
      ensures this.energyThreshold == energyThreshold
      ensures requiredSilenceFrames == Max(1, TruncDiv(silenceMs, frameMs))
      ensures requiredSilenceFrames >= 1
    {
      this.sampleRate := sampleRate;
      frameSamples := TruncDiv(sampleRate * frameMs, 1000);
      this.energyThreshold := energyThreshold;
      requiredSilenceFrames := Max(1, TruncDiv(silenceMs, frameMs));
    }

    /** `capture_utterance` over the frames the microphone delivers. The loop
        blocks until it has been offered `max(1, max_frames)` frames at most,
        so the stream must deliver that many. The result is the loud frames
        among those consumed, concatenated in arrival order; `consumed` is how
        many frames the loop took. */
    method CaptureUtterance(frames: seq<Samples>, maxFrames: int, rms: Samples -> real)
      returns (audio: Samples, consumed: nat)
      requires requiredSilenceFrames >= 1
      requires |frames| >= Max(1, maxFrames)
      ensures consumed == Consumed(Run(frames, Limits(energyThreshold, requiredSilenceFrames, maxFrames), rms))
      ensures consumed <= |frames|
      ensures Run(frames, Limits(energyThreshold, requiredSilenceFrames, maxFrames), rms).stop != Running
      ensures audio == Flatten(LoudFrames(frames[..consumed], Limits(energyThreshold, requiredSilenceFrames, maxFrames), rms))
      ensures audio == Utterance(frames, Limits(energyThreshold, requiredSilenceFrames, maxFrames), rms)
    {
      ghost var lim := Limits(energyThreshold, requiredSilenceFrames, maxFrames);
      var speechStarted := false;
      var silenceCount := 0;
      var framesCollected: seq<Samples> := [];
      var collected := 0;
      var i := 0;
      while true
        invariant 0 <= i < Max(1, maxFrames) <= |frames|
        invariant Run(frames[..i], lim, rms) == CaptureState(speechStarted, silenceCount, collected, framesCollected, Running)
        decreases |frames| - i
      {
        RunCounts(frames[..i], lim, rms);
        assert frames[..i + 1][..i] == frames[..i];
        var frame := frames[i];
        i := i + 1;
        var energy := rms(frame);
        if energy >= energyThreshold {
          speechStarted := true;
          silenceCount := 0;
          framesCollected := framesCollected + [frame];
        } else {
          if speechStarted {
            silenceCount := silenceCount + 1;
            if silenceCount >= requiredSilenceFrames {
              break;
            }
          }
        }
        collected := collected + 1;
        if collected >= maxFrames {
          break;
        }
      }
      RunStopped(frames, i, lim, rms);
      RunKept(frames, lim, rms);
      RunCounts(frames[..i], lim, rms);
      consumed := i;
      if framesCollected == [] {
        return [], consumed;
      }
      audio := Flatten(framesCollected);
    }
  }

  /** The default settings: 30 ms frames and 800 ms of silence need 26 quiet
      frames; at 16 kHz a frame holds 480 samples. */
  lemma DefaultSettings()
    ensures Max(1, TruncDiv(800, 30)) == 26
    ensures TruncDiv(16000 * 30, 1000) == 480
  {
  }
}
