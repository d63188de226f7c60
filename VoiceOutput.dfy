/** The output side of engines/voice_ai/main.py: the confidence score of a
    Whisper transcription, the structured result, the empty result of the
    microphone mode when no speech was captured, and the engine settings.
    Whisper itself, the clock and `exp` are parameters. */
module VoiceOutput {
  import opened Wrappers
  import opened Numeric
  import opened Text
  import opened VoiceCapture

  /** One entry of `result["segments"]`; a missing `no_speech_prob` reads as 0. */
  datatype Segment = Segment(avgLogprob: Option<real>, noSpeechProb: real)

  /** The parts of Whisper's result dictionary the engine reads. */
  datatype TranscriptionResult = TranscriptionResult(
    text: Option<string>,
    segments: Option<seq<Segment>>,   // None when the key is absent or null
    noSpeechProb: Option<real>)       // the top-level "no_speech_prob"

  /** `result.get("segments") or []` */
  function SegmentsOf(r: TranscriptionResult): seq<Segment>
  {
    r.segments.GetOr([])
  }

  /** `0.7 * exp(avg_logprob) + 0.3 * (1 - no_speech_prob)` */
  function Score(seg: Segment, exp: real -> real): real
    requires seg.avgLogprob.Some?
  {
    0.7 * exp(seg.avgLogprob.value) + 0.3 * (1.0 - seg.noSpeechProb)
  }

  /** The `scores` list: one score per segment that has `avg_logprob`, in order. */
  function Scores(segs: seq<Segment>, exp: real -> real): seq<real>
  {
    if segs == [] then []
    else
      var seg := segs[|segs| - 1];
      Scores(segs[..|segs| - 1], exp) + (if seg.avgLogprob.Some? then [Score(seg, exp)] else [])
  }

  function Sum(s: seq<real>): real
  {
    if s == [] then 0.0 else Sum(s[..|s| - 1]) + s[|s| - 1]
  }

  /** `np.mean` */
  function Mean(s: seq<real>): real
    requires |s| > 0
  {
    Sum(s) / (|s| as real)
  }

  /** `compute_confidence`: without segments, one minus the top-level
      `no_speech_prob` if present (else 0), clipped; with segments, the mean
      score clipped to [0, 1], or 0 when no segment has `avg_logprob`. */
  function Confidence(r: TranscriptionResult, exp: real -> real): (c: real)
    ensures 0.0 <= c <= 1.0
  {
    var segs := SegmentsOf(r);
    if segs == [] then Clamp(if r.noSpeechProb.Some? then 1.0 - r.noSpeechProb.value else 0.0, 0.0, 1.0)
    else
      var scores := Scores(segs, exp);
      if scores == [] then 0.0 else Clamp(Mean(scores), 0.0, 1.0)
  }

  /** `compute_confidence`, with its loop over the segments. */
  method ComputeConfidence(r: TranscriptionResult, exp: real -> real) returns (c: real)
    ensures c == Confidence(r, exp)
    ensures 0.0 <= c <= 1.0
  {
    var segments := if r.segments.Some? then r.segments.value else [];
    if |segments| == 0 {
      var prob := if r.noSpeechProb.Some? then 1.0 - r.noSpeechProb.value else 0.0;
      return Clamp(prob, 0.0, 1.0);
    }
    var scores: seq<real> := [];
    for i := 0 to |segments|
      invariant scores == Scores(segments[..i], exp)
    {
      assert segments[..i + 1][..i] == segments[..i];
      var seg := segments[i];
      var noSpeechProb := seg.noSpeechProb;
      if seg.avgLogprob.None? {
        continue;
      }
      var prob := exp(seg.avgLogprob.value);
      var score := 0.7 * prob + 0.3 * (1.0 - noSpeechProb);
      scores := scores + [score];
    }
    assert segments[..|segments|] == segments;
    if |scores| == 0 {
      return 0.0;
    }
    c := Clamp(Mean(scores), 0.0, 1.0);
  }

  lemma {:induction false} ScoresEmpty(segs: seq<Segment>, exp: real -> real)
    ensures Scores(segs, exp) == [] <==> forall k :: 0 <= k < |segs| ==> segs[k].avgLogprob.None?
  {
    if segs != [] {
      var init := segs[..|segs| - 1];
      ScoresEmpty(init, exp);
      assert forall k :: 0 <= k < |init| ==> init[k] == segs[k];
    }
  }

  /** The two ways to get 0: no segments and no top-level `no_speech_prob`,
      or segments none of which has `avg_logprob`. */
  lemma ConfidenceZero(r: TranscriptionResult, exp: real -> real)
    ensures SegmentsOf(r) == [] && r.noSpeechProb.None? ==> Confidence(r, exp) == 0.0
    ensures (SegmentsOf(r) != [] && forall k :: 0 <= k < |SegmentsOf(r)| ==> SegmentsOf(r)[k].avgLogprob.None?)
            ==> Confidence(r, exp) == 0.0
  {
    ScoresEmpty(SegmentsOf(r), exp);
  }

  /** The scores of two segment lists joined are their scores joined. */
  lemma {:induction false} ScoresAppend(a: seq<Segment>, b: seq<Segment>, exp: real -> real)
    ensures Scores(a + b, exp) == Scores(a, exp) + Scores(b, exp)
  {
    if b == [] {
      assert a + b == a;
    } else {
      var init := b[..|b| - 1];
      assert (a + b)[..|a + b| - 1] == a + init;
      assert (a + b)[|a + b| - 1] == b[|b| - 1];
      ScoresAppend(a, init, exp);
    }
  }

  /** A segment without `avg_logprob` is skipped wherever it stands: inserting
      one at any position of a non-empty segment list leaves the confidence
      unchanged. */
  lemma ConfidenceSkipsMissing(r: TranscriptionResult, seg: Segment, k: nat, exp: real -> real)
    requires SegmentsOf(r) != [] && seg.avgLogprob.None? && k <= |SegmentsOf(r)|
    ensures Confidence(r.(segments := Some(SegmentsOf(r)[..k] + [seg] + SegmentsOf(r)[k..])), exp)
            == Confidence(r, exp)
  {
    var given := SegmentsOf(r);
    var segs := given[..k] + [seg] + given[k..];
    ScoresAppend(given[..k], [seg], exp);
    ScoresAppend(given[..k] + [seg], given[k..], exp);
    ScoresAppend(given[..k], given[k..], exp);
    assert [seg][..0] == [];
    assert Scores([seg], exp) == [];
    assert given[..k] + given[k..] == given;
    assert Scores(segs, exp) == Scores(given, exp);
    assert SegmentsOf(r.(segments := Some(segs))) == segs;
  }

  lemma {:induction false} SumBounds(s: seq<real>, lo: real, hi: real)
    requires forall k :: 0 <= k < |s| ==> lo <= s[k] <= hi
    ensures (|s| as real) * lo <= Sum(s) <= (|s| as real) * hi
  {
    if s != [] {
      var init := s[..|s| - 1];
      assert forall k :: 0 <= k < |init| ==> init[k] == s[k];
      SumBounds(init, lo, hi);
      assert (|s| as real) * lo == (|init| as real) * lo + lo;
      assert (|s| as real) * hi == (|init| as real) * hi + hi;
    }
  }

  /** The mean lies between the least and the greatest possible element. */
  lemma MeanBounds(s: seq<real>, lo: real, hi: real)
    requires |s| > 0
    requires forall k :: 0 <= k < |s| ==> lo <= s[k] <= hi
    ensures lo <= Mean(s) <= hi
  {
    SumBounds(s, lo, hi);
    var n := |s| as real;
    assert Mean(s) == Sum(s) / n;
    DivMonotone(n * lo, Sum(s), n);
    DivMonotone(Sum(s), n * hi, n);
    assert n * lo / n == lo;
    assert n * hi / n == hi;
  }

  lemma {:induction false} ScoresInUnit(segs: seq<Segment>, exp: real -> real)
    requires forall k :: 0 <= k < |segs| && segs[k].avgLogprob.Some? ==>
               0.0 <= exp(segs[k].avgLogprob.value) <= 1.0 && 0.0 <= segs[k].noSpeechProb <= 1.0
    ensures forall k :: 0 <= k < |Scores(segs, exp)| ==> 0.0 <= Scores(segs, exp)[k] <= 1.0
  {
    if segs != [] {
      var init := segs[..|segs| - 1];
      assert forall k :: 0 <= k < |init| ==> init[k] == segs[k];
      ScoresInUnit(init, exp);
    }
  }

  /** When every probability involved lies in [0, 1] (a non-positive
      `avg_logprob` under a true exponential), each score does too, and the
      final clip leaves the mean score unchanged. */
  lemma ConfidenceIsMeanScore(r: TranscriptionResult, exp: real -> real)
    requires SegmentsOf(r) != [] && Scores(SegmentsOf(r), exp) != []
    requires forall k :: 0 <= k < |SegmentsOf(r)| && SegmentsOf(r)[k].avgLogprob.Some? ==>
               0.0 <= exp(SegmentsOf(r)[k].avgLogprob.value) <= 1.0 && 0.0 <= SegmentsOf(r)[k].noSpeechProb <= 1.0
    ensures Confidence(r, exp) == Mean(Scores(SegmentsOf(r), exp))
  {
    ScoresInUnit(SegmentsOf(r), exp);
    MeanBounds(Scores(SegmentsOf(r), exp), 0.0, 1.0);
  }

  /** The dictionary `build_structured_output` returns. */
  datatype StructuredOutput = StructuredOutput(transcription: string, confidence: real, latencyMs: real)

  /** `build_structured_output`: the text without surrounding whitespace, the
      confidence, and the latency. */
  function BuildStructuredOutput(r: TranscriptionResult, latencyMs: real, exp: real -> real): (out: StructuredOutput)
    ensures exists i, j :: 0 <= i <= j <= |r.text.GetOr("")| && out.transcription == r.text.GetOr("")[i..j]
              && AllSpace(r.text.GetOr("")[..i]) && AllSpace(r.text.GetOr("")[j..])
    ensures |out.transcription| > 0 ==> !IsSpace(out.transcription[0]) && !IsSpace(out.transcription[|out.transcription| - 1])
    ensures 0.0 <= out.confidence <= 1.0
    ensures out.latencyMs == latencyMs
  {
    StructuredOutput(Strip(r.text.GetOr("")), Confidence(r, exp), latencyMs)
  }

  /** The result of the microphone mode when no speech was captured. */
  const NoSpeech := StructuredOutput("", 0.0, 0.0)

  /** `run_mic_mode` after the capture: empty audio gives the empty result
      without calling Whisper; otherwise Whisper's result is structured. */
  function MicOutput(audio: Samples, transcribe: Samples -> TranscriptionResult, latencyMs: real, exp: real -> real)
    : (out: StructuredOutput)
    ensures |audio| == 0 ==> out == NoSpeech
    ensures |audio| > 0 ==> out == BuildStructuredOutput(transcribe(audio), latencyMs, exp)
    ensures 0.0 <= out.confidence <= 1.0
  {
    if |audio| == 0 then NoSpeech else BuildStructuredOutput(transcribe(audio), latencyMs, exp)
  }

  /** `run_mic_mode`: a capture with the default frame, threshold and silence
      settings at `sampleRate`, then `MicOutput`. `frames` is what the
      microphone delivers, `maxFrames` the budget derived from the duration,
      `latencyMs` the measured transcription time. */
  method RunMicMode(sampleRate: int, frames: seq<Samples>, maxFrames: int, rms: Samples -> real,
                    transcribe: Samples -> TranscriptionResult, latencyMs: real, exp: real -> real)
    returns (out: StructuredOutput)
    requires |frames| >= Max(1, maxFrames)
    ensures out == MicOutput(Utterance(frames, Limits(0.01, 26, maxFrames), rms), transcribe, latencyMs, exp)
    ensures !AnyLoud(frames, Limits(0.01, 26, maxFrames), rms) ==> out == NoSpeech
  {
    var capture := new AudioCapture(sampleRate, 30, 0.01, 800);
    var audio, consumed := capture.CaptureUtterance(frames, maxFrames, rms);
    if !AnyLoud(frames, Limits(0.01, 26, maxFrames), rms) {
      NoSpeechNoAudio(frames, Limits(0.01, 26, maxFrames), rms);
    }
    if |audio| == 0 {
      return NoSpeech;
    }
    var result := transcribe(audio);
    out := BuildStructuredOutput(result, latencyMs, exp);
  }

  // ----- Settings -----

  /** The parsed command-line options `resolve_settings` reads. */
  datatype Args = Args(model: string, language: Option<string>, task: string, device: string, fp16: bool)

  datatype EngineSettings = EngineSettings(modelName: string, language: Option<string>, task: string, device: string, fp16: bool)

  /** `resolve_settings`: `auto` becomes `cuda` when a GPU is available and
      `cpu` otherwise; half precision is on only when asked for and the device
      is `cuda`. */
  function ResolveSettings(args: Args, cudaAvailable: bool): (s: EngineSettings)
    ensures s.device == if args.device == "auto" then (if cudaAvailable then "cuda" else "cpu") else args.device
    ensures s.fp16 <==> args.fp16 && s.device == "cuda"
    ensures s.modelName == args.model && s.language == args.language && s.task == args.task
  {
    var device := if args.device == "auto" then (if cudaAvailable then "cuda" else "cpu") else args.device;
    EngineSettings(args.model, args.language, args.task, device, args.fp16 && device == "cuda")
  }

  /** Half precision needs both the flag and a GPU device: an explicit `cuda`,
      or `auto` with CUDA available; the device is never left as `auto`. */
  lemma Fp16NeedsCuda(args: Args, cudaAvailable: bool)
    ensures ResolveSettings(args, cudaAvailable).fp16
            <==> args.fp16 && (args.device == "cuda" || (args.device == "auto" && cudaAvailable))
    ensures ResolveSettings(args, cudaAvailable).device != "auto"
  {
  }
}
