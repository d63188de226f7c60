# SafeSphere core in Dafny

This project models, and proves properties of, three parts of SafeSphere.

- **Threat backend** (`Heatmap/backend_api.py`):
  - The incident classifier `_derive_incident_type`.
  - The nine-slot feature vector `_extract_features` and the fixed linear-logistic ranker `_model_rank`.
  - The severity weight, and the zone snapping `_round_zone`.
  - The pending-incident store: `save_incident_file`, `_load_incidents`, `report_threat`, `get_incident` and `list_incidents`.
  - The zone heatmap `_aggregate_heatmap`, with the endpoints `heatmap_data` and `heatmap_model`.
  - The proximity endpoints `incidents_nearby` and `heatmap_nearby`, and the training export `dataset_incidents`.
- **Voice engine** (`engines/voice_ai/main.py`):
  - The energy-gated utterance capture `RealTimeAudioCapture.capture_utterance`.
  - The Whisper confidence score `compute_confidence` and `build_structured_output`.
  - The microphone flow `run_mic_mode` after the recording, and `resolve_settings`.
- **Distress keyword spotter** (`engines/voice_ai/inference/speech_recognizer.py`): the keyword list, `detect_emergency`, the lower-casing in `transcribe`, and the result of `run_once`.

Modules follow the program's structure:

- Shared helpers:
  - `Wrappers` holds `Option` and `Result`.
  - `Numeric` models Python's `round` (half to even), `max`/`min` clipping and `int(a / b)`.
  - `Text` models `in` on strings, `strip`, `upper` and `lower`.
  - `Sorting` models Python's stable `sorted`.
- Backend: `Incidents` (classifier, features, ranker, severity, zones), `Heatmap`, `Nearby`, `Dataset`, and `Store` (the stored files and the endpoints).
- Voice: `VoiceCapture`, `VoiceOutput` and `Distress`.

Pure Python code becomes functions and lemmas.

- Loops that build lists become methods with loop invariants. Each is proved equal to a specification function whose properties are proved as lemmas: `AggregateHeatmap`, `IncidentsNearby`, `HeatmapNearby`, `DatasetIncidents`, `ComputeConfidence` and `CaptureUtterance`.
- The pending-incident directory becomes the class `IncidentStore`. Its map of records and its write order are updated by `SaveIncidentFile` and `ReportThreat`.
- The capture object becomes the class `AudioCapture`.

Floats are exact reals. The external numeric and I/O functions are parameters of the model:

- `math.exp` inside `_sigmoid`, `_haversine_km`, the RMS energy of a frame, `np.exp`, and Whisper's `transcribe`.
- The clock token of generated ids, and whether a file write succeeds.

Facts about these functions appear only as hypotheses of the lemmas that need them, for example a non-decreasing sigmoid.

Two behaviours of the code are worth knowing:

- The record stored by `report_threat` drops `threat_score` and `threat_level`. So `dataset_incidents` and the heatmap re-derive every stored incident's rank with a threat score of 0 (`StoredRankRederived`). The re-derived rank equals the stored one when the reported score was 0, and is never larger when the score was positive.
- An empty `incident_id` is stored under `INC_<clock>`, but the response echoes the empty id, which `get_incident` cannot find (`ReportThreat`).

The worked ranking example (score 0.9, two people, a gun, critical) has the logit 1.08 + 0.5 + 1.1 + 1.6 + 0.8 − 0.8 = 4.28 under the weights in `_ML_W` (`WorkedExample`).

## Model

| member | source | states |
|---|---|---|
| Numeric.Clamp | Heatmap/backend_api.py:107 | `max(lo, min(hi, x))` lies in [lo, hi], is x itself inside the range, and is the violated bound outside it |
| Numeric.RoundHalfEven | Heatmap/backend_api.py:113-114 | `round(x)` is an integer within 0.5 of x |
| Numeric.RoundHalfEvenTie | Heatmap/backend_api.py:113-114 | on an exact tie `round` picks the even neighbour |
| Numeric.RoundHalfEvenMonotone | Heatmap/backend_api.py:113-114 | `round` never maps a larger number to a smaller integer |
| Numeric.RoundHalfEvenOfInt | Heatmap/backend_api.py:113-114 | integers round to themselves |
| Numeric.RoundToUnit | Heatmap/backend_api.py:216 | `round(x, d)` of a value in [0, 1] stays in [0, 1] |
| Numeric.RoundToError | Heatmap/backend_api.py:150-151 | `round(x, d)` is within half a unit of the d-th decimal of x |
| Numeric.RoundToMonotone | Heatmap/backend_api.py:150-151 | `round(·, d)` is monotone |
| Numeric.TruncDiv | engines/voice_ai/main.py:48 | `int(a / b)` is the floor quotient for a non-negative a and a positive b |
| Numeric.Max | engines/voice_ai/main.py:50 | `max(a, b)` is an upper bound of both that equals one of them |
| Text.Contains | engines/voice_ai/inference/speech_recognizer.py:30 | `needle in hay` holds iff needle occurs at some offset of hay |
| Text.ContainsTransitive | engines/voice_ai/inference/speech_recognizer.py:30 | a substring of a substring is a substring |
| Text.ContainsChars | engines/voice_ai/inference/speech_recognizer.py:30 | every character of a contained string occurs in the containing one |
| Text.StripLeft | engines/voice_ai/main.py:160 | removes exactly a whitespace prefix; the result does not start with whitespace |
| Text.StripRight | engines/voice_ai/main.py:160 | removes exactly a whitespace suffix; the result does not end with whitespace |
| Text.Strip | engines/voice_ai/main.py:160 | `str.strip()` is a slice of its input with only whitespace cut off at both ends, and does not start or end with whitespace |
| Text.StripIdempotent | engines/voice_ai/main.py:160 | stripping twice equals stripping once |
| Text.Upper | Heatmap/backend_api.py:108 | `upper()` keeps the length and leaves no lower-case ASCII letter |
| Text.UpperIdempotent | Heatmap/backend_api.py:108 | upper-casing twice equals upper-casing once |
| Text.Lower | engines/voice_ai/inference/speech_recognizer.py:27 | `lower()` keeps the length and leaves no upper-case ASCII letter |
| Sorting.SortBy | Heatmap/backend_api.py:154 | `sorted` returns a permutation of its input |
| Sorting.SortBySorted | Heatmap/backend_api.py:154 | for a total preorder key comparison, the output is in key order |
| Sorting.SortByStable | Heatmap/backend_api.py:154 | items with equal keys keep their input order (Python's sort is stable) |
| Sorting.SortByDistinctBy | Heatmap/backend_api.py:154 | sorting keeps a list free of duplicate keys |
| Incidents.TagInjective | Heatmap/backend_api.py:159-177 | the seven incident type tags are pairwise different |
| Incidents.DeriveIncidentTypeCharacterized | Heatmap/backend_api.py:159-177 | each tag is returned exactly when its branch condition holds and no earlier one does: weapon tags iff `weapon_detected`, then following, rapid approach, isolation, and the fallback |
| Incidents.DeriveIncidentTypeDependsOnSignals | Heatmap/backend_api.py:159-177 | the type depends only on the weapon fields and the telemetry |
| Incidents.Flag | Heatmap/backend_api.py:182-190 | a flag feature is 1.0 iff its condition holds and 0.0 otherwise |
| Incidents.ExtractFeatures | Heatmap/backend_api.py:179-191 | nine features: slot 0 is `threat_score` and slot 1 `people_count`, each 0 when missing; slots 2-8 are 1 exactly when, respectively, a weapon is detected, `gun` is listed, `knife` or `blade` is listed, the incident is critical, and the isolation, night-mode and sudden-acceleration context factors are set, and 0 otherwise |
| Incidents.ModelRank | Heatmap/backend_api.py:196-198 | the rank is in [0, 1] |
| Incidents.DotMonotone | Heatmap/backend_api.py:197 | with non-negative weights the dot product is monotone in every feature |
| Incidents.RankMonotone | Heatmap/backend_api.py:193-198 | raising features never lowers the logit, nor the rank under a non-decreasing sigmoid |
| Incidents.LogitMonotoneInSlot | Heatmap/backend_api.py:193-197 | raising one feature never lowers the logit |
| Incidents.LogitExpanded | Heatmap/backend_api.py:193-197 | the logit is the weighted sum with `_ML_W` plus `_ML_B` = -0.8 |
| Incidents.WorkedExample | Heatmap/backend_api.py:193-197 | the vector [0.9, 2, 1, 1, 0, 1, 0, 0, 0] has logit 4.28 |
| Incidents.LevelBoost | Heatmap/backend_api.py:108 | the level boost lies in [0, 0.35] |
| Incidents.SeverityWeight | Heatmap/backend_api.py:106-110 | the severity weight lies in [0, 0.99] |
| Incidents.SeverityWeightProperties | Heatmap/backend_api.py:106-110 | the weight ignores the score outside [0, 1] and the case of the level; an unknown level gets no boost |
| Incidents.SnapError | Heatmap/backend_api.py:113-114 | snapping to the grid moves a coordinate by at most half a step |
| Incidents.RoundTo6Error | Heatmap/backend_api.py:115 | rounding to 6 decimals moves a value by at most 5e-7 |
| Incidents.RoundZoneNearPoint | Heatmap/backend_api.py:112-115 | each zone coordinate is within half a step plus 5e-7 of the incident's |
| Incidents.RoundZoneIdempotent | Heatmap/backend_api.py:112-115 | quantizing a zone centre again gives the same zone, for any step wider than 1e-6 |
| Heatmap.RankOf | Heatmap/backend_api.py:135-136 | an incident's rank lies in [0, 1] |
| Heatmap.AddItemWellFormed | Heatmap/backend_api.py:130-143 | one loop iteration keeps the zone dictionary well formed: keys unique, buckets at their own centre, count ≥ 1, 0 ≤ rank sum ≤ count |
| Heatmap.Accumulate | Heatmap/backend_api.py:129-143 | every zone key of the dictionary has a bucket |
| Heatmap.AccumulateWellFormed | Heatmap/backend_api.py:129-143 | the whole loop leaves the dictionary well formed |
| Heatmap.Emit | Heatmap/backend_api.py:144-153 | one entry per zone, in dictionary order, computed from that zone's bucket |
| Heatmap.AggregateHeatmap | Heatmap/backend_api.py:128-154 | the two loops and the sort return exactly the aggregated zone list |
| Heatmap.ModelZones | Heatmap/backend_api.py:366-381 | the inline loop of `heatmap_model`, with its two dictionary updates, returns exactly the list `_aggregate_heatmap` returns |
| Heatmap.AccumulateBuckets | Heatmap/backend_api.py:129-143 | a zone has a bucket iff some located incident falls in it; its count and rank sum are those of the incidents in that zone |
| Heatmap.AccumulateCoversItem | Heatmap/backend_api.py:130-143 | every located incident's zone is a key of the dictionary |
| Heatmap.EmitCountsLocated | Heatmap/backend_api.py:144-153 | the emitted counts add up to the number of located incidents |
| Heatmap.SumCountsSortBy | Heatmap/backend_api.py:154 | sorting keeps the sum of the counts |
| Heatmap.ByAvgDescTotal | Heatmap/backend_api.py:154 | the descending `avg` comparison is a total preorder |
| Heatmap.HeatmapSorted | Heatmap/backend_api.py:154 | zones come out by non-increasing `avg` |
| Heatmap.HeatmapStable | Heatmap/backend_api.py:154 | zones with equal `avg` keep the order in which their zones were first hit |
| Heatmap.HeatmapCountsLocated | Heatmap/backend_api.py:128-154 | the zone counts add up to the number of incidents with both coordinates; unlocated ones are skipped |
| Heatmap.HeatmapDistinctZones | Heatmap/backend_api.py:138-140 | no two zones share a centre |
| Heatmap.HeatmapEntries | Heatmap/backend_api.py:145-153 | each zone's count is its incident count (≥ 1); `weight` is the rounded rank sum, `avg` the rounded mean rank, in [0, 1] |
| Heatmap.HeatmapCoversLocated | Heatmap/backend_api.py:130-143 | every located incident's zone appears in the result |
| Heatmap.ZoneTotalsPermutation | Heatmap/backend_api.py:130-143 | a zone's incident count and rank sum are the same for any reordering of the incidents |
| Heatmap.AccumulateOrderIndependent | Heatmap/backend_api.py:129-143 | any reordering of the incidents gives a dictionary with the same zones and the same bucket in each |
| Heatmap.HeatmapOrderIndependent | Heatmap/backend_api.py:128-154 | any reordering of the incidents gives the same set of zone entries, with the same counts, weights and averages |
| Nearby.IncidentPosition | Heatmap/backend_api.py:389-392 | an incident has a position iff both coordinates are present |
| Nearby.ZonePosition | Heatmap/backend_api.py:415 | a zone's position is its centre |
| Nearby.WithinRadiusMembers | Heatmap/backend_api.py:388-397 | the filter keeps exactly the positioned items within the radius, each with its rounded distance |
| Nearby.IncidentsNearby | Heatmap/backend_api.py:384-399 | the loop and the sort return exactly the nearby-incident list |
| Nearby.HeatmapNearby | Heatmap/backend_api.py:409-421 | the aggregation, the loop and the sort return exactly the nearby-zone list |
| Nearby.NearbyIncidentsMembers | Heatmap/backend_api.py:388-397 | the result holds exactly the located incidents at unrounded distance ≤ radius, each with `distance_km` rounded to 3 decimals |
| Nearby.NearbyIncidentsOrdered | Heatmap/backend_api.py:398 | incidents come out nearest first; equal distances keep load order |
| Nearby.NearbyZonesMembers | Heatmap/backend_api.py:412-419 | the result holds exactly the aggregated zones whose centre is within the radius, with rounded distance |
| Nearby.NearbyZonesOrdered | Heatmap/backend_api.py:420 | zones come out nearest first, the heavier first at equal distance |
| Dataset.RowOf | Heatmap/backend_api.py:349-360 | a row's `model_rank` lies in [0, 1] and its `type` is one of the seven tags |
| Dataset.DatasetIncidents | Heatmap/backend_api.py:344-361 | one row per loaded incident, in order, and `count` is their number |
| Store.Curate | Heatmap/backend_api.py:211-228 | the stored record has `type` and `model_rank` in [0, 1], and no `threat_level` or `threat_score` |
| Store.StorageKey | Heatmap/backend_api.py:85-86 | the file key is the incident id when it is non-empty, else `INC_` plus the clock token, and never empty |
| Store.Without | Heatmap/backend_api.py:86-88 | dropping a key keeps the other keys and their distinctness |
| Store.SliceLength | Heatmap/backend_api.py:118 | `files[:limit]` keeps min(limit, n) files, and for a negative limit all but the last -limit |
| Store.IncidentStore.constructor | Heatmap/backend_api.py:25-29 | a fresh store is empty |
| Store.IncidentStore.GetIncident | Heatmap/backend_api.py:261-268 | returns the stored record iff its key exists, else 404 "Incident not found" |
| Store.IncidentStore.LoadIncidents | Heatmap/backend_api.py:117-126 | returns the most recently written records first, cut to the limit |
| Store.IncidentStore.ListIncidents | Heatmap/backend_api.py:247-258 | `count` equals the number of listed incidents, which are the loaded ones |
| Store.IncidentStore.SaveIncidentFile | Heatmap/backend_api.py:80-92 | on success the record is stored under its key, overwriting, and the key becomes the newest; on failure nothing changes |
| Store.IncidentStore.ReportThreat | Heatmap/backend_api.py:202-235 | success iff the write succeeds; the curated record is stored under its key, readable back, and becomes the newest in the write order with the other keys in their old order; a failed write gives 500 and leaves records and write order unchanged |
| Store.IncidentStore.GetHeatmapData | Heatmap/backend_api.py:402-406 | returns the aggregated zones of the loaded incidents and their number |
| Store.IncidentStore.GetHeatmapModel | Heatmap/backend_api.py:363-382 | returns the zones of the loaded incidents, the same as `heatmap_data`, and their number |
| Store.IncidentStore.GetIncidentsNearby | Heatmap/backend_api.py:384-399 | returns the nearby incidents of the loaded incidents and their number |
| Store.IncidentStore.GetHeatmapNearby | Heatmap/backend_api.py:409-421 | returns the nearby zones of the loaded incidents and their number |
| Store.IncidentStore.GetDatasetIncidents | Heatmap/backend_api.py:344-361 | one row per loaded incident, and the count |
| Store.StoredTypeRederived | Heatmap/backend_api.py:351 | re-deriving the type of a stored record gives the stored `type` |
| Store.StoredRankRederived | Heatmap/backend_api.py:180 | a stored record's score feature is 0; the re-derived rank equals the stored one for score 0 and never exceeds it for a positive score |
| VoiceCapture.Flatten | engines/voice_ai/main.py:97-99 | no frames give no audio |
| VoiceCapture.FlattenLength | engines/voice_ai/main.py:99 | concatenating n frames of k samples gives n·k samples |
| VoiceCapture.RunCounts | engines/voice_ai/main.py:79-96 | the loop's counters: frames consumed, the frame budget and the silence run at each kind of stop |
| VoiceCapture.RunStopped | engines/voice_ai/main.py:79-96 | once the loop has stopped, later frames change nothing |
| VoiceCapture.RunKept | engines/voice_ai/main.py:85-88 | the collected frames are exactly the loud frames among those consumed |
| VoiceCapture.RunSilence | engines/voice_ai/main.py:85-93 | speech has started iff a consumed frame was loud; the silence count is the run of quiet frames after the last loud one |
| VoiceCapture.RunStops | engines/voice_ai/main.py:94-96 | given at least `max(1, max_frames)` frames, the loop stops |
| VoiceCapture.NoSpeechNoAudio | engines/voice_ai/main.py:97-98 | with no loud frame the loop runs out the frame budget and returns empty audio |
| VoiceCapture.LoudFramesNone | engines/voice_ai/main.py:97 | nothing is collected iff no frame is loud |
| VoiceCapture.AudioCapture.constructor | engines/voice_ai/main.py:46-50 | frame size `int(rate·ms/1000)` and silence frames `max(1, int(silence/frame))` ≥ 1 |
| VoiceCapture.AudioCapture.CaptureUtterance | engines/voice_ai/main.py:71-100 | the loop returns the loud frames it consumed, concatenated, and stops by silence or budget |
| VoiceCapture.DefaultSettings | engines/voice_ai/main.py:46-50 | the defaults give 26 silence frames and 480-sample frames at 16 kHz |
| VoiceOutput.Confidence | engines/voice_ai/main.py:139-155 | the confidence lies in [0, 1] |
| VoiceOutput.ComputeConfidence | engines/voice_ai/main.py:139-155 | the loop with `continue` computes exactly the confidence |
| VoiceOutput.ScoresEmpty | engines/voice_ai/main.py:144-152 | no score is collected iff no segment has `avg_logprob` |
| VoiceOutput.ConfidenceZero | engines/voice_ai/main.py:140-154 | no segments and no `no_speech_prob`, or segments that all lack `avg_logprob`, give 0 |
| VoiceOutput.ScoresAppend | engines/voice_ai/main.py:146-152 | the scores of two segment lists joined are the two score lists joined |
| VoiceOutput.ConfidenceSkipsMissing | engines/voice_ai/main.py:146-149 | inserting a segment without `avg_logprob` at any position of a non-empty segment list does not change the confidence |
| VoiceOutput.MeanBounds | engines/voice_ai/main.py:155 | the mean lies between the bounds of its elements |
| VoiceOutput.ScoresInUnit | engines/voice_ai/main.py:150-152 | with probabilities in [0, 1], every score is in [0, 1] |
| VoiceOutput.ConfidenceIsMeanScore | engines/voice_ai/main.py:150-155 | with probabilities in [0, 1], the clip does not change the mean score |
| VoiceOutput.BuildStructuredOutput | engines/voice_ai/main.py:158-163 | the transcription is the text with surrounding whitespace cut off; confidence in [0, 1]; the latency is passed through |
| VoiceOutput.MicOutput | engines/voice_ai/main.py:231-237 | empty audio gives ("", 0, 0) without transcribing; otherwise the structured transcription |
| VoiceOutput.RunMicMode | engines/voice_ai/main.py:224-237 | a capture with the default settings followed by the output; silence only gives the empty result |
| VoiceOutput.ResolveSettings | engines/voice_ai/main.py:173-184 | `auto` becomes `cuda` or `cpu`; fp16 iff asked for and the device is `cuda`; the other fields are copied |
| VoiceOutput.Fp16NeedsCuda | engines/voice_ai/main.py:173-184 | fp16 iff asked for with `cuda`, or `auto` with CUDA available; the device is never `auto` |
| Distress.DetectEmergency | engines/voice_ai/inference/speech_recognizer.py:29-31 | the emergency flag is set iff some keyword was detected |
| Distress.RunOnce | engines/voice_ai/inference/speech_recognizer.py:33-48 | the result carries the lower-cased text, its detection and the latency rounded to 2 decimals, within 0.005 s |
| Distress.MatchingMembers | engines/voice_ai/inference/speech_recognizer.py:30 | a keyword is detected iff it is listed and occurs in the text |
| Distress.MatchingOrdered | engines/voice_ai/inference/speech_recognizer.py:30 | detected keywords keep the order of the list |
| Distress.KeywordsDistinct | engines/voice_ai/inference/speech_recognizer.py:12 | the 17 keywords are pairwise different |
| Distress.DetectEmergencyCharacterized | engines/voice_ai/inference/speech_recognizer.py:29-31 | exactly the listed keywords present, in list order, without duplicates; emergency iff one is present |
| Distress.ImpliedKeyword | engines/voice_ai/inference/speech_recognizer.py:30 | a detected phrase brings every listed phrase it contains |
| Distress.HelpImplied | engines/voice_ai/inference/speech_recognizer.py:12 | "help me", "please help", "someone help" and "i need help" each bring "help" |
| Distress.StopAndLeaveImplied | engines/voice_ai/inference/speech_recognizer.py:12 | "stop following me" brings "stop"; "leave me alone" brings "leave me" |
| Distress.LowerKeepsOtherChars | engines/voice_ai/inference/speech_recognizer.py:27 | lower-casing keeps every non-letter character |
| Distress.TypographicApostrophe | engines/voice_ai/inference/speech_recognizer.py:12 | without U+2019 in the transcription, "don’t follow me" and "i’m in danger" are never detected |
| Distress.AnalyzeIgnoresCase | engines/voice_ai/inference/speech_recognizer.py:27 | upper-casing the ASCII letters of a transcription does not change the detection |

## Left out

- File I/O and JSON: files are the store's map. Unreadable or unparsable files, which `_load_incidents` skips, cannot arise.
- Ties in file modification time are not modelled: the write order is a total order.
- The partial file left by a failed write is not modelled. A failed save changes nothing.
- The clock is not modelled: the `INC_` token of generated ids is a parameter.
- Floating point is not modelled. Floats are exact reals, so a `round` that is exact here can differ from the binary one in the last place.
- `_sigmoid`'s `math.exp`, `_haversine_km`, the RMS energy of a frame, `np.exp` and Whisper's transcription are parameters, not defined functions.
- AggregateHeatmap: requires `zone_step != 0`. The same holds for `Heatmap.ModelZones`, `Incidents.RoundZone` and the heatmap endpoints. The source divides by the step only for an incident with both coordinates. So with a zero step it raises `ZeroDivisionError` when some loaded incident is located, and returns an empty zone list when none is. The model covers neither of these zero-step cases.
- Heatmap.HeatmapOrderIndependent: holds for exact reals. With binary floats the rank sums of a zone can differ in the last place between two orders, and the order of zones with equal averages can differ.
- Incidents.RoundZoneIdempotent: stated for steps wider than 1e-6 only. A narrower step is finer than the 6-decimal rounding, and the proof does not cover it.
- The zone id string `f"{zlat}:{zlng}"` is modelled as the pair of rounded coordinates. Two pairs that print alike are not merged.
- VoiceCapture.AudioCapture.constructor: requires `frame_ms != 0`, where the source would raise.
- VoiceCapture.AudioCapture.CaptureUtterance:
  - It takes the microphone's frames as a finite list holding at least `max(1, max_frames)` frames. The source waits for more.
  - The queue's one-second timeout and retries are not modelled.
  - `max_frames` is a parameter. Its computation from `max_seconds`, and the `max(3.0, duration)` of `run_mic_mode`, are not modelled.
  - `np.squeeze` of a one-sample capture to a scalar is not modelled.
- The stream start and stop, logging, and `AudioRecorder` are not modelled.
- Store.IncidentStore.ReportThreat: the type check of the request body is not modelled, because the fields are typed in the datatype. Two exceptions raised before the write are not modelled either; each gives a 500 and stores nothing, while the model stores the record:
  - `math.exp(-z)` in `_sigmoid` overflows when the logit `z` is below about -709.78. `people_count` and `threat_score` have no bounds, so a large negative `people_count` reaches it. The sigmoid is a total function of the model.
  - `full_telemetry` is not validated. A `behavior` or `context_factors` that is null, a null `pair_interactions`, or a pair whose `status` is null makes `_derive_incident_type` or `_extract_features` fail. The model's telemetry has no null parts.
- The printed log lines are not modelled.
- `trigger_sos`, `seed_incidents`, the HTML pages, `_haversine_km`'s formula, `WhisperEngine`, `resolve_paths`, `build_arg_parser`, `output_result`, `run_file_mode` and `main` are not part of this model. They are I/O, random seeding, markup or argument plumbing.
- Text.Lower and Text.Upper: change only ASCII letters. Python's `str.lower()`/`str.upper()` also change other alphabets, and the model does not capture that.
- VoiceOutput.ComputeConfidence:
  - A `no_speech_prob` that is present but null is not modelled (the source fails on it).
  - A segment's missing `no_speech_prob` is stored as 0.
- Distress.RunOnce: takes Whisper's raw text and the elapsed time as parameters. Recording and transcription are not modelled.
