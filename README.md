# Voice assistant core: wake-word debounce, utterance recorder, Hue light store

A Dafny model of the sequential logic of a voice-activated assistant:

- **Wake-word detection** (`wake_word.dfy`, module `WakeWord`). Each microphone
  frame is scored by an external wake-word scorer. Every model whose score
  reaches the threshold records the current time in its activation list. A
  model fires when its list is non-empty, at least 4 s (cooldown) have passed
  since the shared `last_save`, and at least 1 s (save delay) has passed since
  the list's first entry. Firing sets `last_save`, clears that model's list and
  ends the frame. The loop is the method `DetectWakeWord`, proved equal to the
  recursive transition `Detect`. `Outcome`, built on `FirstReady` and
  `ActivateAll`, gives a loop-free description of a frame, and `Replay` threads
  the state across frames as the listening loop does. A non-empty activation
  list never expires: every frame at or after `ReadyFrom` that carries a
  prediction for that model triggers, whatever the frame scores. The model
  that fires is the first ready one in prediction order.
- **Utterance recording** (`recorder.dfy`, module `Recorder`). Chunks are
  read until speech starts: a chunk is loud when its mean absolute int16
  sample is above 500. Before that, quiet chunks are dropped and space aborts
  the recording. After that, every chunk is kept, and recording stops once 18
  quiet chunks in a row have been kept. The loop is the method `RecordAudio`,
  proved equal to `Record`. `RecordSpec` describes the result in terms of the
  input. The WAV data written for a recording is the frames joined in order;
  decoding it gives back every frame's samples.
- **Light and group store** (`lights.dfy`, module `Lights`). The class
  `LightsPlugin` holds the light and group records. It looks one up by id and
  patches `is_on`, `brightness` and `color` of the first record with a given
  id. The patch is applied in the list before the record is pushed to the
  bridge, so it stays applied even when the bridge answers with an error. The
  request body maps the three fields to `on.on`, `dimming.brightness` and
  `color.xy`.

Verify with `dafny verify wake_word.dfy recorder.dfy lights.dfy`.

## Model

| member | source | states |
|---|---|---|
| `WakeWord.Detect` | managers/audio_manager.py:80-98 | last_save comes back as `now` exactly when the frame triggers, and unchanged when it does not |
| `WakeWord.DetectWakeWord` | managers/audio_manager.py:80-98 | the in-place loop over the predictions returns the triple of the transition `Detect`; last_save is `now` after a trigger and unchanged otherwise |
| `WakeWord.Activate` | managers/audio_manager.py:89-90 | a score at or above the threshold appends `now` to that model's list, a lower score leaves every list as it was, and no other model's list changes |
| `WakeWord.ReadyExactlyFrom` | managers/audio_manager.py:92 | a model with list `l` may fire exactly from the instant `ReadyFrom(l, last_save)` on, the later of last_save + 4 and l[0] + 1, and from then on for good; scores do not enter the condition |
| `WakeWord.FirstReady` | managers/audio_manager.py:88-96 | the index of the first model, in prediction order, whose list after this frame's append is non-empty with cooldown and save delay elapsed; every earlier model is not ready |
| `WakeWord.DetectOutcome` | managers/audio_manager.py:88-98 | with distinct model keys, the frame equals `Outcome`: it triggers iff some model is ready; then the first ready model wins, the models up to it have recorded their activations, its list is cleared and last_save is now; otherwise every model has recorded its activation and last_save is kept |
| `WakeWord.FiredModelWasArmed` | managers/audio_manager.py:89-96 | the firing model had a non-empty list before the frame, with its first entry at least save_delay before now; cooldown had elapsed; after firing its list is empty and last_save is now. So a model cannot fire on the frame that records its first activation |
| `WakeWord.ActivationRecorded` | managers/audio_manager.py:88-90 | every model visited before the firing one ends with its old list plus exactly `now` when it scored at or above the threshold, and with its old list otherwise |
| `WakeWord.UnreachedModelsUntouched` | managers/audio_manager.py:88-96 | models after the firing one, and models with no prediction, keep their lists |
| `WakeWord.CooldownSuppresses` | managers/audio_manager.py:92 | when less than the cooldown has passed since last_save, no model fires and last_save is kept |
| `WakeWord.NoRetriggerWithinCooldown` | managers/audio_manager.py:92-96 | after a trigger at time t, the next frame cannot trigger while its clock reads less than t + 4 |
| `WakeWord.DetectKeepsSorted` | managers/audio_manager.py:88-94 | a frame keeps every activation list sorted and no later than its clock reading |
| `WakeWord.Replay` | managers/audio_manager.py:52-59 | over n frames, at most n trigger, and last_save is unchanged when none does |
| `WakeWord.ReplayKeepsSorted` | managers/audio_manager.py:52-59 | across frames with non-decreasing clock readings, every activation list stays sorted |
| `WakeWord.ReplayQuietInCooldown` | managers/audio_manager.py:52-59 | frames whose clock stays below last_save + cooldown never trigger |
| `WakeWord.AtMostOneTriggerPerCooldown` | managers/audio_manager.py:52-59 | over frames with non-decreasing clock readings spanning less than the cooldown, at most one frame triggers |
| `WakeWord.FiresOnceSaveDelayElapses` | managers/audio_manager.py:88-96 | one model scoring 0.9 against threshold 0.5, last_save at -10: the frames at t = 0 and t = 0.5 only record activations, and the frame at t = 1 fires and clears the list |
| `WakeWord.PendingActivationFires` | managers/audio_manager.py:88-96 | a frame triggers whenever it carries a prediction for a model whose list before the frame is already ready, whatever the scores of the frame |
| `WakeWord.LowScoreFiresOnPendingActivation` | managers/audio_manager.py:88-96 | a score of 0.9 at t = 0.5, within the cooldown of a trigger at t = 0, records an activation without firing; the frame at t = 4 then triggers although it scores 0.1, below the threshold 0.5 |
| `WakeWord.BelowThresholdFromIdle` | managers/audio_manager.py:88-92 | from a state with every list empty, a frame whose scores are all below the threshold does not trigger and changes no list |
| `WakeWord.ReplayBelowThresholdFromIdle` | managers/audio_manager.py:52-59 | from a state with every list empty, frames scored below the threshold never trigger and leave last_save and the lists as they were |
| `Recorder.Int16` | managers/audio_manager.py:112 | two little-endian bytes decode to a value in the int16 range |
| `Recorder.Samples` | managers/audio_manager.py:112 | a chunk decodes to one sample per two bytes |
| `Recorder.Int16Abs` | managers/audio_manager.py:113 | the magnitude of every sample except -32768, which stays negative as NumPy's int16 absolute value leaves it |
| `Recorder.SumAbs` | managers/audio_manager.py:113 | the summed absolute values are non-negative when no sample is -32768 |
| `Recorder.LoudIsMeanAbove` | managers/audio_manager.py:113-115 | a chunk is loud exactly when it is non-empty and the mean of its absolute samples, in real arithmetic, is above 500 |
| `Recorder.Run` | managers/audio_manager.py:110-126 | the loop consumes between its starting read and the end of the input, only appends to the frames, and if it has not stopped it has consumed all the input |
| `Recorder.RecordAudio` | managers/audio_manager.py:101-126 | the loop returns what `Record` computes, and that result meets `RecordSpec` |
| `Recorder.FirstLoud` | managers/audio_manager.py:115-116 | the index of the first read whose chunk is loud; every read before it is quiet |
| `Recorder.TrailingQuiet` | managers/audio_manager.py:119-123 | the number of quiet chunks at the end of the frames, with a loud chunk just before them |
| `Recorder.Span` | managers/audio_manager.py:118-121 | the chunks of reads s up to i - 1: one chunk per read |
| `Recorder.SpanAt` | managers/audio_manager.py:118-121 | in the chunks of reads s up to i - 1, entry j - s is the chunk of read j, so the run keeps read order |
| `Recorder.RecordMeetsSpec` | managers/audio_manager.py:101-126 | `Record`, the loop from its initial state, meets `RecordSpec`: the frames are exactly the reads from the first loud one up to and including the stop read, a contiguous run; once started, recording stops exactly when 18 quiet chunks in a row have been kept; before speech, it stops only on the first read with space down and returns nothing |
| `Recorder.RecordingShape` | managers/audio_manager.py:115-123 | a finished, non-empty recording has more than 18 frames, begins with a loud one and ends with 18 quiet ones |
| `Recorder.SilenceRecordsNothing` | managers/audio_manager.py:110-125 | quiet input with space never down yields no frames and never stops |
| `Recorder.SpaceAbortsBeforeSpeech` | managers/audio_manager.py:124-125 | space down on a read before any loud one ends recording at that read with nothing recorded |
| `Recorder.SpaceIgnoredAfterStart` | managers/audio_manager.py:115-125 | the key state of reads from the first loud one on does not affect the result |
| `Recorder.LoudStretch` | managers/audio_manager.py:115-118 | a stretch of loud reads is appended whole and leaves the silence count at 0 |
| `Recorder.QuietStretch` | managers/audio_manager.py:119-123 | after speech, with some quiet chunks already counted, the quiet reads still missing to 18 are appended and the recording stops on the last of them |
| `Recorder.LoudThenQuiet` | managers/audio_manager.py:110-123 | loud reads followed by 18 quiet reads: the recording is exactly the chunks of those reads, and it stops on the last of them |
| `Recorder.SpeechThenSilence` | managers/audio_manager.py:104-123 | speech followed by exactly 18 quiet reads is recorded in full and in order: frame j is the chunk of speech read j, and the next 18 frames are the quiet chunks; the loop stops on the 18th quiet read, so nothing after it is read |
| `Recorder.Join` | managers/audio_manager.py:155 | the joined payload is as long as all frames together |
| `Recorder.FramesToWav` | managers/audio_manager.py:150-156 | the file is mono, 2 bytes per sample, 16000 Hz, and its data is as long as all frames together |
| `Recorder.JoinAppend` | managers/audio_manager.py:155 | joining two runs of frames is joining each and concatenating |
| `Recorder.SamplesAppend` | managers/audio_manager.py:112 | decoding concatenated chunks is decoding each and concatenating |
| `Recorder.WavDataDecodesToFrames` | managers/audio_manager.py:150-156 | the WAV data decoded as int16 gives every frame's samples, frame by frame in order, and holds 2 bytes per sample |
| `Recorder.WavOfRecording` | managers/audio_manager.py:155 | the data written for a recording is the chunks from the first loud read to the stop read, joined |
| `Recorder.MinSamplesQuiet` | managers/audio_manager.py:113 | the absolute values summed over samples that are all -32768 add up to -32768 per sample |
| `Recorder.FullScaleNegativeChunkIsQuiet` | managers/audio_manager.py:113 | a chunk of nothing but -32768 samples is quiet, because the int16 absolute value leaves them negative |
| `Lights.ApplyPatch` | Plugins/phillips_hue_lights_plugin.py:57-59 | the id and name of the record are kept, and a patch with none of the three fields changes nothing |
| `Lights.IndexOf` | Plugins/phillips_hue_lights_plugin.py:47-50 | the position of the first record with the id, or the list length; no earlier record has the id |
| `Lights.Lookup` | Plugins/phillips_hue_lights_plugin.py:45-50 | None iff no record has the id; otherwise the record at `IndexOf`, the first one with that id |
| `Lights.PatchFirst` | Plugins/phillips_hue_lights_plugin.py:55-59 | the list keeps its length, every id and every name; only the first record with the id can differ |
| `Lights.FindIndex` | Plugins/phillips_hue_lights_plugin.py:55-56 | the loop stops at the first record with the id, or at the end of the list |
| `Lights.LightsPlugin.constructor` | Plugins/phillips_hue_lights_plugin.py:33-35 | the plugin holds the given lights and groups, and nothing has been sent |
| `Lights.LightsPlugin.GetLights` | Plugins/phillips_hue_lights_plugin.py:40-42 | returns the current light records |
| `Lights.LightsPlugin.GetLightState` | Plugins/phillips_hue_lights_plugin.py:45-50 | returns the first light with the id, or None iff no light has it |
| `Lights.LightsPlugin.ChangeLightState` | Plugins/phillips_hue_lights_plugin.py:53-62 | on a match, the first matching light is patched in the list whatever the bridge answers, its request is sent, and its reply is the patched record or the HTTP error; groups are untouched; with no match nothing changes, nothing is sent and None is returned |
| `Lights.LightsPlugin.ChangeGroupState` | Plugins/phillips_hue_lights_plugin.py:65-74 | the same over the groups, with a grouped_light request; lights are untouched |
| `Lights.ChangeRequest` | Plugins/phillips_hue_lights_plugin.py:81-86 | the path is the resource prefix (`/light/`, or `/grouped_light/` as at lines 99-104) followed by the record's id, and the body carries its is_on, brightness and color |
| `Lights.ReplyFor` | Plugins/phillips_hue_lights_plugin.py:91-94 | the reply is the record exactly when the bridge accepted the request, and the HTTP error otherwise |
| `Lights.LightsPlugin.Push` | Plugins/phillips_hue_lights_plugin.py:79-94 | exactly one request for the record is sent; the record comes back on success and the error on failure |
| `Lights.PatchFields` | Plugins/phillips_hue_lights_plugin.py:57-59 | is_on, brightness and color take the patch value when present and keep the old value otherwise; id and name are untouched |
| `Lights.IndexOfSameIds` | Plugins/phillips_hue_lights_plugin.py:47-50 | two lists with the same ids in the same order find every id at the same position |
| `Lights.PatchKeepsPositions` | Plugins/phillips_hue_lights_plugin.py:55-59 | after a patch every id is found where it was before |
| `Lights.LookupAfterPatch` | Plugins/phillips_hue_lights_plugin.py:47-59 | after a patch, looking up its id gives the patched record, and any other id gives what it gave before |
| `Lights.PatchIdempotent` | Plugins/phillips_hue_lights_plugin.py:57-59 | applying the same patch twice gives the same list as applying it once |
| `Lights.EmptyPatchChangesNothing` | Plugins/phillips_hue_lights_plugin.py:57-59 | a patch with none of the three fields leaves the list unchanged |
| `Lights.RequestRoundTrip` | Plugins/phillips_hue_lights_plugin.py:81-86 | the record is read back from its request: id from the path, is_on from on.on, brightness from dimming.brightness, color from color.xy |
| `Lights.RequestTypesDisjoint` | Plugins/phillips_hue_lights_plugin.py:81-99 | a light request never reads as a grouped-light request, nor the reverse |

## Left out

- Device I/O: opening, reading and closing the PyAudio stream, `stop`, and the
  suppressed overflow errors. Reads become an input sequence of chunks.
- The wake-word scorer (`Model.predict`): its output for a frame is an input
  sequence of (model, score) pairs in the dictionary's key order.
- The clock: `detect_wake_word` reads `time.time()` up to four times per model.
  The model reads one value, `now`, for the whole frame.
- Timestamps, scores, brightness and colour coordinates are floats in the
  source and `real` here; none of them is rounded by the code modelled.
- `start_audio_chat` beyond the threading of the detector state (`Replay`): the
  prints, recording, temporary file, transcription and `os.remove` are I/O or
  external models.
- `record_audio` on an endless stream: the model reads a finite input. A
  result with `stopped` false means the loop was still running when the input
  ended; the source would keep reading.
- Samples are decoded little-endian (`Int16`): `np.frombuffer` with
  `dtype=np.int16` uses the host's byte order, and a little-endian host is
  assumed.
- Chunks have an even number of bytes (`Chunk`): a stream read delivers whole
  int16 samples, and `np.frombuffer` rejects anything else.
- Loudness compares the integer sum of the absolute samples with 500 times the
  sample count. This equals the source's float64 mean compared with 500: the
  sum of at most 1280 int16 magnitudes is exact in float64, and rounding the
  quotient cannot cross 500.
- `simple_audio_record` (key-press recording) depends on `keyboard.wait` and
  `time.sleep`, and is not part of this model.
- The WAV header bytes are written by the `wave` library. Only the parameters
  (`FramesToWav`) and the data payload are modelled.
- `save_temp_wav_file`: temporary files are not part of this model.
- The HTTP client: the bridge's answer is a parameter (`HttpOutcome`).
  The base URL and key from the environment, the headers and
  `verify=False` are left out. A request keeps only the path below the
  resource base URL and the body.
- Records are values. The source shares the same dict between the list and
  the returned record, and could hold one dict twice in a list. That
  aliasing is not modelled.
- A requested state whose key is present with the value `None` would store
  `None` in the record. The patch models a key as present with a value of
  the field's type, or absent.
- managers/sk_manager.py (the chat-completion wrapper and its "exit" check),
  main.py (its driver calls functions that the audio manager does not
  define) and Plugins/weather_plugin.py (HTTP, time zones, float min/max) are
  not part of this model.
- Behaviour of the code a reader might not expect:
  - The cooldown is measured from one `last_save` shared by all models.
  - The recording keeps its trailing quiet chunks.
  - The recording stops after `MaxSilent` = int(1.5 * 16000 / 1280) =
    int(18.75) = 18 quiet chunks, which is 1.44 s of quiet.
  - A pending activation never expires. Once cooldown and save delay have
    passed, a frame that carries a prediction for a model with a non-empty
    list triggers, whatever its scores (`PendingActivationFires`,
    `LowScoreFiresOnPendingActivation`). Below-threshold frames do not
    trigger from a state with nothing pending (`ReplayBelowThresholdFromIdle`).
  - A chunk of -32768 samples counts as quiet, because NumPy's absolute
    value of -32768 in int16 is -32768 (`FullScaleNegativeChunkIsQuiet`).
