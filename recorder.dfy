/**
 * End-of-utterance recording (AudioManager.record_audio) and the data payload
 * of the WAV file the recording is written to (AudioManager.frames_to_wav),
 * from managers/audio_manager.py.
 *
 * The microphone stream is replaced by a finite sequence of reads: the bytes
 * one stream.read(CHUNK) call delivers and whether the space key is down when
 * keyboard.is_pressed would be polled after that read.
 */
module Recorder {

  type byte = b: int | 0 <= b < 256

  /** The bytes of one stream read: a whole number of little-endian signed 16-bit samples. */
  type Chunk = d: seq<byte> | |d| % 2 == 0

  const Channels: nat := 1
  /** Bytes per sample of the paInt16 format. */
  const SampleWidth: nat := 2
  const Rate: nat := 16000
  /** int(1.5 * RATE / CHUNK) with CHUNK 1280: 24000 / 1280 = 18.75, truncated to 18. */
  const MaxSilent: nat := (3 * 16000 / 2) / 1280

  /** What one pass of the recording loop takes from outside. */
  datatype Read = Read(data: Chunk, spaceDown: bool)

  /** One int16 sample as np.frombuffer(dtype=np.int16) reads it on a little-endian host. */
  function Int16(lo: byte, hi: byte): (v: int)
    ensures -32768 <= v < 32768
  {
    var u := lo + 256 * hi;
    if u < 32768 then u else u - 65536
  }

  /** np.frombuffer(data, dtype=np.int16). */
  function Samples(d: Chunk): (s: seq<int>)
    ensures |s| == |d| / 2
    decreases |d|
  {
    if |d| == 0 then [] else [Int16(d[0], d[1])] + Samples(d[2..])
  }

  /** np.abs on an int16: -32768 has no int16 negation and stays -32768. */
  function Int16Abs(v: int): (a: int)
    ensures v != -32768 ==> 0 <= a && (a == v || a == -v)
    ensures v == -32768 ==> a < 0
  {
    if v == -32768 then v else if v < 0 then -v else v
  }

  /** The sum of np.abs over the samples, as an exact integer. */
  function SumAbs(s: seq<int>): (total: int)
    ensures (forall i :: 0 <= i < |s| ==> s[i] != -32768) ==> 0 <= total
  {
    if s == [] then 0 else Int16Abs(s[0]) + SumAbs(s[1..])
  }

  /**
   * volume > silence_threshold, with volume the mean of np.abs over the chunk
   * and silence_threshold 500. Mean above 500 is sum above 500 * n; an empty
   * chunk has no mean (NaN) and is never loud, as 0 > 0 is false.
   */
  predicate Loud(d: Chunk)
  {
    SumAbs(Samples(d)) > 500 * |Samples(d)|
  }

  /** The outcome of the loop on a finite input. */
  datatype Recording = Recording(
    frames: seq<Chunk>,  // the list record_audio returns
    stopped: bool,       // the loop broke; false means the input ran out first
    used: nat)           // how many reads the loop consumed

  /**
   * The loop from read i on, with its local state: `started`, `silent`
   * (silent_chunks) and the frames appended so far.
   */
  function Run(input: seq<Read>, i: nat, started: bool, silent: nat, frames: seq<Chunk>): (r: Recording)
    requires i <= |input|
    ensures i <= r.used <= |input|
    ensures !r.stopped ==> r.used == |input|
    ensures frames <= r.frames
    decreases |input| - i
  {
    if i == |input| then Recording(frames, false, i)
    else
      var data := input[i].data;
      if Loud(data) then Run(input, i + 1, true, 0, frames + [data])
      else if started then
        if silent + 1 >= MaxSilent then Recording(frames + [data], true, i + 1)
        else Run(input, i + 1, true, silent + 1, frames + [data])
      else if input[i].spaceDown then Recording(frames, true, i + 1)
      else Run(input, i + 1, false, silent, frames)
  }

  /** record_audio on the given input. */
  function Record(input: seq<Read>): Recording
  {
    Run(input, 0, false, 0, [])
  }

  /** record_audio: the `while True` loop over stream reads. */
  method RecordAudio(input: seq<Read>) returns (frames: seq<Chunk>, stopped: bool, used: nat)
    ensures Recording(frames, stopped, used) == Record(input)
    ensures RecordSpec(input, Recording(frames, stopped, used))
  {
    frames := [];
    var silentChunks := 0;
    var started := false;
    var i := 0;
    while i < |input|
      invariant i <= |input|
      invariant silentChunks < MaxSilent
      invariant !started ==> silentChunks == 0 && frames == []
      invariant Run(input, i, started, silentChunks, frames) == Record(input)
    {
      var data := input[i].data;
      var spaceDown := input[i].spaceDown;
      i := i + 1;
      if Loud(data) {
        started := true;
        silentChunks := 0;
        frames := frames + [data];
      } else if started {
        silentChunks := silentChunks + 1;
        frames := frames + [data];
        if silentChunks >= MaxSilent {
          RecordMeetsSpec(input);
          return frames, true, i;
        }
      } else if spaceDown {
        RecordMeetsSpec(input);
        return frames, true, i;
      }
    }
    RecordMeetsSpec(input);
    return frames, false, i;
  }

  // ---------------------------------------------------------------------------
  // What the recording is, described without the loop.
  // ---------------------------------------------------------------------------

  /** Index of the first loud read, or |input| when there is none. */
  function FirstLoud(input: seq<Read>): (k: nat)
    ensures k <= |input|
    ensures forall j :: 0 <= j < k ==> !Loud(input[j].data)
    ensures k < |input| ==> Loud(input[k].data)
    decreases |input|
  {
    if input == [] then 0
    else if Loud(input[0].data) then 0
    else 1 + FirstLoud(input[1..])
  }

  /** The chunks of reads s .. i-1, in read order. */
  function Span(input: seq<Read>, s: nat, i: nat): (ds: seq<Chunk>)
    requires s <= i <= |input|
    ensures |ds| == i - s
    decreases i
  {
    if i == s then [] else Span(input, s, i - 1) + [input[i - 1].data]
  }

  /** Number of quiet chunks at the end of `fs`. */
  function TrailingQuiet(fs: seq<Chunk>): (n: nat)
    ensures n <= |fs|
    ensures forall j :: |fs| - n <= j < |fs| ==> !Loud(fs[j])
    ensures n < |fs| ==> Loud(fs[|fs| - 1 - n])
    decreases |fs|
  {
    if fs == [] || Loud(fs[|fs| - 1]) then 0 else 1 + TrailingQuiet(fs[..|fs| - 1])
  }

  /** No prefix of `fs` (`fs` itself included) ends in MaxSilent quiet chunks. */
  predicate NeverLongSilence(fs: seq<Chunk>)
    decreases |fs|
  {
    fs == [] || (TrailingQuiet(fs) < MaxSilent && NeverLongSilence(fs[..|fs| - 1]))
  }

  /**
   * What record_audio returns, in terms of its input, with s the first loud read:
   *  - the frames are exactly the reads from s up to and including the last one
   *    consumed (none when speech never started): a contiguous run, with every
   *    quiet read before s dropped;
   *  - once started, the loop stops exactly when MaxSilent quiet chunks in a row
   *    have been appended: the frames end in exactly that many quiet chunks, and
   *    no shorter prefix did;
   *  - before speech starts, the loop stops only on the first read polled with
   *    space down, returning nothing;
   *  - a loop that has not stopped has consumed all the input.
   */
  ghost predicate RecordSpec(input: seq<Read>, r: Recording)
  {
    match r.stopped
    case true =>
      && r.used <= |input|
      && CapturesSuffix(input, r)
      && SpaceUpBeforeSpeech(input, r.used)
      && (FirstLoud(input) < r.used ==> EndsOnLongSilence(r.frames))
      && (r.used <= FirstLoud(input) ==> 0 < r.used && input[r.used - 1].spaceDown)
    case false =>
      && r.used == |input|
      && CapturesSuffix(input, r)
      && SpaceUpBeforeSpeech(input, r.used)
      && (FirstLoud(input) < r.used ==> NeverLongSilence(r.frames))
      && (r.used <= FirstLoud(input) ==> forall j :: 0 <= j < |input| ==> !input[j].spaceDown)
  }

  /** The frames are the chunks of the reads from the first loud one to the last one consumed. */
  ghost predicate CapturesSuffix(input: seq<Read>, r: Recording)
    requires r.used <= |input|
  {
    var s := FirstLoud(input);
    && (s < r.used ==> r.frames == Span(input, s, r.used))
    && (r.used <= s ==> r.frames == [])
  }

  /** Space was up at every poll that came before both read n - 1 and the first loud read. */
  ghost predicate SpaceUpBeforeSpeech(input: seq<Read>, n: nat)
  {
    forall j :: 0 <= j < FirstLoud(input) && j + 1 < n ==> !input[j].spaceDown
  }

  /** The frames end in exactly MaxSilent quiet chunks, and no shorter prefix of them did. */
  predicate EndsOnLongSilence(fs: seq<Chunk>)
  {
    fs != [] && TrailingQuiet(fs) == MaxSilent && NeverLongSilence(fs[..|fs| - 1])
  }

  /** The loop's state after the first i reads, as RecordSpec describes it. */
  ghost predicate RunInv(input: seq<Read>, i: nat, started: bool, silent: nat, frames: seq<Chunk>)
  {
    match started
    case false =>
      && i <= FirstLoud(input)
      && frames == []
      && (forall j :: 0 <= j < i ==> !input[j].spaceDown)
    case true =>
      && FirstLoud(input) < i <= |input|
      && frames == Span(input, FirstLoud(input), i)
      && silent == TrailingQuiet(frames)
      && NeverLongSilence(frames)
      && (forall j :: 0 <= j < FirstLoud(input) ==> !input[j].spaceDown)
  }

  lemma NeverLongSilenceExtends(fs: seq<Chunk>, x: Chunk)
    requires NeverLongSilence(fs)
    requires TrailingQuiet(fs + [x]) < MaxSilent
    ensures NeverLongSilence(fs + [x])
  {
    assert (fs + [x])[..|fs + [x]| - 1] == fs;
  }

  lemma TrailingQuietAppend(fs: seq<Chunk>, x: Chunk)
    ensures TrailingQuiet(fs + [x]) == if Loud(x) then 0 else TrailingQuiet(fs) + 1
  {
    assert (fs + [x])[..|fs + [x]| - 1] == fs;
  }

  lemma StepLoudStarted(input: seq<Read>, i: nat, silent: nat, frames: seq<Chunk>)
    requires RunInv(input, i, true, silent, frames)
    requires i < |input| && Loud(input[i].data)
    ensures RunInv(input, i + 1, true, 0, frames + [input[i].data])
  {
    var data := input[i].data;
    TrailingQuietAppend(frames, data);
    NeverLongSilenceExtends(frames, data);
  }

  lemma StepLoudIdle(input: seq<Read>, i: nat, silent: nat, frames: seq<Chunk>)
    requires RunInv(input, i, false, silent, frames)
    requires i < |input| && Loud(input[i].data)
    ensures RunInv(input, i + 1, true, 0, frames + [input[i].data])
  {
    var data := input[i].data;
    assert FirstLoud(input) == i;
    assert Span(input, i, i + 1) == [data];
    var none: seq<Chunk> := [];
    assert none[..0] == none;
    TrailingQuietAppend(none, data);
    NeverLongSilenceExtends(none, data);
  }

  lemma StepQuietStarted(input: seq<Read>, i: nat, silent: nat, frames: seq<Chunk>)
    requires RunInv(input, i, true, silent, frames)
    requires i < |input| && !Loud(input[i].data) && silent + 1 < MaxSilent
    ensures RunInv(input, i + 1, true, silent + 1, frames + [input[i].data])
  {
    var data := input[i].data;
    TrailingQuietAppend(frames, data);
    NeverLongSilenceExtends(frames, data);
  }

  lemma StepQuietIdle(input: seq<Read>, i: nat, silent: nat, frames: seq<Chunk>)
    requires RunInv(input, i, false, silent, frames)
    requires i < |input| && !Loud(input[i].data) && !input[i].spaceDown
    ensures RunInv(input, i + 1, false, silent, frames)
  {
    assert i < FirstLoud(input);
  }

  lemma EndOfInput(input: seq<Read>, started: bool, silent: nat, frames: seq<Chunk>, goal: Recording)
    requires RunInv(input, |input|, started, silent, frames)
    requires Run(input, |input|, started, silent, frames) == goal
    ensures RecordSpec(input, goal)
  {
    EndState(input, started, silent, frames);
    SpecTransfer(input, Recording(frames, false, |input|), goal);
  }

  lemma EndState(input: seq<Read>, started: bool, silent: nat, frames: seq<Chunk>)
    requires RunInv(input, |input|, started, silent, frames)
    ensures RecordSpec(input, Recording(frames, false, |input|))
  {
  }

  lemma StopOnSilence(input: seq<Read>, i: nat, silent: nat, frames: seq<Chunk>)
    requires RunInv(input, i, true, silent, frames)
    requires i < |input| && !Loud(input[i].data) && silent + 1 >= MaxSilent
    ensures RecordSpec(input, Recording(frames + [input[i].data], true, i + 1))
  {
    var r := Recording(frames + [input[i].data], true, i + 1);
    StopOnSilenceCount(frames, input[i].data, silent);
    assert SpaceUpBeforeSpeech(input, i + 1);
  }

  /** The quiet chunk that brings the count of trailing quiet chunks to MaxSilent. */
  lemma StopOnSilenceCount(frames: seq<Chunk>, data: Chunk, silent: nat)
    requires silent == TrailingQuiet(frames) && NeverLongSilence(frames)
    requires !Loud(data) && silent + 1 >= MaxSilent
    ensures TrailingQuiet(frames + [data]) == MaxSilent
    ensures NeverLongSilence((frames + [data])[..|frames + [data]| - 1])
  {
    TrailingQuietAppend(frames, data);
    assert frames[..|frames|] == frames;
    assert (frames + [data])[..|frames + [data]| - 1] == frames;
  }

  lemma StopOnSpace(input: seq<Read>, i: nat, silent: nat, frames: seq<Chunk>)
    requires RunInv(input, i, false, silent, frames)
    requires i < |input| && !Loud(input[i].data) && input[i].spaceDown
    ensures RecordSpec(input, Recording(frames, true, i + 1))
  {
    assert i < FirstLoud(input);
  }

  /**
   * RecordSpec carries over to an equal recording. Calling this instead of
   * rewriting in place keeps the solver from unfolding RecordSpec for both.
   */
  lemma SpecTransfer(input: seq<Read>, a: Recording, b: Recording)
    requires a == b && RecordSpec(input, a)
    ensures RecordSpec(input, b)
  {
  }

  /**
   * One pass of the loop from a state RunInv describes: either the loop ends
   * here (it stops, or the input has run out) with a result that meets
   * RecordSpec, or it continues from a state RunInv describes one read later.
   */
  lemma RunStep(input: seq<Read>, i: nat, started: bool, silent: nat, frames: seq<Chunk>, goal: Recording)
      returns (done: bool, started': bool, silent': nat, frames': seq<Chunk>)
    requires RunInv(input, i, started, silent, frames)
    requires Run(input, i, started, silent, frames) == goal
    ensures done ==> RecordSpec(input, goal)
    ensures !done ==> i < |input| && RunInv(input, i + 1, started', silent', frames')
    ensures !done ==> Run(input, i + 1, started', silent', frames') == goal
  {
    if i == |input| {
      EndOfInput(input, started, silent, frames, goal);
      return true, started, silent, frames;
    }
    var data := input[i].data;
    var r := RunOnce(input, i, started, silent, frames);
    if Loud(data) {
      if started {
        StepLoudStarted(input, i, silent, frames);
      } else {
        StepLoudIdle(input, i, silent, frames);
      }
      done, started', silent', frames' := false, true, 0, frames + [data];
    } else if started {
      if silent + 1 >= MaxSilent {
        StopOnSilence(input, i, silent, frames);
        SpecTransfer(input, Recording(frames + [data], true, i + 1), goal);
        done, started', silent', frames' := true, started, silent, frames;
      } else {
        StepQuietStarted(input, i, silent, frames);
        done, started', silent', frames' := false, true, silent + 1, frames + [data];
      }
    } else if input[i].spaceDown {
      StopOnSpace(input, i, silent, frames);
      SpecTransfer(input, Recording(frames, true, i + 1), goal);
      done, started', silent', frames' := true, started, silent, frames;
    } else {
      StepQuietIdle(input, i, silent, frames);
      done, started', silent', frames' := false, false, silent, frames;
    }
  }

  /**
   * Run unfolded once at a read that exists. RunStep uses it to unfold Run
   * exactly one step, so it does not have to let the solver choose how far.
   */
  lemma RunOnce(input: seq<Read>, i: nat, started: bool, silent: nat, frames: seq<Chunk>) returns (r: Recording)
    requires i < |input|
    ensures r == Run(input, i, started, silent, frames)
    ensures var data := input[i].data;
            r == if Loud(data) then Run(input, i + 1, true, 0, frames + [data])
                 else if started then
                   if silent + 1 >= MaxSilent then Recording(frames + [data], true, i + 1)
                   else Run(input, i + 1, true, silent + 1, frames + [data])
                 else if input[i].spaceDown then Recording(frames, true, i + 1)
                 else Run(input, i + 1, false, silent, frames)
  {
    r := Run(input, i, started, silent, frames);
  }

  /** record_audio returns what RecordSpec describes. */
  lemma RecordMeetsSpec(input: seq<Read>)
    ensures RecordSpec(input, Record(input))
  {
    RunInvStart(input);
    RunToEnd(input, 0, false, 0, [], Record(input));
  }

  lemma RunInvStart(input: seq<Read>)
    ensures RunInv(input, 0, false, 0, [])
  {
    var none: seq<Chunk> := [];
    assert none[..0] == none;
  }

  /** The loop, continued from a state RunInv describes, ends in a recording RecordSpec describes. */
  lemma {:induction false} RunToEnd(input: seq<Read>, i: nat, started: bool, silent: nat, frames: seq<Chunk>, goal: Recording)
    requires RunInv(input, i, started, silent, frames)
    requires Run(input, i, started, silent, frames) == goal
    ensures RecordSpec(input, goal)
    decreases |input| - i
  {
    var done, started', silent', frames' := RunStep(input, i, started, silent, frames, goal);
    if !done {
      RunToEnd(input, i + 1, started', silent', frames', goal);
    }
  }


  lemma RecordingShape(input: seq<Read>)
    requires Record(input).stopped && Record(input).frames != []
    ensures var fs := Record(input).frames;
            && |fs| > MaxSilent
            && Loud(fs[0])
            && forall j :: |fs| - MaxSilent <= j < |fs| ==> !Loud(fs[j])
  {
    RecordMeetsSpec(input);
    var r := Record(input);
    var s := FirstLoud(input);
    assert s < r.used;
    SpanAt(input, s, r.used, s);
  }

  /** Pure silence with no key press never yields a recording. */
  lemma SilenceRecordsNothing(input: seq<Read>)
    requires forall j :: 0 <= j < |input| ==> !Loud(input[j].data) && !input[j].spaceDown
    ensures Record(input) == Recording([], false, |input|)
  {
    RecordMeetsSpec(input);
    var r := Record(input);
    assert FirstLoud(input) == |input|;
  }

  /**
   * Space pressed on a read before any loud one ends recording right there,
   * with nothing recorded.
   */
  lemma SpaceAbortsBeforeSpeech(input: seq<Read>, j: nat)
    requires j < FirstLoud(input)
    requires input[j].spaceDown
    requires forall i :: 0 <= i < j ==> !input[i].spaceDown
    ensures Record(input) == Recording([], true, j + 1)
  {
    RecordMeetsSpec(input);
  }

  /** Space is not polled once speech has started: reads after the first loud one may have any key state. */
  lemma {:induction false} RunIgnoresSpace(input: seq<Read>, input2: seq<Read>, i: nat, started: bool, silent: nat, frames: seq<Chunk>)
    requires |input2| == |input| && i <= |input|
    requires forall j :: 0 <= j < |input| ==> input2[j].data == input[j].data
    requires forall j :: i <= j < FirstLoud(input) ==> input2[j].spaceDown == input[j].spaceDown
    requires !started ==> i <= FirstLoud(input)
    ensures Run(input, i, started, silent, frames) == Run(input2, i, started, silent, frames)
    decreases |input| - i
  {
    if i < |input| {
      var data := input[i].data;
      if Loud(data) {
        RunIgnoresSpace(input, input2, i + 1, true, 0, frames + [data]);
      } else if started {
        if silent + 1 < MaxSilent {
          RunIgnoresSpace(input, input2, i + 1, true, silent + 1, frames + [data]);
        }
      } else {
        assert i < FirstLoud(input);
        RunIgnoresSpace(input, input2, i + 1, false, silent, frames);
      }
    }
  }

  lemma SpaceIgnoredAfterStart(input: seq<Read>, input2: seq<Read>)
    requires |input2| == |input|
    requires forall j :: 0 <= j < |input| ==> input2[j].data == input[j].data
    requires forall j :: 0 <= j < FirstLoud(input) ==> input2[j].spaceDown == input[j].spaceDown
    ensures Record(input) == Record(input2)
  {
    RunIgnoresSpace(input, input2, 0, false, 0, []);
  }

  /** Element j - s of a span is the chunk of read j. */
  lemma {:induction false} SpanAt(input: seq<Read>, s: nat, i: nat, j: nat)
    requires s <= j < i <= |input|
    ensures Span(input, s, i)[j - s] == input[j].data
    decreases i
  {
    if j < i - 1 {
      SpanAt(input, s, i - 1, j);
    }
  }

  /** A span read from its first element. */
  lemma {:induction false} SpanCons(input: seq<Read>, i: nat, n: nat)
    requires i < n <= |input|
    ensures Span(input, i, n) == [input[i].data] + Span(input, i + 1, n)
    decreases n
  {
    if i + 1 < n {
      SpanCons(input, i, n - 1);
    }
  }

  /** Loud reads i .. n-1 are all appended and leave the loop started with no silence counted. */
  lemma {:induction false} LoudStretch(input: seq<Read>, i: nat, n: nat, started: bool, silent: nat, frames: seq<Chunk>)
    requires i < n <= |input|
    requires forall j :: i <= j < n ==> Loud(input[j].data)
    ensures Run(input, i, started, silent, frames) == Run(input, n, true, 0, frames + Span(input, i, n))
    decreases n - i
  {
    var next := frames + [input[i].data];
    SpanCons(input, i, n);
    if i + 1 < n {
      LoudStretch(input, i + 1, n, true, 0, next);
      assert next + Span(input, i + 1, n) == frames + Span(input, i, n);
    } else {
      assert Span(input, i + 1, n) == [];
      assert frames + Span(input, i, n) == next;
    }
  }

  /**
   * With `silent` quiet chunks already counted, quiet reads i .. n-1 bring the
   * count to MaxSilent and end the recording at read n-1.
   */
  lemma {:induction false} QuietStretch(input: seq<Read>, i: nat, n: nat, silent: nat, frames: seq<Chunk>)
    requires silent < MaxSilent && n == i + (MaxSilent - silent) && n <= |input|
    requires forall j :: i <= j < n ==> !Loud(input[j].data)
    ensures Run(input, i, true, silent, frames) == Recording(frames + Span(input, i, n), true, n)
    decreases MaxSilent - silent
  {
    var next := frames + [input[i].data];
    SpanCons(input, i, n);
    if silent + 1 < MaxSilent {
      QuietStretch(input, i + 1, n, silent + 1, next);
      assert next + Span(input, i + 1, n) == frames + Span(input, i, n);
    } else {
      assert Span(input, i + 1, n) == [];
    }
  }

  /**
   * Speech followed by exactly MaxSilent quiet reads (18 reads, 1.44 s of
   * audio) is recorded in full, trailing silence included, and nothing after it
   * is read.
   */
  lemma SpeechThenSilence(speech: seq<Read>, silence: seq<Read>, rest: seq<Read>)
    requires speech != [] && forall j :: 0 <= j < |speech| ==> Loud(speech[j].data)
    requires |silence| == MaxSilent && forall j :: 0 <= j < |silence| ==> !Loud(silence[j].data)
    ensures var r := Record(speech + silence + rest);
            && r.stopped && r.used == |speech| + MaxSilent
            && |r.frames| == |speech| + MaxSilent
            && (forall j :: 0 <= j < |speech| ==> r.frames[j] == speech[j].data)
            && (forall j :: 0 <= j < MaxSilent ==> r.frames[|speech| + j] == silence[j].data)
  {
    var input := speech + silence + rest;
    var k := |speech|;
    var n := k + MaxSilent;
    forall j | 0 <= j < k
      ensures input[j] == speech[j]
    {
    }
    forall j | k <= j < n
      ensures input[j] == silence[j - k]
    {
    }
    LoudThenQuiet(input, k);
    forall j | 0 <= j < n
      ensures Span(input, 0, n)[j] == input[j].data
    {
      SpanAt(input, 0, n, j);
    }
  }

  /** Reads 0 .. k-1 loud and the next MaxSilent quiet: exactly those reads are recorded. */
  lemma LoudThenQuiet(input: seq<Read>, k: nat)
    requires 0 < k && k + MaxSilent <= |input|
    requires forall j :: 0 <= j < k ==> Loud(input[j].data)
    requires forall j :: k <= j < k + MaxSilent ==> !Loud(input[j].data)
    ensures Record(input) == Recording(Span(input, 0, k + MaxSilent), true, k + MaxSilent)
  {
    var n := k + MaxSilent;
    var none: seq<Chunk> := [];
    LoudStretch(input, 0, k, false, 0, none);
    QuietStretch(input, k, n, 0, none + Span(input, 0, k));
    SpanJoin(input, 0, k, n);
    EmptyPrefix(Span(input, 0, k), Span(input, k, n), Span(input, 0, n));
  }

  /**
   * Concatenation with an empty prefix. LoudThenQuiet calls it so the solver
   * does not reason about `[] + a + b` in its larger context.
   */
  lemma EmptyPrefix(a: seq<Chunk>, b: seq<Chunk>, c: seq<Chunk>)
    requires a + b == c
    ensures [] + a + b == c
  {
    assert [] + a == a;
  }

  /** Two adjacent spans make one. */
  lemma {:induction false} SpanJoin(input: seq<Read>, s: nat, k: nat, n: nat)
    requires s <= k <= n <= |input|
    ensures Span(input, s, k) + Span(input, k, n) == Span(input, s, n)
    decreases n
  {
    if k < n {
      SpanJoin(input, s, k, n - 1);
      assert Span(input, s, k) + (Span(input, k, n - 1) + [input[n - 1].data])
          == (Span(input, s, k) + Span(input, k, n - 1)) + [input[n - 1].data];
    } else {
      assert Span(input, k, n) == [];
    }
  }

  // ---------------------------------------------------------------------------
  // The WAV file written from the frames.
  // ---------------------------------------------------------------------------

  /** b''.join(frames). */
  function Join(frames: seq<Chunk>): (payload: Chunk)
    ensures |payload| == TotalBytes(frames)
  {
    if frames == [] then [] else frames[0] + Join(frames[1..])
  }

  function TotalBytes(frames: seq<Chunk>): nat
  {
    if frames == [] then 0 else |frames[0]| + TotalBytes(frames[1..])
  }

  /** The samples of each frame, frame after frame. */
  function AllSamples(frames: seq<Chunk>): seq<int>
  {
    if frames == [] then [] else Samples(frames[0]) + AllSamples(frames[1..])
  }

  /** The parameters frames_to_wav sets and the data it writes; the header bytes are the wave library's. */
  datatype Wav = Wav(channels: nat, sampleWidth: nat, frameRate: nat, data: seq<byte>)

  function FramesToWav(frames: seq<Chunk>): (w: Wav)
    ensures w.channels == 1 && w.sampleWidth == 2 && w.frameRate == 16000
    ensures |w.data| == TotalBytes(frames)
  {
    Wav(Channels, SampleWidth, Rate, Join(frames))
  }

  lemma {:induction false} JoinAppend(a: seq<Chunk>, b: seq<Chunk>)
    ensures Join(a + b) == Join(a) + Join(b)
    decreases |a|
  {
    if a == [] {
      assert a + b == b;
    } else {
      assert (a + b)[0] == a[0];
      assert (a + b)[1..] == a[1..] + b;
      JoinAppend(a[1..], b);
      assert a[0] + (Join(a[1..]) + Join(b)) == (a[0] + Join(a[1..])) + Join(b);
    }
  }

  lemma {:induction false} SamplesAppend(a: Chunk, b: Chunk)
    ensures Samples(a + b) == Samples(a) + Samples(b)
    decreases |a|
  {
    if |a| != 0 {
      assert (a + b)[2..] == a[2..] + b;
      SamplesAppend(a[2..], b);
    } else {
      assert a + b == b;
    }
  }

  /**
   * Decoding the WAV data as int16 samples gives back every recorded frame's
   * samples, frame by frame in recording order; the data holds one 2-byte
   * sample per frame slot of a mono file.
   */
  lemma {:induction false} WavDataDecodesToFrames(frames: seq<Chunk>)
    ensures Samples(FramesToWav(frames).data) == AllSamples(frames)
    ensures |FramesToWav(frames).data| == SampleWidth * Channels * |AllSamples(frames)|
    decreases |frames|
  {
    if frames != [] {
      WavDataDecodesToFrames(frames[1..]);
      SamplesAppend(frames[0], Join(frames[1..]));
    }
  }

  /** The data written for a recording is the reads from the first loud one to the stop read, joined. */
  lemma WavOfRecording(input: seq<Read>)
    requires FirstLoud(input) < Record(input).used
    ensures FramesToWav(Record(input).frames).data == Join(Span(input, FirstLoud(input), Record(input).used))
  {
    RecordMeetsSpec(input);
  }

  /**
   * Loud is the source's test read as real arithmetic: the mean of the
   * absolute samples is above 500. An empty chunk, whose mean is NaN, is not loud.
   */
  lemma LoudIsMeanAbove(d: Chunk)
    ensures Loud(d) <==> |Samples(d)| > 0 && (SumAbs(Samples(d)) as real) / (|Samples(d)| as real) > 500.0
  {
    if |Samples(d)| > 0 {
      MeanAbove(SumAbs(Samples(d)), |Samples(d)|);
    }
  }

  /** For n > 0, a mean above 500 is a total above 500 * n. */
  lemma MeanAbove(total: int, n: int)
    requires n > 0
    ensures (total as real) / (n as real) > 500.0 <==> total > 500 * n
  {
    var q := (total as real) / (n as real);
    assert q * (n as real) == total as real;
    ScaleSign(q - 500.0, n as real);
    assert (q - 500.0) * (n as real) == total as real - 500.0 * (n as real);
  }

  lemma ScaleSign(x: real, b: real)
    requires b > 0.0
    ensures x * b > 0.0 <==> x > 0.0
  {
    if x > 0.0 {
      assert x * b > 0.0;
    } else {
      assert (-x) * b >= 0.0;
    }
  }

  /** A frame of nothing but -32768 samples is quiet: np.abs leaves every one of them negative. */
  lemma {:induction false} MinSamplesQuiet(s: seq<int>)
    requires forall j :: 0 <= j < |s| ==> s[j] == -32768
    ensures SumAbs(s) == -32768 * |s|
    decreases |s|
  {
    if s != [] {
      MinSamplesQuiet(s[1..]);
    }
  }

  lemma FullScaleNegativeChunkIsQuiet(d: Chunk)
    requires forall j :: 0 <= j < |Samples(d)| ==> Samples(d)[j] == -32768
    ensures !Loud(d)
  {
    MinSamplesQuiet(Samples(d));
  }
}
