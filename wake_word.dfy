/**
 * Wake-word debounce and cooldown: the per-frame transition that
 * AudioManager.detect_wake_word performs in managers/audio_manager.py.
 *
 * The scorer (openwakeword's Model.predict) is a black box: its output for a frame
 * is given as a sequence of predictions in the dictionary's key order. Every
 * call to the clock within one frame is read as the same value `now`.
 */
module WakeWord {

  /** Name of a wake-word model, the key of the scorer's prediction dictionary. */
  type ModelId = string

  /** One entry of the scorer's prediction for a frame. */
  datatype Prediction = Prediction(model: ModelId, score: real)

  /**
   * Activation timestamps per model. The source keeps them in a
   * defaultdict(list), so a model without an entry reads as the empty list.
   */
  type ActivationTimes = map<ModelId, seq<real>>

  /** The triple detect_wake_word returns: triggered, last_save, activation_times. */
  datatype Detection = Detection(detected: bool, lastSave: real, times: ActivationTimes)

  /** Seconds that must pass after the last accepted trigger. */
  const Cooldown: real := 4.0
  /** Seconds that must pass after a model's first recorded activation. */
  const SaveDelay: real := 1.0

  function TimesOf(times: ActivationTimes, m: ModelId): seq<real>
  {
    if m in times then times[m] else []
  }

  /** The keys of a prediction dictionary are distinct. */
  predicate DistinctModels(ps: seq<Prediction>)
  {
    forall i, j :: 0 <= i < j < |ps| ==> ps[i].model != ps[j].model
  }

  /** The append step: a score at or above the threshold records `now` for its model. */
  function Activate(times: ActivationTimes, p: Prediction, threshold: real, now: real): (t: ActivationTimes)
    ensures p.score >= threshold ==> TimesOf(t, p.model) == TimesOf(times, p.model) + [now]
    ensures p.score < threshold ==> t == times
    ensures forall m :: m != p.model ==> TimesOf(t, m) == TimesOf(times, m)
  {
    if p.score >= threshold then times[p.model := TimesOf(times, p.model) + [now]] else times
  }

  /** A model's list once this frame's score has been recorded on top of `times`. */
  function Recorded(times: ActivationTimes, p: Prediction, threshold: real, now: real): seq<real>
  {
    TimesOf(times, p.model) + (if p.score >= threshold then [now] else [])
  }

  /**
   * The instant from which a model whose activation list is `list` may fire:
   * the later of last_save + Cooldown and the first activation + SaveDelay.
   */
  function ReadyFrom(list: seq<real>, lastSave: real): real
    requires list != []
  {
    if lastSave + Cooldown >= list[0] + SaveDelay then lastSave + Cooldown else list[0] + SaveDelay
  }

  /** The trigger condition, checked on a model's list after the append step. */
  predicate Ready(list: seq<real>, now: real, lastSave: real)
  {
    list != [] && now - lastSave >= Cooldown && now - list[0] >= SaveDelay
  }

  /** A model is ready from ReadyFrom on, for good: nothing in the condition ever expires. */
  lemma ReadyExactlyFrom(list: seq<real>, now: real, lastSave: real)
    ensures Ready(list, now, lastSave) <==> list != [] && now >= ReadyFrom(list, lastSave)
  {
  }

  /**
   * The transition of one frame: models are visited in prediction order; each
   * one first records its activation, then fires if it is ready, which resets
   * its list, sets last_save and ends the frame.
   */
  function Detect(ps: seq<Prediction>, threshold: real, now: real, lastSave: real, times: ActivationTimes): (r: Detection)
    ensures r.lastSave == if r.detected then now else lastSave
    decreases |ps|
  {
    if ps == [] then Detection(false, lastSave, times)
    else
      var t := Activate(times, ps[0], threshold, now);
      if Ready(TimesOf(t, ps[0].model), now, lastSave) then Detection(true, now, t[ps[0].model := []])
      else Detect(ps[1..], threshold, now, lastSave, t)
  }

  /** detect_wake_word: the loop over the predictions, updating the activation lists in place. */
  method DetectWakeWord(ps: seq<Prediction>, threshold: real, now: real, lastSave: real, times: ActivationTimes)
    returns (detected: bool, newLastSave: real, newTimes: ActivationTimes)
    ensures Detection(detected, newLastSave, newTimes) == Detect(ps, threshold, now, lastSave, times)
    ensures detected ==> newLastSave == now
    ensures !detected ==> newLastSave == lastSave
  {
    newTimes := times;
    var i := 0;
    while i < |ps|
      invariant 0 <= i <= |ps|
      invariant Detect(ps[i..], threshold, now, lastSave, newTimes) == Detect(ps, threshold, now, lastSave, times)
    {
      var p := ps[i];
      DetectOnce(ps[i..], threshold, now, lastSave, newTimes);
      assert ps[i..][1..] == ps[i + 1..];
      ghost var before := newTimes;
      if p.score >= threshold {
        newTimes := newTimes[p.model := TimesOf(newTimes, p.model) + [now]];
      }
      assert newTimes == Activate(before, p, threshold, now);
      var list := TimesOf(newTimes, p.model);
      if list != [] && now - lastSave >= Cooldown && now - list[0] >= SaveDelay {
        newTimes := newTimes[p.model := []];
        return true, now, newTimes;
      }
      i := i + 1;
    }
    return false, lastSave, newTimes;
  }

  /**
   * Detect unfolded once on a non-empty frame. DetectWakeWord uses it so that
   * the solver unfolds Detect exactly one step per pass of the loop.
   */
  lemma DetectOnce(ps: seq<Prediction>, threshold: real, now: real, lastSave: real, times: ActivationTimes)
    requires ps != []
    ensures var t := Activate(times, ps[0], threshold, now);
            Detect(ps, threshold, now, lastSave, times)
            == if Ready(TimesOf(t, ps[0].model), now, lastSave) then Detection(true, now, t[ps[0].model := []])
               else Detect(ps[1..], threshold, now, lastSave, t)
  {
  }

  // ---------------------------------------------------------------------------
  // An independent description of one frame: the first ready model, read
  // against the lists from before the frame, and the append step applied to
  // the models visited up to it.
  // ---------------------------------------------------------------------------

  /** The append step applied to every prediction of `ps` in order, without any trigger check. */
  function ActivateAll(ps: seq<Prediction>, threshold: real, now: real, times: ActivationTimes): ActivationTimes
    decreases |ps|
  {
    if ps == [] then times
    else Activate(ActivateAll(ps[..|ps| - 1], threshold, now, times), ps[|ps| - 1], threshold, now)
  }

  /** Index of the first prediction whose model is ready, or |ps| when none is. */
  function FirstReady(ps: seq<Prediction>, threshold: real, now: real, lastSave: real, times: ActivationTimes): (k: nat)
    ensures k <= |ps|
    ensures forall j :: 0 <= j < k ==> !Ready(Recorded(times, ps[j], threshold, now), now, lastSave)
    ensures k < |ps| ==> Ready(Recorded(times, ps[k], threshold, now), now, lastSave)
    decreases |ps|
  {
    if ps == [] then 0
    else if Ready(Recorded(times, ps[0], threshold, now), now, lastSave) then 0
    else 1 + FirstReady(ps[1..], threshold, now, lastSave, times)
  }

  /** Recording activations never touches the list of a model that is not among the predictions. */
  lemma {:induction false} ActivateAllMiss(ps: seq<Prediction>, threshold: real, now: real, times: ActivationTimes, m: ModelId)
    requires forall j :: 0 <= j < |ps| ==> ps[j].model != m
    ensures TimesOf(ActivateAll(ps, threshold, now, times), m) == TimesOf(times, m)
    decreases |ps|
  {
    if ps != [] {
      ActivateAllMiss(ps[..|ps| - 1], threshold, now, times, m);
    }
  }

  /** With distinct keys, each model's list gains exactly its own activation. */
  lemma {:induction false} ActivateAllHit(ps: seq<Prediction>, threshold: real, now: real, times: ActivationTimes, j: nat)
    requires DistinctModels(ps) && j < |ps|
    ensures TimesOf(ActivateAll(ps, threshold, now, times), ps[j].model) == Recorded(times, ps[j], threshold, now)
    decreases |ps|
  {
    var n := |ps| - 1;
    if j == n {
      ActivateAllMiss(ps[..n], threshold, now, times, ps[j].model);
    } else {
      ActivateAllHit(ps[..n], threshold, now, times, j);
    }
  }

  /**
   * One frame, described without the loop: the frame triggers exactly when some
   * model is ready; then the first ready model k wins, the models before it have
   * recorded their activations, k's list is cleared and last_save becomes now.
   * Otherwise every model has recorded its activation and last_save is kept.
   */
  function Outcome(ps: seq<Prediction>, threshold: real, now: real, lastSave: real, times: ActivationTimes): Detection
  {
    var k := FirstReady(ps, threshold, now, lastSave, times);
    if k < |ps| then Detection(true, now, ActivateAll(ps[..k + 1], threshold, now, times)[ps[k].model := []])
    else Detection(false, lastSave, ActivateAll(ps, threshold, now, times))
  }

  lemma {:induction false} DetectFrom(ps: seq<Prediction>, threshold: real, now: real, lastSave: real, times: ActivationTimes, i: nat)
    requires DistinctModels(ps) && i <= |ps|
    requires forall j :: 0 <= j < i ==> !Ready(Recorded(times, ps[j], threshold, now), now, lastSave)
    ensures Detect(ps[i..], threshold, now, lastSave, ActivateAll(ps[..i], threshold, now, times))
         == Outcome(ps, threshold, now, lastSave, times)
    decreases |ps| - i
  {
    var k := FirstReady(ps, threshold, now, lastSave, times);
    if i == |ps| {
      assert ps[..i] == ps;
      assert k == |ps|;
    } else {
      DetectStep(ps, threshold, now, lastSave, times, i);
      if Ready(Recorded(times, ps[i], threshold, now), now, lastSave) {
        assert k == i;
      } else {
        DetectFrom(ps, threshold, now, lastSave, times, i + 1);
      }
    }
  }

  /** One step of Detect from position i, with the lists as the append step leaves them before i. */
  lemma DetectStep(ps: seq<Prediction>, threshold: real, now: real, lastSave: real, times: ActivationTimes, i: nat)
    requires DistinctModels(ps) && i < |ps|
    ensures var t := ActivateAll(ps[..i], threshold, now, times);
            var t1 := ActivateAll(ps[..i + 1], threshold, now, times);
            Detect(ps[i..], threshold, now, lastSave, t)
              == if Ready(Recorded(times, ps[i], threshold, now), now, lastSave) then Detection(true, now, t1[ps[i].model := []])
                 else Detect(ps[i + 1..], threshold, now, lastSave, t1)
  {
    var m := ps[i].model;
    var t := ActivateAll(ps[..i], threshold, now, times);
    var t1 := Activate(t, ps[i], threshold, now);
    assert ps[..i + 1][..i] == ps[..i];
    assert ActivateAll(ps[..i + 1], threshold, now, times) == t1;
    ActivateAllMiss(ps[..i], threshold, now, times, m);
    assert TimesOf(t1, m) == Recorded(times, ps[i], threshold, now);
    assert ps[i..][0] == ps[i];
    assert ps[i..][1..] == ps[i + 1..];
  }

  /** With distinct model names, the per-frame loop computes exactly Outcome. */
  lemma DetectOutcome(ps: seq<Prediction>, threshold: real, now: real, lastSave: real, times: ActivationTimes)
    requires DistinctModels(ps)
    ensures Detect(ps, threshold, now, lastSave, times) == Outcome(ps, threshold, now, lastSave, times)
  {
    assert ps[0..] == ps;
    assert ps[..0] == [];
    DetectFrom(ps, threshold, now, lastSave, times, 0);
  }

  /**
   * The model that fires already had an activation before this frame, recorded at
   * least SaveDelay before now; cooldown has elapsed; its list is cleared and
   * last_save is now. In particular a model whose list was empty cannot fire on
   * the frame that records its first activation.
   */
  lemma FiredModelWasArmed(ps: seq<Prediction>, threshold: real, now: real, lastSave: real, times: ActivationTimes)
    requires DistinctModels(ps)
    ensures var r := Detect(ps, threshold, now, lastSave, times);
            var k := FirstReady(ps, threshold, now, lastSave, times);
            r.detected ==>
              && k < |ps|
              && TimesOf(times, ps[k].model) != []
              && now - TimesOf(times, ps[k].model)[0] >= SaveDelay
              && now - lastSave >= Cooldown
              && r.lastSave == now
              && ps[k].model in r.times && r.times[ps[k].model] == []
  {
    DetectOutcome(ps, threshold, now, lastSave, times);
  }

  /**
   * Each model visited before the firing one (every model, when none fires) ends
   * the frame with its old list plus exactly `now` if it scored at or above the
   * threshold, and with its old list otherwise.
   */
  lemma ActivationRecorded(ps: seq<Prediction>, threshold: real, now: real, lastSave: real, times: ActivationTimes, j: nat)
    requires DistinctModels(ps)
    requires j < FirstReady(ps, threshold, now, lastSave, times)
    ensures TimesOf(Detect(ps, threshold, now, lastSave, times).times, ps[j].model)
         == TimesOf(times, ps[j].model) + (if ps[j].score >= threshold then [now] else [])
  {
    var k := FirstReady(ps, threshold, now, lastSave, times);
    DetectOutcome(ps, threshold, now, lastSave, times);
    if k < |ps| {
      RecordedBeforeFired(ps, threshold, now, times, j, k);
    } else {
      ActivateAllHit(ps, threshold, now, times, j);
    }
  }

  /** A model visited before the firing model k keeps its recorded list when k's list is cleared. */
  lemma RecordedBeforeFired(ps: seq<Prediction>, threshold: real, now: real, times: ActivationTimes, j: nat, k: nat)
    requires DistinctModels(ps) && j < k < |ps|
    ensures TimesOf(ActivateAll(ps[..k + 1], threshold, now, times)[ps[k].model := []], ps[j].model)
         == Recorded(times, ps[j], threshold, now)
  {
    var pre := ps[..k + 1];
    var t := ActivateAll(pre, threshold, now, times);
    assert pre[j] == ps[j];
    ActivateAllHit(pre, threshold, now, times, j);
    assert ps[j].model != ps[k].model;
    ClearOther(t, ps[k].model, ps[j].model);
  }

  /** Clearing one model's list leaves every other model's list as it was. */
  lemma ClearOther(t: ActivationTimes, cleared: ModelId, m: ModelId)
    requires cleared != m
    ensures TimesOf(t[cleared := []], m) == TimesOf(t, m)
  {
  }

  /**
   * A model that is not reached in this frame (it comes after the firing model,
   * or it is not among the predictions) keeps its list unchanged.
   */
  lemma UnreachedModelsUntouched(ps: seq<Prediction>, threshold: real, now: real, lastSave: real, times: ActivationTimes, m: ModelId)
    requires DistinctModels(ps)
    requires forall j :: 0 <= j < |ps| && j <= FirstReady(ps, threshold, now, lastSave, times) ==> ps[j].model != m
    ensures TimesOf(Detect(ps, threshold, now, lastSave, times).times, m) == TimesOf(times, m)
  {
    DetectOutcome(ps, threshold, now, lastSave, times);
    OutcomeUntouched(ps, threshold, now, lastSave, times, m);
  }

  lemma OutcomeUntouched(ps: seq<Prediction>, threshold: real, now: real, lastSave: real, times: ActivationTimes, m: ModelId)
    requires forall j :: 0 <= j < |ps| && j <= FirstReady(ps, threshold, now, lastSave, times) ==> ps[j].model != m
    ensures TimesOf(Outcome(ps, threshold, now, lastSave, times).times, m) == TimesOf(times, m)
  {
    var k := FirstReady(ps, threshold, now, lastSave, times);
    var r := Outcome(ps, threshold, now, lastSave, times);
    if k < |ps| {
      assert r.times == ActivateAll(ps[..k + 1], threshold, now, times)[ps[k].model := []];
      MissedBeforeFired(ps, threshold, now, times, k, m);
    } else {
      assert r.times == ActivateAll(ps, threshold, now, times);
      ActivateAllMiss(ps, threshold, now, times, m);
    }
  }

  /** A model absent from predictions 0 .. k keeps its list when model k fires. */
  lemma MissedBeforeFired(ps: seq<Prediction>, threshold: real, now: real, times: ActivationTimes, k: nat, m: ModelId)
    requires k < |ps| && forall j :: 0 <= j <= k ==> ps[j].model != m
    ensures TimesOf(ActivateAll(ps[..k + 1], threshold, now, times)[ps[k].model := []], m) == TimesOf(times, m)
  {
    var pre := ps[..k + 1];
    assert forall j :: 0 <= j < |pre| ==> pre[j] == ps[j];
    ActivateAllMiss(pre, threshold, now, times, m);
    ClearOther(ActivateAll(pre, threshold, now, times), ps[k].model, m);
  }

  /** Within Cooldown of the last accepted trigger no model fires, and last_save is kept. */
  lemma {:induction false} CooldownSuppresses(ps: seq<Prediction>, threshold: real, now: real, lastSave: real, times: ActivationTimes)
    requires now - lastSave < Cooldown
    ensures !Detect(ps, threshold, now, lastSave, times).detected
    ensures Detect(ps, threshold, now, lastSave, times).lastSave == lastSave
    decreases |ps|
  {
    if ps != [] {
      CooldownSuppresses(ps[1..], threshold, now, lastSave, Activate(times, ps[0], threshold, now));
    }
  }

  /** After a trigger at time t, the next frame does not trigger while its clock reads less than t + Cooldown. */
  lemma NoRetriggerWithinCooldown(ps1: seq<Prediction>, now1: real, ps2: seq<Prediction>, now2: real,
                                  threshold: real, lastSave: real, times: ActivationTimes)
    requires Detect(ps1, threshold, now1, lastSave, times).detected
    requires now2 < now1 + Cooldown
    ensures var r1 := Detect(ps1, threshold, now1, lastSave, times);
            !Detect(ps2, threshold, now2, r1.lastSave, r1.times).detected
  {
    var r1 := Detect(ps1, threshold, now1, lastSave, times);
    CooldownSuppresses(ps2, threshold, now2, r1.lastSave, r1.times);
  }

  // ---------------------------------------------------------------------------
  // Ordering of the activation lists.
  // ---------------------------------------------------------------------------

  predicate Sorted(s: seq<real>)
  {
    forall i, j :: 0 <= i <= j < |s| ==> s[i] <= s[j]
  }

  /** Every list is sorted and holds no timestamp later than `now`. */
  predicate SortedUpTo(times: ActivationTimes, now: real)
  {
    forall m :: m in times ==> Sorted(times[m]) && forall i :: 0 <= i < |times[m]| ==> times[m][i] <= now
  }

  /** One frame keeps every activation list sorted and bounded by the frame's clock reading. */
  lemma {:induction false} DetectKeepsSorted(ps: seq<Prediction>, threshold: real, now: real, lastSave: real, times: ActivationTimes)
    requires SortedUpTo(times, now)
    ensures SortedUpTo(Detect(ps, threshold, now, lastSave, times).times, now)
    decreases |ps|
  {
    if ps != [] {
      var t := Activate(times, ps[0], threshold, now);
      assert SortedUpTo(t, now) by {
        forall m | m in t
          ensures Sorted(t[m]) && forall i :: 0 <= i < |t[m]| ==> t[m][i] <= now
        {
          if ps[0].score >= threshold && m == ps[0].model {
            var old_ := TimesOf(times, m);
            assert t[m] == old_ + [now];
          }
        }
      }
      if !Ready(TimesOf(t, ps[0].model), now, lastSave) {
        DetectKeepsSorted(ps[1..], threshold, now, lastSave, t);
      }
    }
  }

  // ---------------------------------------------------------------------------
  // Consecutive frames, with the state threaded from one call to the next as
  // start_audio_chat does.
  // ---------------------------------------------------------------------------

  /** One frame's scorer output and the clock reading taken while it is processed. */
  datatype Frame = Frame(predictions: seq<Prediction>, now: real)

  /** The detector state after a run of frames, and the number of frames that triggered. */
  datatype Listening = Listening(lastSave: real, times: ActivationTimes, triggers: nat)

  /** The listening loop: each frame's detection state is the next frame's input. */
  function Replay(frames: seq<Frame>, threshold: real, lastSave: real, times: ActivationTimes): (r: Listening)
    ensures r.triggers <= |frames|
    ensures r.triggers == 0 ==> r.lastSave == lastSave
    decreases |frames|
  {
    if frames == [] then Listening(lastSave, times, 0)
    else
      var r := Detect(frames[0].predictions, threshold, frames[0].now, lastSave, times);
      var rest := Replay(frames[1..], threshold, r.lastSave, r.times);
      rest.(triggers := rest.triggers + (if r.detected then 1 else 0))
  }

  predicate NonDecreasing(frames: seq<Frame>)
  {
    forall i, j :: 0 <= i <= j < |frames| ==> frames[i].now <= frames[j].now
  }

  /** If the clock readings never go backwards, every activation list stays sorted. */
  lemma {:induction false} ReplayKeepsSorted(frames: seq<Frame>, threshold: real, lastSave: real, times: ActivationTimes)
    requires NonDecreasing(frames)
    requires frames != [] && SortedUpTo(times, frames[0].now)
    ensures SortedUpTo(Replay(frames, threshold, lastSave, times).times, frames[|frames| - 1].now)
    decreases |frames|
  {
    var r := Detect(frames[0].predictions, threshold, frames[0].now, lastSave, times);
    DetectKeepsSorted(frames[0].predictions, threshold, frames[0].now, lastSave, times);
    if |frames| > 1 {
      assert SortedUpTo(r.times, frames[1].now) by {
        forall m | m in r.times
          ensures Sorted(r.times[m]) && forall i :: 0 <= i < |r.times[m]| ==> r.times[m][i] <= frames[1].now
        {
          assert frames[0].now <= frames[1].now;
        }
      }
      ReplayKeepsSorted(frames[1..], threshold, r.lastSave, r.times);
    }
  }

  /** Frames whose clock stays within Cooldown of last_save never trigger. */
  lemma {:induction false} ReplayQuietInCooldown(frames: seq<Frame>, threshold: real, lastSave: real, times: ActivationTimes)
    requires forall i :: 0 <= i < |frames| ==> frames[i].now < lastSave + Cooldown
    ensures Replay(frames, threshold, lastSave, times).triggers == 0
    ensures Replay(frames, threshold, lastSave, times).lastSave == lastSave
    decreases |frames|
  {
    if frames != [] {
      var r := Detect(frames[0].predictions, threshold, frames[0].now, lastSave, times);
      CooldownSuppresses(frames[0].predictions, threshold, frames[0].now, lastSave, times);
      ReplayQuietInCooldown(frames[1..], threshold, r.lastSave, r.times);
    }
  }

  /**
   * Debounce: over frames whose clock readings are non-decreasing and span
   * less than Cooldown, at most one frame triggers.
   */
  lemma {:induction false} AtMostOneTriggerPerCooldown(frames: seq<Frame>, threshold: real, lastSave: real, times: ActivationTimes)
    requires NonDecreasing(frames)
    requires frames != [] && frames[|frames| - 1].now < frames[0].now + Cooldown
    ensures Replay(frames, threshold, lastSave, times).triggers <= 1
    decreases |frames|
  {
    var r := Detect(frames[0].predictions, threshold, frames[0].now, lastSave, times);
    if r.detected {
      forall i | 0 <= i < |frames[1..]|
        ensures frames[1..][i].now < r.lastSave + Cooldown
      {
        assert frames[1..][i] == frames[i + 1];
        assert frames[i + 1].now <= frames[|frames| - 1].now;
      }
      ReplayQuietInCooldown(frames[1..], threshold, r.lastSave, r.times);
    } else if |frames| > 1 {
      assert frames[0].now <= frames[1].now;
      assert frames[1..][|frames[1..]| - 1] == frames[|frames| - 1];
      AtMostOneTriggerPerCooldown(frames[1..], threshold, r.lastSave, r.times);
    }
  }

  /**
   * A single model scoring 0.9 against threshold 0.5, with last_save ten
   * seconds back: the frame at t = 0 only arms it, the frame at t = 0.5 does
   * not fire either, and the frame at t = 1 fires and clears its list.
   */
  lemma FiresOnceSaveDelayElapses()
    ensures var ps := [Prediction("hey_jarvis", 0.9)];
            var r0 := Detect(ps, 0.5, 0.0, -10.0, map[]);
            var r1 := Detect(ps, 0.5, 0.5, r0.lastSave, r0.times);
            var r2 := Detect(ps, 0.5, 1.0, r1.lastSave, r1.times);
            && !r0.detected && r0.times == map["hey_jarvis" := [0.0]]
            && !r1.detected && r1.times == map["hey_jarvis" := [0.0, 0.5]]
            && r2.detected && r2.lastSave == 1.0 && r2.times == map["hey_jarvis" := []]
  {
    var ps := [Prediction("hey_jarvis", 0.9)];
    var t0: ActivationTimes := map[];
    assert TimesOf(t0, "hey_jarvis") + [0.0] == [0.0];
    assert Activate(t0, ps[0], 0.5, 0.0) == map["hey_jarvis" := [0.0]];
    assert ps[1..] == [];
    var r0 := Detect(ps, 0.5, 0.0, -10.0, t0);
    assert r0 == Detection(false, -10.0, map["hey_jarvis" := [0.0]]);
    var t1 := map["hey_jarvis" := [0.0]];
    assert TimesOf(t1, "hey_jarvis") + [0.5] == [0.0, 0.5];
    assert Activate(t1, ps[0], 0.5, 0.5) == map["hey_jarvis" := [0.0, 0.5]];
    var r1 := Detect(ps, 0.5, 0.5, -10.0, t1);
    assert r1 == Detection(false, -10.0, map["hey_jarvis" := [0.0, 0.5]]);
    var t2 := map["hey_jarvis" := [0.0, 0.5]];
    assert TimesOf(t2, "hey_jarvis") + [1.0] == [0.0, 0.5, 1.0];
    assert Activate(t2, ps[0], 0.5, 1.0) == map["hey_jarvis" := [0.0, 0.5, 1.0]];
  }

  // ---------------------------------------------------------------------------
  // A pending activation never expires: once a model's list is non-empty,
  // every frame at or after ReadyFrom that carries a prediction for it
  // triggers, whatever that frame's scores are. The model that fires is the
  // first ready one in prediction order, which need not be this one.
  // ---------------------------------------------------------------------------

  /** A frame that carries a prediction for a ready model triggers, whatever the scores. */
  lemma {:induction false} PendingActivationFires(ps: seq<Prediction>, threshold: real, now: real, lastSave: real,
                                                  times: ActivationTimes, k: nat)
    requires k < |ps| && Ready(TimesOf(times, ps[k].model), now, lastSave)
    ensures Detect(ps, threshold, now, lastSave, times).detected
    decreases |ps|
  {
    var m := ps[k].model;
    var t := Activate(times, ps[0], threshold, now);
    if !Ready(TimesOf(t, ps[0].model), now, lastSave) {
      if ps[0].model == m {
        assert false;
      }
      assert TimesOf(t, m) == TimesOf(times, m);
      assert ps[1..][k - 1] == ps[k];
      PendingActivationFires(ps[1..], threshold, now, lastSave, t, k - 1);
    }
  }

  /**
   * A frame scored 0.9 at t = 0.5, inside the cooldown of a trigger at t = 0,
   * records an activation; the frame at t = 4 then triggers although it
   * scores 0.1, below the threshold.
   */
  lemma LowScoreFiresOnPendingActivation()
    ensures var r0 := Detect([Prediction("m", 0.9)], 0.5, 0.5, 0.0, map["m" := []]);
            var r1 := Detect([Prediction("m", 0.1)], 0.5, 4.0, r0.lastSave, r0.times);
            && !r0.detected && r0.times == map["m" := [0.5]]
            && r1.detected && r1.lastSave == 4.0
  {
    var t0: ActivationTimes := map["m" := []];
    assert TimesOf(t0, "m") + [0.5] == [0.5];
    assert Activate(t0, Prediction("m", 0.9), 0.5, 0.5) == map["m" := [0.5]];
    var r0 := Detect([Prediction("m", 0.9)], 0.5, 0.5, 0.0, t0);
    assert r0 == Detection(false, 0.0, map["m" := [0.5]]);
    PendingActivationFires([Prediction("m", 0.1)], 0.5, 4.0, 0.0, map["m" := [0.5]], 0);
  }

  /** No model has a pending activation. */
  predicate NothingPending(times: ActivationTimes)
  {
    forall m :: m in times ==> times[m] == []
  }

  /** From a state with nothing pending, a frame scored below the threshold changes nothing. */
  lemma {:induction false} BelowThresholdFromIdle(ps: seq<Prediction>, threshold: real, now: real, lastSave: real,
                                                  times: ActivationTimes)
    requires NothingPending(times)
    requires forall j :: 0 <= j < |ps| ==> ps[j].score < threshold
    ensures Detect(ps, threshold, now, lastSave, times) == Detection(false, lastSave, times)
    decreases |ps|
  {
    if ps != [] {
      assert TimesOf(times, ps[0].model) == [];
      BelowThresholdFromIdle(ps[1..], threshold, now, lastSave, times);
    }
  }

  /** Every frame of `frames` scores every model below the threshold. */
  predicate AllBelow(frames: seq<Frame>, threshold: real)
  {
    forall i, j :: 0 <= i < |frames| && 0 <= j < |frames[i].predictions| ==> frames[i].predictions[j].score < threshold
  }

  /**
   * From a state with nothing pending, below-threshold frames never trigger.
   * With an activation pending they can (LowScoreFiresOnPendingActivation).
   */
  lemma {:induction false} ReplayBelowThresholdFromIdle(frames: seq<Frame>, threshold: real, lastSave: real,
                                                        times: ActivationTimes)
    requires NothingPending(times) && AllBelow(frames, threshold)
    ensures Replay(frames, threshold, lastSave, times) == Listening(lastSave, times, 0)
    decreases |frames|
  {
    if frames != [] {
      BelowThresholdFromIdle(frames[0].predictions, threshold, frames[0].now, lastSave, times);
      assert AllBelow(frames[1..], threshold) by {
        forall i, j | 0 <= i < |frames[1..]| && 0 <= j < |frames[1..][i].predictions|
          ensures frames[1..][i].predictions[j].score < threshold
        {
          assert frames[1..][i] == frames[i + 1];
        }
      }
      ReplayBelowThresholdFromIdle(frames[1..], threshold, lastSave, times);
    }
  }
}
