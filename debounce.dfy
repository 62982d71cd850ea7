/**
 * The counter rule shared by the four cascade-based detectors
 * (eye_controlled_car.py, eye_controlled_car_with_voice.py,
 * simple_sleepiness_detection.py, test_sleepiness_no_arduino.py): a frame with
 * no face bumps `no_face_counter` and clears `eye_closed_counter`; a frame with
 * a face clears `no_face_counter`, then bumps `eye_closed_counter` when fewer
 * than two eyes are seen and clears it otherwise.
 */
module Debounce {

  /** What the face and eye cascades report for one frame. */
  datatype Observation = Observation(facePresent: bool, eyeCount: nat)

  /** `eye_closed_counter` and `no_face_counter`. */
  datatype Counters = Counters(eyeClosed: nat, noFace: nat)

  const Initial: Counters := Counters(0, 0)

  /** A face is seen but fewer than two eyes in it. */
  predicate EyesMissing(o: Observation)
  {
    o.facePresent && o.eyeCount < 2
  }

  /** The counter update one detector call performs. */
  function Update(c: Counters, o: Observation): Counters
  {
    if !o.facePresent then Counters(0, c.noFace + 1)
    else if o.eyeCount < 2 then Counters(c.eyeClosed + 1, 0)
    else Counters(0, 0)
  }

  /** The counters after a whole history of frames, the last frame applied last. */
  function Replay(c: Counters, obs: seq<Observation>): Counters
    decreases |obs|
  {
    if obs == [] then c else Update(Replay(c, obs[..|obs| - 1]), obs[|obs| - 1])
  }

  /** Number of frames at the end of `obs` that show a face with fewer than two eyes. */
  function TrailingClosed(obs: seq<Observation>): (n: nat)
    ensures n <= |obs|
    ensures forall i :: |obs| - n <= i < |obs| ==> EyesMissing(obs[i])
    ensures n < |obs| ==> !EyesMissing(obs[|obs| - 1 - n])
    decreases |obs|
  {
    if obs == [] || !EyesMissing(obs[|obs| - 1]) then 0
    else TrailingClosed(obs[..|obs| - 1]) + 1
  }

  /** Number of frames at the end of `obs` that show no face. */
  function TrailingNoFace(obs: seq<Observation>): (n: nat)
    ensures n <= |obs|
    ensures forall i :: |obs| - n <= i < |obs| ==> !obs[i].facePresent
    ensures n < |obs| ==> obs[|obs| - 1 - n].facePresent
    decreases |obs|
  {
    if obs == [] || obs[|obs| - 1].facePresent then 0
    else TrailingNoFace(obs[..|obs| - 1]) + 1
  }

  /** Replaying one more frame is one more update. */
  lemma ReplaySnoc(c: Counters, obs: seq<Observation>, o: Observation)
    ensures Replay(c, obs + [o]) == Update(Replay(c, obs), o)
  {
    assert (obs + [o])[..|obs|] == obs;
  }

  /**
   * What the counters mean: each counts the current streak of its kind of
   * frame. A streak that covers the whole history continues the starting value.
   */
  lemma {:induction false} ReplayCountsStreaks(c: Counters, obs: seq<Observation>)
    ensures Replay(c, obs).eyeClosed ==
      if TrailingClosed(obs) == |obs| then c.eyeClosed + |obs| else TrailingClosed(obs)
    ensures Replay(c, obs).noFace ==
      if TrailingNoFace(obs) == |obs| then c.noFace + |obs| else TrailingNoFace(obs)
    decreases |obs|
  {
    if obs != [] {
      ReplayCountsStreaks(c, obs[..|obs| - 1]);
    }
  }

  /** From the initial state, the counters are exactly the two trailing streaks. */
  lemma CountersFromStart(obs: seq<Observation>)
    ensures Replay(Initial, obs) == Counters(TrailingClosed(obs), TrailingNoFace(obs))
  {
    ReplayCountsStreaks(Initial, obs);
  }

  /** After any frame at most one of the two counters is nonzero. */
  lemma AtMostOneCounterLive(c: Counters, obs: seq<Observation>)
    requires obs != []
    ensures Replay(c, obs).eyeClosed == 0 || Replay(c, obs).noFace == 0
  {
  }

  /**
   * The eyes-closed trigger the detectors share: this frame shows a face with
   * fewer than two eyes and the bumped counter is above `threshold`.
   */
  predicate ClosedBeyond(c: Counters, o: Observation, threshold: nat)
  {
    EyesMissing(o) && Update(c, o).eyeClosed > threshold
  }

  /**
   * Seen from the start of the session, the trigger fires exactly when the
   * streak of eyes-missing frames ending with this one is longer than `threshold`.
   */
  lemma ClosedBeyondFromHistory(hist: seq<Observation>, o: Observation, threshold: nat)
    ensures ClosedBeyond(Replay(Initial, hist), o, threshold) <==>
            EyesMissing(o) && TrailingClosed(hist + [o]) > threshold
  {
    ReplaySnoc(Initial, hist, o);
    CountersFromStart(hist + [o]);
  }
}
