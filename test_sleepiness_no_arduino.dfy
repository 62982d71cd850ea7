/**
 * test_sleepiness_no_arduino.py: the cascade-based drowsiness detector
 * without hardware. Besides the shared counters it keeps `total_frames`
 * (one per frame read) and `alert_count` (one per sleepy frame); the 'r' key
 * clears the closed-eyes counter and both tallies but not `no_face_counter`.
 */
module SleepinessTest {
  import opened Debounce
  import opened FrameLoop

  /** `EYE_CLOSED_THRESHOLD`. */
  const EyeClosedThreshold: nat := 20

  /** The status text `detect_sleepiness` returns, with the number it shows. */
  datatype Status = NoFace | DrowsinessAlert(closedFrames: nat) | EyesPossiblyClosed(closedFrames: nat) | EyesOpen(eyes: nat)

  /** The triple `detect_sleepiness` returns. */
  datatype Report = Report(sleepy: bool, status: Status, eyeCount: nat)

  /** Everything the test detector counts. */
  datatype Tally = Tally(counters: Counters, totalFrames: nat, alertCount: nat)

  const Fresh: Tally := Tally(Initial, 0, 0)

  /** What `detect_sleepiness` reports for `o` when the counters stood at `c`. */
  function Inspect(c: Counters, o: Observation): (r: Report)
    ensures r.sleepy == ClosedBeyond(c, o, EyeClosedThreshold)
    ensures r.eyeCount == if o.facePresent then o.eyeCount else 0
    ensures !o.facePresent <==> r.status == NoFace
  {
    var next := Update(c, o);
    if !o.facePresent then Report(false, NoFace, 0)
    else if o.eyeCount < 2 then
      if next.eyeClosed > EyeClosedThreshold then Report(true, DrowsinessAlert(next.eyeClosed), o.eyeCount)
      else Report(false, EyesPossiblyClosed(next.eyeClosed), o.eyeCount)
    else Report(false, EyesOpen(o.eyeCount), o.eyeCount)
  }

  /** One iteration of `run`: count the frame, detect (maybe counting an alert), then the 'r' key. */
  function FrameStep(t: Tally, f: Frame<Observation>): (r: Tally)
    ensures r.counters.noFace == Update(t.counters, f.obs).noFace
    ensures f.key == Pressed('r') ==> r.counters.eyeClosed == 0 && r.totalFrames == 0 && r.alertCount == 0
    ensures f.key != Pressed('r') ==> r.totalFrames == t.totalFrames + 1
    ensures f.key != Pressed('r') ==> (r.alertCount == t.alertCount + 1 <==> Inspect(t.counters, f.obs).sleepy)
    ensures f.key != Pressed('r') ==> r.alertCount <= t.alertCount + 1 && r.alertCount >= t.alertCount
  {
    var c := Update(t.counters, f.obs);
    var sleepy := Inspect(t.counters, f.obs).sleepy;
    if f.key == Pressed('r') then Tally(Counters(0, c.noFace), 0, 0)
    else Tally(c, t.totalFrames + 1, t.alertCount + (if sleepy then 1 else 0))
  }

  /** A run of frames, the last one handled last. */
  function Session(t: Tally, frames: seq<Frame<Observation>>): Tally
    decreases |frames|
  {
    if frames == [] then t else FrameStep(Session(t, frames[..|frames| - 1]), frames[|frames| - 1])
  }

  /** Number of frames in `obs` on which the drowsiness alert fires, starting from counters `c`. */
  function Alerts(c: Counters, obs: seq<Observation>): (n: nat)
    ensures n <= |obs|
    decreases |obs|
  {
    if obs == [] then 0
    else
      var earlier := obs[..|obs| - 1];
      Alerts(c, earlier) + (if ClosedBeyond(Replay(c, earlier), obs[|obs| - 1], EyeClosedThreshold) then 1 else 0)
  }


  lemma SessionSnoc(t: Tally, frames: seq<Frame<Observation>>, f: Frame<Observation>)
    ensures Session(t, frames + [f]) == FrameStep(Session(t, frames), f)
  {
    assert (frames + [f])[..|frames|] == frames;
  }

  /**
   * Without the 'r' key, the counters follow the shared rule, `total_frames`
   * grows by one per frame and `alert_count` by one per sleepy frame.
   */
  lemma {:induction false} NoResetTally(t: Tally, frames: seq<Frame<Observation>>)
    requires forall i :: 0 <= i < |frames| ==> frames[i].key != Pressed('r')
    ensures Session(t, frames) ==
      Tally(Replay(t.counters, Observations(frames)), t.totalFrames + |frames|,
            t.alertCount + Alerts(t.counters, Observations(frames)))
    decreases |frames|
  {
    if frames != [] {
      var earlier := frames[..|frames| - 1];
      NoResetTally(t, earlier);
      assert Observations(frames)[..|frames| - 1] == Observations(earlier);
    }
  }

  /**
   * `total_frames` counts the frames since the last reset (continuing the
   * starting value if there was none), and resets never touch
   * `no_face_counter`, which follows the shared rule throughout.
   */
  lemma {:induction false} TotalSinceReset(t: Tally, frames: seq<Frame<Observation>>)
    ensures Session(t, frames).totalFrames ==
      if FramesSince(frames, 'r') == |frames| then t.totalFrames + |frames| else FramesSince(frames, 'r')
    ensures Session(t, frames).counters.noFace == Replay(t.counters, Observations(frames)).noFace
    decreases |frames|
  {
    if frames != [] {
      var earlier := frames[..|frames| - 1];
      TotalSinceReset(t, earlier);
      assert Observations(frames)[..|frames| - 1] == Observations(earlier);
      assert Observations(frames) == Observations(earlier) + [frames[|frames| - 1].obs];
      ReplaySnoc(t.counters, Observations(earlier), frames[|frames| - 1].obs);
    }
  }

  /** The test detector object: its counters and tallies. */
  class SleepinessTestDetector {
    var eyeClosedCounter: nat
    var noFaceCounter: nat
    var totalFrames: nat
    var alertCount: nat

    function State(): Tally
      reads this
    {
      Tally(Counters(eyeClosedCounter, noFaceCounter), totalFrames, alertCount)
    }

    /** `__init__`: everything zero. */
    constructor ()
      ensures State() == Fresh
    {
      eyeClosedCounter, noFaceCounter, totalFrames, alertCount := 0, 0, 0, 0;
    }

    /** `detect_sleepiness` for a frame whose cascades report `o`. */
    method DetectSleepiness(o: Observation) returns (r: Report)
      modifies this
      ensures State().counters == Update(old(State()).counters, o)
      ensures r == Inspect(old(State()).counters, o)
      ensures totalFrames == old(totalFrames)
      ensures alertCount == old(alertCount) + (if r.sleepy then 1 else 0)
    {
      if !o.facePresent {
        noFaceCounter := noFaceCounter + 1;
        eyeClosedCounter := 0;
        return Report(false, NoFace, 0);
      }
      noFaceCounter := 0;
      if o.eyeCount < 2 {
        eyeClosedCounter := eyeClosedCounter + 1;
        if eyeClosedCounter > EyeClosedThreshold {
          alertCount := alertCount + 1;
          r := Report(true, DrowsinessAlert(eyeClosedCounter), o.eyeCount);
        } else {
          r := Report(false, EyesPossiblyClosed(eyeClosedCounter), o.eyeCount);
        }
      } else {
        eyeClosedCounter := 0;
        r := Report(false, EyesOpen(o.eyeCount), o.eyeCount);
      }
    }

    /** One iteration of `run`: count the frame, detect, then honour the 'r' key. */
    method HandleFrame(f: Frame<Observation>)
      modifies this
      ensures State() == FrameStep(old(State()), f)
    {
      totalFrames := totalFrames + 1;
      var r := DetectSleepiness(f.obs);
      if f.key == Pressed('r') {
        eyeClosedCounter, alertCount, totalFrames := 0, 0, 0;
      }
    }

    /**
     * `run`: handle frames until the camera stops or 'q' is pressed. The
     * final `cleanup` only prints the tallies.
     */
    method Run(frames: seq<Frame<Observation>>)
      modifies this
      ensures State() == Session(old(State()), frames[..FramesRead(frames)])
    {
      ghost var t0 := State();
      var n := 0;
      while n < |frames|
        invariant n <= |frames| && FramesRead(frames) == n + FramesRead(frames[n..])
        invariant State() == Session(t0, frames[..n])
      {
        var f := frames[n];
        HandleFrame(f);
        assert frames[..n + 1] == frames[..n] + [f];
        SessionSnoc(t0, frames[..n], f);
        FramesReadStep(frames, n);
        n := n + 1;
        if f.key == Pressed('q') {
          break;
        }
      }
    }
  }
}
