/**
 * simple_sleepiness_detection.py: the level-triggered drowsiness detector
 * built on the face and eye cascades. The counters follow the shared rule of
 * `Debounce`; a frame is sleepy when a face shows fewer than two eyes for more
 * than 20 frames in a row, and every frame sends one byte: '0' when sleepy,
 * '1' otherwise.
 */
module SimpleSleepiness {
  import opened Debounce
  import opened FrameLoop
  import opened SerialLink

  /** `FACE_ABSENT_THRESHOLD`: frames without a face before the status gives up searching. */
  const FaceAbsentThreshold: nat := 30
  /** `EYE_CLOSED_THRESHOLD`: frames with missing eyes tolerated before the alert. */
  const EyeClosedThreshold: nat := 20

  /** The status text `detect_sleepiness` returns, with the number it shows. */
  datatype Status =
    | NoFaceDetected
    | SearchingForFace(noFaceFrames: nat)
    | DrowsinessAlert(closedFrames: nat)
    | EyesPossiblyClosed(closedFrames: nat)
    | EyesOpen(eyes: nat)

  /** The pair `detect_sleepiness` returns. */
  datatype Assessment = Assessment(sleepy: bool, status: Status)

  /** What `detect_sleepiness` reports for `o` when the counters stood at `c`. */
  function Assess(c: Counters, o: Observation): (a: Assessment)
    ensures a.sleepy == ClosedBeyond(c, o, EyeClosedThreshold)
    ensures !o.facePresent ==>
      a.status == (if c.noFace + 1 > FaceAbsentThreshold then NoFaceDetected else SearchingForFace(c.noFace + 1))
    ensures o.facePresent && o.eyeCount >= 2 ==> a.status == EyesOpen(o.eyeCount)
    ensures EyesMissing(o) ==>
      a.status == (if a.sleepy then DrowsinessAlert(c.eyeClosed + 1) else EyesPossiblyClosed(c.eyeClosed + 1))
  {
    var next := Update(c, o);
    if !o.facePresent then
      if next.noFace > FaceAbsentThreshold then Assessment(false, NoFaceDetected)
      else Assessment(false, SearchingForFace(next.noFace))
    else if o.eyeCount < 2 then
      if next.eyeClosed > EyeClosedThreshold then Assessment(true, DrowsinessAlert(next.eyeClosed))
      else Assessment(false, EyesPossiblyClosed(next.eyeClosed))
    else Assessment(false, EyesOpen(o.eyeCount))
  }

  /** Lines 118-123: the byte a frame sends. */
  function Signal(sleepy: bool): char
  {
    if sleepy then '0' else '1'
  }

  /** The bytes a run of frames sends from counters `c`, one per frame. */
  function Signals(c: Counters, obs: seq<Observation>): (s: seq<char>)
    ensures |s| == |obs|
    decreases |obs|
  {
    if obs == [] then []
    else
      var earlier := obs[..|obs| - 1];
      Signals(c, earlier) + [Signal(Assess(Replay(c, earlier), obs[|obs| - 1]).sleepy)]
  }

  lemma SignalsSnoc(c: Counters, obs: seq<Observation>, o: Observation)
    ensures Signals(c, obs + [o]) == Signals(c, obs) + [Signal(Assess(Replay(c, obs), o).sleepy)]
  {
    assert (obs + [o])[..|obs|] == obs;
  }

  /**
   * Frame i sends '0' exactly when the eyes-closed trigger fires on it, given
   * the counters the frames before it left behind, and '1' otherwise.
   */
  lemma {:induction false} SignalAt(c: Counters, obs: seq<Observation>, i: nat)
    requires i < |obs|
    ensures Signals(c, obs)[i] == if ClosedBeyond(Replay(c, obs[..i]), obs[i], EyeClosedThreshold) then '0' else '1'
    decreases |obs|
  {
    var earlier := obs[..|obs| - 1];
    if i < |earlier| {
      SignalAt(c, earlier, i);
      assert earlier[..i] == obs[..i];
    }
  }

  /**
   * From the start of a session, the frame after `hist` sends '0' exactly
   * when it shows a face with missing eyes that ends a streak of more than 20
   * such frames.
   */
  lemma SignalsFromStart(hist: seq<Observation>, o: Observation)
    ensures Signals(Initial, hist + [o])[|hist|] == '0' <==>
      EyesMissing(o) && TrailingClosed(hist + [o]) > EyeClosedThreshold
  {
    SignalsSnoc(Initial, hist, o);
    ClosedBeyondFromHistory(hist, o, EyeClosedThreshold);
  }

  /**
   * From the start of a session, a frame without a face reports "No face
   * detected" exactly when it ends a streak of more than 30 faceless frames.
   */
  lemma NoFaceStatusFromStart(hist: seq<Observation>, o: Observation)
    requires !o.facePresent
    ensures Assess(Replay(Initial, hist), o).status == NoFaceDetected <==>
      TrailingNoFace(hist + [o]) > FaceAbsentThreshold
  {
    ReplaySnoc(Initial, hist, o);
    CountersFromStart(hist + [o]);
  }

  /** The detector object: its three counters and the Arduino link. */
  class SimpleSleepinessDetector {
    /** Initialised and never changed afterwards. */
    var faceAbsentCounter: nat
    var eyeClosedCounter: nat
    var noFaceCounter: nat
    const arduino: Link

    function CounterState(): Counters
      reads this
    {
      Counters(eyeClosedCounter, noFaceCounter)
    }

    /** `__init__` with `setup_arduino`: zero counters and a '1' sent once if the port opens. */
    constructor (portOpens: bool)
      ensures CounterState() == Initial && faceAbsentCounter == 0
      ensures fresh(arduino) && arduino.present == portOpens && arduino.isOpen == portOpens
      ensures arduino.written == if portOpens then ['1'] else []
    {
      faceAbsentCounter, eyeClosedCounter, noFaceCounter := 0, 0, 0;
      arduino := new Link();
      new;
      arduino.Connect(portOpens, '1');
    }

    /** `detect_sleepiness` for a frame whose cascades report `o`. */
    method DetectSleepiness(o: Observation) returns (a: Assessment)
      modifies this
      ensures CounterState() == Update(old(CounterState()), o)
      ensures a == Assess(old(CounterState()), o)
      ensures faceAbsentCounter == old(faceAbsentCounter)
    {
      if !o.facePresent {
        noFaceCounter := noFaceCounter + 1;
        eyeClosedCounter := 0;
        if noFaceCounter > FaceAbsentThreshold {
          return Assessment(false, NoFaceDetected);
        } else {
          return Assessment(false, SearchingForFace(noFaceCounter));
        }
      }
      noFaceCounter := 0;
      if o.eyeCount < 2 {
        eyeClosedCounter := eyeClosedCounter + 1;
        if eyeClosedCounter > EyeClosedThreshold {
          a := Assessment(true, DrowsinessAlert(eyeClosedCounter));
        } else {
          a := Assessment(false, EyesPossiblyClosed(eyeClosedCounter));
        }
      } else {
        eyeClosedCounter := 0;
        a := Assessment(false, EyesOpen(o.eyeCount));
      }
    }

    /** One iteration of `run`: assess the frame and send its byte. */
    method HandleFrame(o: Observation)
      modifies this, arduino
      ensures CounterState() == Update(old(CounterState()), o)
      ensures arduino.written == old(arduino.written) +
        (if old(arduino.Live()) then [Signal(Assess(old(CounterState()), o).sleepy)] else [])
      ensures arduino.present == old(arduino.present) && arduino.isOpen == old(arduino.isOpen)
      ensures faceAbsentCounter == old(faceAbsentCounter)
    {
      var a := DetectSleepiness(o);
      if a.sleepy {
        arduino.Send('0');
      } else {
        arduino.Send('1');
      }
    }

    /** The frame loop step seen against the whole stretch of frames so far. */
    method Advance(o: Observation, ghost c0: Counters, ghost w0: seq<char>, ghost hist: seq<Observation>)
      modifies this, arduino
      requires CounterState() == Replay(c0, hist)
      requires arduino.written == w0 + (if arduino.Live() then Signals(c0, hist) else [])
      ensures CounterState() == Replay(c0, hist + [o])
      ensures arduino.written == w0 + (if arduino.Live() then Signals(c0, hist + [o]) else [])
      ensures arduino.present == old(arduino.present) && arduino.isOpen == old(arduino.isOpen)
      ensures faceAbsentCounter == old(faceAbsentCounter)
    {
      HandleFrame(o);
      ReplaySnoc(c0, hist, o);
      SignalsSnoc(c0, hist, o);
    }

    /** The `while True` loop of `run`: one byte per frame until the camera stops or 'q' is pressed. */
    method HandleFrames(frames: seq<Frame<Observation>>) returns (n: nat)
      modifies this, arduino
      ensures n == FramesRead(frames)
      ensures CounterState() == Replay(old(CounterState()), Observations(frames[..n]))
      ensures arduino.written == old(arduino.written) +
        (if old(arduino.Live()) then Signals(old(CounterState()), Observations(frames[..n])) else [])
      ensures arduino.present == old(arduino.present) && arduino.isOpen == old(arduino.isOpen)
      ensures faceAbsentCounter == old(faceAbsentCounter)
    {
      ghost var c0, w0, live := CounterState(), arduino.written, arduino.Live();
      ghost var hist: seq<Observation> := [];
      n := 0;
      while n < |frames|
        invariant n <= |frames| && FramesRead(frames) == n + FramesRead(frames[n..])
        invariant hist == Observations(frames[..n])
        invariant arduino.present == old(arduino.present) && arduino.isOpen == old(arduino.isOpen)
        invariant arduino.Live() == live
        invariant faceAbsentCounter == old(faceAbsentCounter)
        invariant CounterState() == Replay(c0, hist)
        invariant arduino.written == w0 + (if live then Signals(c0, hist) else [])
      {
        var o := frames[n].obs;
        Advance(o, c0, w0, hist);
        ObservationsSnoc(frames, n);
        FramesReadStep(frames, n);
        hist := hist + [o];
        n := n + 1;
        if frames[n - 1].key == Pressed('q') {
          break;
        }
      }
    }

    /** `cleanup`: a final '1' and close, if a port exists. */
    method Cleanup()
      modifies arduino
      ensures arduino.written == old(arduino.written) + (if old(arduino.Live()) then ['1'] else [])
      ensures arduino.present == old(arduino.present) && !arduino.Live()
    {
      arduino.Shutdown('1');
    }

    /** `run`: the frame loop, then `cleanup` in its `finally` block. */
    method Run(frames: seq<Frame<Observation>>)
      modifies this, arduino
      ensures var obs := Observations(frames[..FramesRead(frames)]);
        && CounterState() == Replay(old(CounterState()), obs)
        && arduino.written == old(arduino.written) +
             (if old(arduino.Live()) then Signals(old(CounterState()), obs) + ['1'] else [])
      ensures arduino.present == old(arduino.present) && !arduino.Live()
      ensures faceAbsentCounter == old(faceAbsentCounter)
    {
      var n := HandleFrames(frames);
      Cleanup();
    }
  }
}
