/**
 * eye_controlled_car.py: the edge-triggered car controller. Each frame is
 * reduced to a tri-state verdict (eyes open, eyes closed or no driver,
 * still checking), and the car is started with '1' or stopped with '0' only
 * when the verdict flips the car's state.
 */
module Car {
  import opened Wrappers
  import opened Debounce
  import opened FrameLoop
  import opened SerialLink

  /** `EYE_CLOSED_THRESHOLD`: frames with missing eyes tolerated before the car stops. */
  const EyeClosedThreshold: nat := 15

  /** The first value `detect_eye_state` returns: True, False or None. */
  datatype Verdict = Open | Closed | Checking

  /** The status line `detect_eye_state` returns, with the number it shows. */
  datatype Status =
    | NoDriver
    | EyesClosedStopped(closedFrames: nat)
    | StillChecking(closedFrames: nat)
    | EyesOpenRunning(eyes: nat)

  /** The triple `detect_eye_state` returns: verdict, status and eye count. */
  datatype Detection = Detection(verdict: Verdict, status: Status, eyeCount: nat)

  /** What `detect_eye_state` reports for `o` when the counters stood at `c`. */
  function Detect(c: Counters, o: Observation): Detection
  {
    var next := Update(c, o);
    if !o.facePresent then Detection(Closed, NoDriver, 0)
    else if o.eyeCount < 2 then
      if next.eyeClosed > EyeClosedThreshold then Detection(Closed, EyesClosedStopped(next.eyeClosed), o.eyeCount)
      else Detection(Checking, StillChecking(next.eyeClosed), o.eyeCount)
    else Detection(Open, EyesOpenRunning(o.eyeCount), o.eyeCount)
  }

  /** The verdict of every frame of a history, starting from counters `c`. */
  function Verdicts(c: Counters, obs: seq<Observation>): (vs: seq<Verdict>)
    ensures |vs| == |obs|
    decreases |obs|
  {
    if obs == [] then []
    else
      var earlier := obs[..|obs| - 1];
      Verdicts(c, earlier) + [Detect(Replay(c, earlier), obs[|obs| - 1]).verdict]
  }

  /**
   * The verdict read off the frame history alone: no face stops the car, two
   * eyes run it, and a face with missing eyes stops it only once the streak of
   * such frames ending here is longer than the threshold.
   */
  lemma VerdictFromHistory(hist: seq<Observation>, o: Observation)
    ensures Detect(Replay(Initial, hist), o).verdict ==
      if !o.facePresent then Closed
      else if o.eyeCount >= 2 then Open
      else if TrailingClosed(hist + [o]) > EyeClosedThreshold then Closed
      else Checking
  {
    ClosedBeyondFromHistory(hist, o, EyeClosedThreshold);
  }

  /**
   * A streak of frames with a face but missing eyes: frame i (from 0) is
   * still checking until the counter passes 15, and closed from then on. From
   * a zero counter the 16th such frame is the first closed one.
   */
  lemma {:induction false} ClosedStreakVerdicts(c: Counters, obs: seq<Observation>)
    requires forall i :: 0 <= i < |obs| ==> EyesMissing(obs[i])
    ensures Replay(c, obs).eyeClosed == c.eyeClosed + |obs|
    ensures forall i :: 0 <= i < |obs| ==>
      Verdicts(c, obs)[i] == if c.eyeClosed + i + 1 > EyeClosedThreshold then Closed else Checking
    decreases |obs|
  {
    if obs != [] {
      var earlier := obs[..|obs| - 1];
      ClosedStreakVerdicts(c, earlier);
    }
  }

  /** Two eyes after any history: the counter is cleared and the car may run. */
  lemma OpenEyesReset(c: Counters, obs: seq<Observation>, o: Observation)
    requires o.facePresent && o.eyeCount >= 2
    ensures Replay(c, obs + [o]).eyeClosed == 0
    ensures Verdicts(c, obs + [o]) == Verdicts(c, obs) + [Open]
  {
    ReplaySnoc(c, obs, o);
    assert (obs + [o])[..|obs|] == obs;
  }

  /** The outcome of one frame's verdict on the car: its new state and the byte sent, if any. */
  datatype Drive = Drive(running: bool, command: Option<char>)

  /** Lines 124-141 of `run`: act only when the verdict flips the car's state. */
  function Decide(running: bool, v: Verdict): Drive
  {
    match v
    case Open => if running then Drive(true, None) else Drive(true, Some('1'))
    case Closed => if running then Drive(false, Some('0')) else Drive(false, None)
    case Checking => Drive(running, None)
  }

  /** The bytes a decision puts on the wire. */
  function Emit(d: Drive): seq<char>
  {
    if d.command.Some? then [d.command.value] else []
  }

  /** `car_running` after a run of verdicts. */
  function Running(running: bool, vs: seq<Verdict>): bool
    decreases |vs|
  {
    if vs == [] then running else Decide(Running(running, vs[..|vs| - 1]), vs[|vs| - 1]).running
  }

  /** The commands a run of verdicts sends, in order. */
  function Commands(running: bool, vs: seq<Verdict>): seq<char>
    decreases |vs|
  {
    if vs == [] then []
    else
      var earlier := vs[..|vs| - 1];
      Commands(running, earlier) + Emit(Decide(Running(running, earlier), vs[|vs| - 1]))
  }

  /** The byte that puts the car into state `running`. */
  function CommandFor(running: bool): char
  {
    if running then '1' else '0'
  }

  /** Consecutive commands differ: the stream never repeats a start or a stop. */
  predicate Alternating(s: seq<char>)
  {
    forall i :: 0 <= i < |s| - 1 ==> s[i] != s[i + 1]
  }

  /**
   * Edge triggering: the commands alternate, the first one changes the
   * starting state, the last one is the car's final state, and with no
   * command the car's state is unchanged.
   */
  lemma {:induction false} CommandsAlternate(running: bool, vs: seq<Verdict>)
    ensures Alternating(Commands(running, vs))
    ensures forall i :: 0 <= i < |Commands(running, vs)| ==> Commands(running, vs)[i] in {'0', '1'}
    ensures Commands(running, vs) != [] ==> Commands(running, vs)[0] == CommandFor(!running)
    ensures Commands(running, vs) != [] ==>
      Commands(running, vs)[|Commands(running, vs)| - 1] == CommandFor(Running(running, vs))
    ensures Commands(running, vs) == [] ==> Running(running, vs) == running
    decreases |vs|
  {
    if vs != [] {
      CommandsAlternate(running, vs[..|vs| - 1]);
    }
  }

  /** A steady run of one verdict, of any length, sends at most one command. */
  lemma {:induction false} SteadyVerdictSendsAtMostOnce(running: bool, vs: seq<Verdict>, v: Verdict)
    requires forall i :: 0 <= i < |vs| ==> vs[i] == v
    ensures |Commands(running, vs)| <= 1
    ensures vs != [] && v != Checking ==> Running(running, vs) == (v == Open)
    ensures v == Checking ==> Commands(running, vs) == [] && Running(running, vs) == running
    decreases |vs|
  {
    if vs != [] {
      SteadyVerdictSendsAtMostOnce(running, vs[..|vs| - 1], v);
    }
  }

  /**
   * The whole stream a connected session puts on the wire before cleanup, the
   * greeting '0' included, still never repeats a command.
   */
  lemma SessionStreamAlternates(vs: seq<Verdict>)
    ensures Alternating(['0'] + Commands(false, vs))
  {
    CommandsAlternate(false, vs);
    var s := ['0'] + Commands(false, vs);
    forall i | 0 <= i < |s| - 1
      ensures s[i] != s[i + 1]
    {
      if i > 0 {
        assert s[i] == Commands(false, vs)[i - 1];
      }
    }
  }

  /**
   * The scenario of a running car and 16 frames with no eyes: frames 1-15
   * send nothing and keep the car running, frame 16 sends exactly one '0'.
   */
  lemma SixteenClosedFramesStopOnce(obs: seq<Observation>)
    requires |obs| == 16
    requires forall i :: 0 <= i < |obs| ==> EyesMissing(obs[i])
    ensures Commands(true, Verdicts(Initial, obs[..15])) == []
    ensures Running(true, Verdicts(Initial, obs[..15]))
    ensures Commands(true, Verdicts(Initial, obs)) == ['0']
    ensures !Running(true, Verdicts(Initial, obs))
  {
    var first := obs[..15];
    ClosedStreakVerdicts(Initial, obs);
    ClosedStreakVerdicts(Initial, first);
    SteadyVerdictSendsAtMostOnce(true, Verdicts(Initial, first), Checking);
    assert first == obs[..|obs| - 1];
    var vs := Verdicts(Initial, obs);
    assert vs[..15] == Verdicts(Initial, first);
    assert vs[15] == Closed;
  }

  /** One more frame adds its verdict. */
  lemma VerdictsSnoc(c: Counters, obs: seq<Observation>, o: Observation)
    ensures Verdicts(c, obs + [o]) == Verdicts(c, obs) + [Detect(Replay(c, obs), o).verdict]
  {
    assert (obs + [o])[..|obs|] == obs;
  }

  /** One more verdict is one more decision. */
  lemma DecideSnoc(running: bool, vs: seq<Verdict>, v: Verdict)
    ensures Running(running, vs + [v]) == Decide(Running(running, vs), v).running
    ensures Commands(running, vs + [v]) == Commands(running, vs) + Emit(Decide(Running(running, vs), v))
  {
    assert (vs + [v])[..|vs|] == vs;
  }

  /** The detector object: its counters, the car state and the Arduino link. */
  class EyeControlledCar {
    var eyeClosedCounter: nat
    var noFaceCounter: nat
    var frameCount: nat
    var carRunning: bool
    const arduino: Link

    /** The two debounce counters as one value. */
    function CounterState(): Counters
      reads this
    {
      Counters(eyeClosedCounter, noFaceCounter)
    }

    /**
     * `__init__` with `setup_arduino`: zero counters, car stopped, and a '0'
     * sent once if the port opens.
     */
    constructor (portOpens: bool)
      ensures CounterState() == Initial && frameCount == 0 && !carRunning
      ensures fresh(arduino) && arduino.present == portOpens && arduino.isOpen == portOpens
      ensures arduino.written == if portOpens then ['0'] else []
    {
      eyeClosedCounter, noFaceCounter, frameCount := 0, 0, 0;
      carRunning := false;
      arduino := new Link();
      new;
      arduino.Connect(portOpens, '0');
    }

    /** `detect_eye_state` for a frame whose cascades report `o`. */
    method DetectEyeState(o: Observation) returns (d: Detection)
      modifies this
      ensures CounterState() == Update(old(CounterState()), o)
      ensures d == Detect(old(CounterState()), o)
      ensures frameCount == old(frameCount) && carRunning == old(carRunning)
    {
      if !o.facePresent {
        noFaceCounter := noFaceCounter + 1;
        eyeClosedCounter := 0;
        return Detection(Closed, NoDriver, 0);
      }
      noFaceCounter := 0;
      if o.eyeCount < 2 {
        eyeClosedCounter := eyeClosedCounter + 1;
        if eyeClosedCounter > EyeClosedThreshold {
          d := Detection(Closed, EyesClosedStopped(eyeClosedCounter), o.eyeCount);
        } else {
          d := Detection(Checking, StillChecking(eyeClosedCounter), o.eyeCount);
        }
      } else {
        eyeClosedCounter := 0;
        d := Detection(Open, EyesOpenRunning(o.eyeCount), o.eyeCount);
      }
    }

    /** The car-control part of one `run` iteration. */
    method ControlCar(v: Verdict)
      modifies this, arduino
      ensures carRunning == Decide(old(carRunning), v).running
      ensures arduino.written == old(arduino.written) + (if old(arduino.Live()) then Emit(Decide(old(carRunning), v)) else [])
      ensures arduino.present == old(arduino.present) && arduino.isOpen == old(arduino.isOpen)
      ensures CounterState() == old(CounterState()) && frameCount == old(frameCount)
    {
      if v == Open {
        if !carRunning {
          arduino.Send('1');
          carRunning := true;
        }
      } else if v == Closed {
        if carRunning {
          arduino.Send('0');
          carRunning := false;
        }
      }
    }

    /** One iteration of `run`: count the frame, detect, drive the car. */
    method HandleFrame(o: Observation)
      modifies this, arduino
      ensures frameCount == old(frameCount) + 1
      ensures CounterState() == Update(old(CounterState()), o)
      ensures carRunning == Decide(old(carRunning), Detect(old(CounterState()), o).verdict).running
      ensures arduino.written == old(arduino.written) +
        (if old(arduino.Live()) then Emit(Decide(old(carRunning), Detect(old(CounterState()), o).verdict)) else [])
      ensures arduino.present == old(arduino.present) && arduino.isOpen == old(arduino.isOpen)
    {
      frameCount := frameCount + 1;
      var d := DetectEyeState(o);
      ControlCar(d.verdict);
    }

    /** `cleanup`: a final '0' if a port exists, then close it. */
    method Cleanup()
      modifies arduino
      ensures arduino.written == old(arduino.written) + (if old(arduino.Live()) then ['0'] else [])
      ensures arduino.present == old(arduino.present) && !arduino.Live()
    {
      arduino.Shutdown('0');
    }

    /**
     * One iteration of `run` seen against the whole session so far: if the
     * state was the replay of `hist` from `c0`, `r0` and `w0`, it becomes the
     * replay of `hist + [o]`.
     */
    method Advance(o: Observation, ghost c0: Counters, ghost r0: bool, ghost w0: seq<char>, ghost hist: seq<Observation>)
      modifies this, arduino
      requires CounterState() == Replay(c0, hist)
      requires carRunning == Running(r0, Verdicts(c0, hist))
      requires arduino.written == w0 + (if arduino.Live() then Commands(r0, Verdicts(c0, hist)) else [])
      ensures frameCount == old(frameCount) + 1
      ensures arduino.present == old(arduino.present) && arduino.isOpen == old(arduino.isOpen)
      ensures CounterState() == Replay(c0, hist + [o])
      ensures carRunning == Running(r0, Verdicts(c0, hist + [o]))
      ensures arduino.written == w0 + (if arduino.Live() then Commands(r0, Verdicts(c0, hist + [o])) else [])
    {
      HandleFrame(o);
      ReplaySnoc(c0, hist, o);
      VerdictsSnoc(c0, hist, o);
      DecideSnoc(r0, Verdicts(c0, hist), Detect(Replay(c0, hist), o).verdict);
    }

    /**
     * The `while True` loop of `run`: handle frames until the camera stops or
     * 'q' is pressed. The new state is the replay of the frames handled.
     */
    method HandleFrames(frames: seq<Frame<Observation>>) returns (n: nat)
      modifies this, arduino
      ensures n == FramesRead(frames)
      ensures var obs := Observations(frames[..n]);
        && frameCount == old(frameCount) + n
        && CounterState() == Replay(old(CounterState()), obs)
        && carRunning == Running(old(carRunning), Verdicts(old(CounterState()), obs))
        && arduino.written == old(arduino.written) +
             (if old(arduino.Live()) then Commands(old(carRunning), Verdicts(old(CounterState()), obs)) else [])
      ensures arduino.present == old(arduino.present) && arduino.isOpen == old(arduino.isOpen)
    {
      ghost var c0, r0, w0, live := CounterState(), carRunning, arduino.written, arduino.Live();
      ghost var hist: seq<Observation> := [];
      n := 0;
      while n < |frames|
        invariant n <= |frames| && FramesRead(frames) == n + FramesRead(frames[n..])
        invariant hist == Observations(frames[..n])
        invariant arduino.present == old(arduino.present) && arduino.isOpen == old(arduino.isOpen)
        invariant arduino.Live() == live
        invariant frameCount == old(frameCount) + n
        invariant CounterState() == Replay(c0, hist)
        invariant carRunning == Running(r0, Verdicts(c0, hist))
        invariant arduino.written == w0 + (if live then Commands(r0, Verdicts(c0, hist)) else [])
      {
        var o := frames[n].obs;
        Advance(o, c0, r0, w0, hist);
        ObservationsSnoc(frames, n);
        FramesReadStep(frames, n);
        hist := hist + [o];
        n := n + 1;
        if frames[n - 1].key == Pressed('q') {
          break;
        }
      }
    }

    /** `run`: the frame loop, then `cleanup` in its `finally` block. */
    method Run(frames: seq<Frame<Observation>>)
      modifies this, arduino
      ensures var obs := Observations(frames[..FramesRead(frames)]);
        && frameCount == old(frameCount) + |obs|
        && CounterState() == Replay(old(CounterState()), obs)
        && carRunning == Running(old(carRunning), Verdicts(old(CounterState()), obs))
        && arduino.written == old(arduino.written) +
             (if old(arduino.Live())
              then Commands(old(carRunning), Verdicts(old(CounterState()), obs)) + ['0']
              else [])
      ensures arduino.present == old(arduino.present) && !arduino.Live()
    {
      var n := HandleFrames(frames);
      Cleanup();
    }
  }
}
