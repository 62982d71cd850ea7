/**
 * eye_controlled_car_with_voice.py: the edge-triggered car controller of
 * eye_controlled_car.py with spoken alerts. The verdict and the car decision
 * are those of the `Car` module; on top of them a "closed" verdict requests a
 * wake-up message when no alert is active or the last one is more than three
 * seconds old, and starting the car silences the alert.
 */
module VoiceCar {
  import opened Debounce
  import opened FrameLoop
  import opened SerialLink
  import opened Car

  /** What `say_voice` is asked to speak; the wake-up message records when it was requested. */
  datatype Speech = SystemReady | CarStarted | WakeUp(at: real) | ShutdownNotice

  /** One frame's cascade report with the `time.time()` reading taken after detection. */
  datatype TimedObservation = TimedObservation(obs: Observation, now: real)

  /** Seconds that must pass before an active alert is repeated. */
  const AlertInterval: real := 3.0

  /** `voice_active` and the loop-local `last_voice_time`. */
  datatype Alert = Alert(voiceActive: bool, lastVoiceTime: real)

  /** Everything the voice controller carries from one frame to the next. */
  datatype Session = Session(counters: Counters, running: bool, alert: Alert)

  /** The state `run` starts from: zero counters, car stopped, no alert, `last_voice_time = 0`. */
  const Start: Session := Session(Initial, false, Alert(false, 0.0))

  /** Lines 224-226: a wake-up message is due. */
  predicate AlertDue(a: Alert, now: real)
  {
    !a.voiceActive || now - a.lastVoiceTime > AlertInterval
  }

  /** One frame's effect besides the counters: the car decision, the new alert state and what is said. */
  datatype Reaction = Reaction(drive: Drive, alert: Alert, said: seq<Speech>)

  /** Lines 202-239 of `run`, for verdict `v` read at time `now`. */
  function React(running: bool, a: Alert, v: Verdict, now: real): (r: Reaction)
    ensures r.drive == Decide(running, v)
    ensures |r.said| <= 1
    ensures CarStarted in r.said <==> v == Open && !running
    ensures WakeUp(now) in r.said <==> v == Closed && AlertDue(a, now)
    ensures r.alert != a ==> r.said != []
    ensures v == Checking ==> r.alert == a && r.said == [] && r.drive.running == running
  {
    match v
    case Open =>
      if running then Reaction(Decide(running, v), a, [])
      else Reaction(Decide(running, v), Alert(false, a.lastVoiceTime), [CarStarted])
    case Closed =>
      if AlertDue(a, now) then Reaction(Decide(running, v), Alert(true, now), [WakeUp(now)])
      else Reaction(Decide(running, v), a, [])
    case Checking => Reaction(Decide(running, v), a, [])
  }

  /** A stretch of a session: where it ends, the bytes it sends and the speech it requests. */
  datatype Trace = Trace(final: Session, sent: seq<char>, said: seq<Speech>)

  /** One frame of `run`: detect, drive the car, maybe speak. */
  function Next(s: Session, t: TimedObservation): Trace
  {
    var r := React(s.running, s.alert, Detect(s.counters, t.obs).verdict, t.now);
    Trace(Session(Update(s.counters, t.obs), r.drive.running, r.alert), Emit(r.drive), r.said)
  }

  /** A stretch `p` followed by one more frame. */
  function Extend(p: Trace, t: TimedObservation): Trace
  {
    var n := Next(p.final, t);
    Trace(n.final, p.sent + n.sent, p.said + n.said)
  }

  /** A whole stretch of frames, the last frame applied last. */
  function Play(s: Session, ts: seq<TimedObservation>): Trace
    decreases |ts|
  {
    if ts == [] then Trace(s, [], []) else Extend(Play(s, ts[..|ts| - 1]), ts[|ts| - 1])
  }

  /** The cascade reports of a stretch of timed frames. */
  function Untimed(ts: seq<TimedObservation>): (obs: seq<Observation>)
    ensures |obs| == |ts|
    ensures forall i :: 0 <= i < |ts| ==> obs[i] == ts[i].obs
  {
    seq(|ts|, i requires 0 <= i < |ts| => ts[i].obs)
  }

  lemma PlaySnoc(s: Session, ts: seq<TimedObservation>, t: TimedObservation)
    ensures Play(s, ts + [t]) == Extend(Play(s, ts), t)
  {
    assert (ts + [t])[..|ts|] == ts;
  }

  /**
   * The voice controller drives the car exactly as the plain controller does:
   * same counters, same car state and the same command bytes, whatever the
   * alert did and whenever the frames arrived.
   */
  lemma {:induction false} PlayDrivesLikeCar(s: Session, ts: seq<TimedObservation>)
    ensures Play(s, ts).final.counters == Replay(s.counters, Untimed(ts))
    ensures Play(s, ts).final.running == Running(s.running, Verdicts(s.counters, Untimed(ts)))
    ensures Play(s, ts).sent == Commands(s.running, Verdicts(s.counters, Untimed(ts)))
    decreases |ts|
  {
    if ts != [] {
      var earlier, t := ts[..|ts| - 1], ts[|ts| - 1];
      PlayDrivesLikeCar(s, earlier);
      assert Untimed(ts) == Untimed(earlier) + [t.obs];
      ReplaySnoc(s.counters, Untimed(earlier), t.obs);
      VerdictsSnoc(s.counters, Untimed(earlier), t.obs);
      DecideSnoc(s.running, Verdicts(s.counters, Untimed(earlier)),
        Detect(Replay(s.counters, Untimed(earlier)), t.obs).verdict);
    }
  }

  /** Two wake-up messages requested one right after the other are more than three seconds apart. */
  predicate Spaced(log: seq<Speech>)
  {
    forall i :: 0 <= i < |log| - 1 && log[i].WakeUp? && log[i + 1].WakeUp? ==>
      log[i + 1].at - log[i].at > AlertInterval
  }

  /**
   * The alert state agrees with the speech log: an alert is active exactly
   * when the last thing requested was a wake-up message, requested at
   * `last_voice_time`.
   */
  predicate AlertMatchesLog(a: Alert, log: seq<Speech>)
  {
    && (a.voiceActive <==> log != [] && log[|log| - 1].WakeUp?)
    && (a.voiceActive ==> log[|log| - 1].at == a.lastVoiceTime)
  }

  /** Appending a request that is not a wake-up message keeps the log spaced. */
  lemma SpacedAppendQuiet(log: seq<Speech>, x: Speech)
    requires Spaced(log) && !x.WakeUp?
    ensures Spaced(log + [x])
  {
    var after := log + [x];
    forall i | 0 <= i < |after| - 1 && after[i].WakeUp? && after[i + 1].WakeUp?
      ensures after[i + 1].at - after[i].at > AlertInterval
    {
      assert after[i] == log[i] && after[i + 1] == log[i + 1];
    }
  }

  /** Appending a wake-up message more than three seconds after a trailing one keeps the log spaced. */
  lemma SpacedAppendWakeUp(log: seq<Speech>, now: real)
    requires Spaced(log)
    requires log != [] && log[|log| - 1].WakeUp? ==> now - log[|log| - 1].at > AlertInterval
    ensures Spaced(log + [WakeUp(now)])
  {
    var after := log + [WakeUp(now)];
    forall i | 0 <= i < |after| - 1 && after[i].WakeUp? && after[i + 1].WakeUp?
      ensures after[i + 1].at - after[i].at > AlertInterval
    {
      if i < |log| - 1 {
        assert after[i] == log[i] && after[i + 1] == log[i + 1];
      }
    }
  }

  /** One frame keeps the speech log spaced and the alert state in step with it. */
  lemma NextKeepsAlertsSpaced(s: Session, t: TimedObservation, log: seq<Speech>)
    requires Spaced(log) && AlertMatchesLog(s.alert, log)
    ensures Spaced(log + Next(s, t).said)
    ensures AlertMatchesLog(Next(s, t).final.alert, log + Next(s, t).said)
  {
    var v := Detect(s.counters, t.obs).verdict;
    var r := React(s.running, s.alert, v, t.now);
    if r.said == [] {
      assert log + r.said == log;
    } else if v == Open {
      SpacedAppendQuiet(log, CarStarted);
    } else {
      SpacedAppendWakeUp(log, t.now);
    }
  }

  /**
   * Alert throttling: while the alert stays active, consecutive wake-up
   * messages are more than three seconds apart, and the alert state keeps
   * agreeing with what was said.
   */
  lemma {:induction false} AlertsSpaced(s: Session, ts: seq<TimedObservation>, log: seq<Speech>)
    requires Spaced(log) && AlertMatchesLog(s.alert, log)
    ensures Spaced(log + Play(s, ts).said)
    ensures AlertMatchesLog(Play(s, ts).final.alert, log + Play(s, ts).said)
    decreases |ts|
  {
    if ts != [] {
      var earlier, t := ts[..|ts| - 1], ts[|ts| - 1];
      AlertsSpaced(s, earlier, log);
      var p := Play(s, earlier);
      NextKeepsAlertsSpaced(p.final, t, log + p.said);
      assert log + Play(s, ts).said == (log + p.said) + Next(p.final, t).said;
    }
  }

  /** From the start of `run`, after the start-up greeting, every session keeps its alerts spaced. */
  lemma SessionAlertsSpaced(ts: seq<TimedObservation>)
    ensures Spaced([SystemReady] + Play(Start, ts).said)
  {
    AlertsSpaced(Start, ts, [SystemReady]);
  }

  /** The detector object with its voice: counters, car and alert state, speech log and Arduino link. */
  class EyeControlledCarWithVoice {
    var eyeClosedCounter: nat
    var noFaceCounter: nat
    var frameCount: nat
    var carRunning: bool
    var voiceActive: bool
    /** What the speech engine was asked to say, in order. */
    var spoken: seq<Speech>
    /** `setup_voice` produced an engine; without one `say_voice` does nothing. */
    const hasEngine: bool
    const arduino: Link

    /** The carried state, with `last_voice_time` supplied by `run`. */
    function State(lastVoiceTime: real): Session
      reads this
    {
      Session(Counters(eyeClosedCounter, noFaceCounter), carRunning, Alert(voiceActive, lastVoiceTime))
    }

    /**
     * `__init__`: counters zero, car stopped, alert inactive; the port greeted
     * with '0' if it opens; then the start-up message.
     */
    constructor (engineReady: bool, portOpens: bool)
      ensures State(0.0) == Start && frameCount == 0
      ensures hasEngine == engineReady && spoken == if engineReady then [SystemReady] else []
      ensures fresh(arduino) && arduino.present == portOpens && arduino.isOpen == portOpens
      ensures arduino.written == if portOpens then ['0'] else []
    {
      eyeClosedCounter, noFaceCounter, frameCount := 0, 0, 0;
      carRunning, voiceActive := false, false;
      hasEngine := engineReady;
      spoken := [];
      arduino := new Link();
      new;
      arduino.Connect(portOpens, '0');
      Say(SystemReady);
    }

    /** `say_voice`: handed to the engine if there is one. */
    method Say(s: Speech)
      modifies this
      ensures spoken == old(spoken) + (if hasEngine then [s] else [])
      ensures State(0.0) == old(State(0.0)) && frameCount == old(frameCount)
    {
      if hasEngine {
        spoken := spoken + [s];
      }
    }

    /** `detect_eye_state`: the same counter rule and verdict as the plain controller. */
    method DetectEyeState(o: Observation) returns (d: Detection)
      modifies this
      ensures State(0.0).counters == Update(old(State(0.0)).counters, o)
      ensures d == Detect(old(State(0.0)).counters, o)
      ensures frameCount == old(frameCount) && carRunning == old(carRunning)
      ensures voiceActive == old(voiceActive) && spoken == old(spoken)
    {
      if !o.facePresent {
        noFaceCounter := noFaceCounter + 1;
        eyeClosedCounter := 0;
        return Detection(Closed, NoDriver, 0);
      }
      noFaceCounter := 0;
      if o.eyeCount < 2 {
        eyeClosedCounter := eyeClosedCounter + 1;
        if eyeClosedCounter > EyeClosedThreshold {
          d := Detection(Closed, EyesClosedStopped(eyeClosedCounter), o.eyeCount);
        } else {
          d := Detection(Checking, StillChecking(eyeClosedCounter), o.eyeCount);
        }
      } else {
        eyeClosedCounter := 0;
        d := Detection(Open, EyesOpenRunning(o.eyeCount), o.eyeCount);
      }
    }

    /** One iteration of `run`, with `last_voice_time` passed in and out. */
    method HandleFrame(t: TimedObservation, last: real) returns (newLast: real)
      modifies this, arduino
      ensures frameCount == old(frameCount) + 1
      ensures State(newLast) == Next(old(State(last)), t).final
      ensures arduino.written == old(arduino.written) +
        (if old(arduino.Live()) then Next(old(State(last)), t).sent else [])
      ensures spoken == old(spoken) + (if hasEngine then Next(old(State(last)), t).said else [])
      ensures arduino.present == old(arduino.present) && arduino.isOpen == old(arduino.isOpen)
    {
      ghost var s := State(last);
      frameCount := frameCount + 1;
      var d := DetectEyeState(t.obs);
      var now := t.now;
      ghost var r := React(s.running, s.alert, d.verdict, now);
      assert Next(s, t) == Trace(Session(Update(s.counters, t.obs), r.drive.running, r.alert), Emit(r.drive), r.said);
      newLast := last;
      if d.verdict == Open {
        if !carRunning {
          arduino.Send('1');
          carRunning := true;
          voiceActive := false;
          Say(CarStarted);
        }
      } else if d.verdict == Closed {
        if carRunning {
          arduino.Send('0');
          carRunning := false;
        }
        if !voiceActive || now - last > AlertInterval {
          voiceActive := true;
          newLast := now;
          Say(WakeUp(now));
        }
      }
    }

    /** The frame loop step seen against the stretch `p` of frames handled so far. */
    method Advance(t: TimedObservation, last: real, ghost w0: seq<char>, ghost g0: seq<Speech>, ghost p: Trace)
      returns (newLast: real)
      modifies this, arduino
      requires State(last) == p.final
      requires arduino.written == w0 + (if arduino.Live() then p.sent else [])
      requires spoken == g0 + (if hasEngine then p.said else [])
      ensures frameCount == old(frameCount) + 1
      ensures arduino.present == old(arduino.present) && arduino.isOpen == old(arduino.isOpen)
      ensures State(newLast) == Extend(p, t).final
      ensures arduino.written == w0 + (if arduino.Live() then Extend(p, t).sent else [])
      ensures spoken == g0 + (if hasEngine then Extend(p, t).said else [])
    {
      ghost var q := Next(p.final, t);
      newLast := HandleFrame(t, last);
      if arduino.Live() {
        assert arduino.written == w0 + (p.sent + q.sent);
      }
      if hasEngine {
        assert spoken == g0 + (p.said + q.said);
      }
    }

    /**
     * The `while True` loop of `run`, starting from `last_voice_time = 0`:
     * the new state, bytes and speech are those of playing the frames read.
     */
    method HandleFrames(frames: seq<Frame<TimedObservation>>) returns (n: nat, last: real)
      modifies this, arduino
      ensures n == FramesRead(frames)
      ensures var p := Play(old(State(0.0)), Observations(frames[..n]));
        && frameCount == old(frameCount) + n
        && State(last) == p.final
        && arduino.written == old(arduino.written) + (if old(arduino.Live()) then p.sent else [])
        && spoken == old(spoken) + (if hasEngine then p.said else [])
      ensures arduino.present == old(arduino.present) && arduino.isOpen == old(arduino.isOpen)
    {
      ghost var s0, w0, g0, live := State(0.0), arduino.written, spoken, arduino.Live();
      ghost var hist: seq<TimedObservation> := [];
      ghost var trace := Trace(s0, [], []);
      last := 0.0;
      n := 0;
      while n < |frames|
        invariant n <= |frames| && FramesRead(frames) == n + FramesRead(frames[n..])
        invariant hist == Observations(frames[..n]) && trace == Play(s0, hist)
        invariant arduino.present == old(arduino.present) && arduino.isOpen == old(arduino.isOpen)
        invariant arduino.Live() == live
        invariant frameCount == old(frameCount) + n
        invariant State(last) == trace.final
        invariant arduino.written == w0 + (if live then trace.sent else [])
        invariant spoken == g0 + (if hasEngine then trace.said else [])
      {
        var t := frames[n].obs;
        last := Advance(t, last, w0, g0, trace);
        ObservationsSnoc(frames, n);
        FramesReadStep(frames, n);
        PlaySnoc(s0, hist, t);
        hist, trace := hist + [t], Extend(trace, t);
        n := n + 1;
        if frames[n - 1].key == Pressed('q') {
          break;
        }
      }
    }

    /** `cleanup`: a final '0' and close if a port exists, then the shutdown message. */
    method Cleanup()
      modifies this, arduino
      ensures arduino.written == old(arduino.written) + (if old(arduino.Live()) then ['0'] else [])
      ensures arduino.present == old(arduino.present) && !arduino.Live()
      ensures spoken == old(spoken) + (if hasEngine then [ShutdownNotice] else [])
      ensures State(0.0) == old(State(0.0)) && frameCount == old(frameCount)
    {
      arduino.Shutdown('0');
      Say(ShutdownNotice);
    }

    /** `run`: the frame loop, then `cleanup` in its `finally` block. */
    method Run(frames: seq<Frame<TimedObservation>>)
      modifies this, arduino
      ensures var p := Play(old(State(0.0)), Observations(frames[..FramesRead(frames)]));
        && frameCount == old(frameCount) + FramesRead(frames)
        && State(0.0).counters == p.final.counters && carRunning == p.final.running
        && voiceActive == p.final.alert.voiceActive
        && arduino.written == old(arduino.written) + (if old(arduino.Live()) then p.sent + ['0'] else [])
        && spoken == old(spoken) + (if hasEngine then p.said + [ShutdownNotice] else [])
      ensures arduino.present == old(arduino.present) && !arduino.Live()
    {
      var n, last := HandleFrames(frames);
      Cleanup();
    }
  }
}
