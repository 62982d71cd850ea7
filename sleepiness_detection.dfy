/**
 * sleepiness_detection.py: the level-triggered drowsiness detector driven by
 * the eye aspect ratio (EAR). Every face found in a frame is handled in turn:
 * an averaged EAR below 0.21 extends the closed streak and, from the 20th
 * such face on, counts a drowsiness alert and sends '0'; any other EAR ends
 * the streak and sends '1'. The EAR itself is an input.
 */
module Sleepiness {
  import opened FrameLoop
  import opened SerialLink

  /** `EAR_THRESHOLD`. */
  const EarThreshold: real := 0.21
  /** `CONSECUTIVE_FRAMES`: closed faces in a row before an alert. */
  const ConsecutiveFrames: nat := 20

  /** `frame_counter` and `sleepy_counter`. */
  datatype Drowsiness = Drowsiness(frameCounter: nat, sleepyCounter: nat)

  const Zero: Drowsiness := Drowsiness(0, 0)

  /** The eyes of a face count as closed. */
  predicate Closed(ear: real)
  {
    ear < EarThreshold
  }

  /** What handling some faces does: the new counters and the bytes sent. */
  datatype Trace = Trace(final: Drowsiness, sent: seq<char>)

  /** Lines 132-148: one face with averaged EAR `ear`. */
  function FaceStep(d: Drowsiness, ear: real): Trace
  {
    if Closed(ear) then
      var fc := d.frameCounter + 1;
      if fc >= ConsecutiveFrames then Trace(Drowsiness(fc, d.sleepyCounter + 1), ['0'])
      else Trace(Drowsiness(fc, d.sleepyCounter), [])
    else Trace(Drowsiness(0, d.sleepyCounter), ['1'])
  }

  /**
   * One face sends at most one byte: '1' exactly when the eyes are open, '0'
   * exactly when they are closed for the 20th time or more in a row, and the
   * alert count goes up exactly with a '0'.
   */
  lemma FaceStepSignals(d: Drowsiness, ear: real)
    ensures var t := FaceStep(d, ear);
      && |t.sent| <= 1
      && (t.sent == ['1'] <==> !Closed(ear))
      && (t.sent == ['0'] <==> Closed(ear) && d.frameCounter + 1 >= ConsecutiveFrames)
      && t.final.sleepyCounter == d.sleepyCounter + (if t.sent == ['0'] then 1 else 0)
  {
  }

  /** A run of faces, possibly from several frames, the last face handled last. */
  function Scan(d: Drowsiness, ears: seq<real>): Trace
    decreases |ears|
  {
    if ears == [] then Trace(d, [])
    else
      var p := Scan(d, ears[..|ears| - 1]);
      var n := FaceStep(p.final, ears[|ears| - 1]);
      Trace(n.final, p.sent + n.sent)
  }

  /** The faces of a run of frames, frame after frame. */
  function Faces(frames: seq<seq<real>>): seq<real>
    decreases |frames|
  {
    if frames == [] then [] else Faces(frames[..|frames| - 1]) + frames[|frames| - 1]
  }

  /** How often `c` occurs in `s`. */
  function Count(s: seq<char>, c: char): nat
    decreases |s|
  {
    if s == [] then 0 else Count(s[..|s| - 1], c) + (if s[|s| - 1] == c then 1 else 0)
  }

  /** Number of faces at the end of `ears` whose eyes count as closed. */
  function TrailingClosed(ears: seq<real>): (n: nat)
    ensures n <= |ears|
    ensures forall i :: |ears| - n <= i < |ears| ==> Closed(ears[i])
    ensures n < |ears| ==> !Closed(ears[|ears| - 1 - n])
    decreases |ears|
  {
    if ears == [] || !Closed(ears[|ears| - 1]) then 0 else TrailingClosed(ears[..|ears| - 1]) + 1
  }

  lemma ScanSnoc(d: Drowsiness, ears: seq<real>, ear: real)
    ensures Scan(d, ears + [ear]) ==
      Trace(FaceStep(Scan(d, ears).final, ear).final, Scan(d, ears).sent + FaceStep(Scan(d, ears).final, ear).sent)
  {
    assert (ears + [ear])[..|ears|] == ears;
  }

  lemma {:induction false} CountAppend(a: seq<char>, b: seq<char>, c: char)
    ensures Count(a + b, c) == Count(a, c) + Count(b, c)
    decreases |b|
  {
    if b == [] {
      assert a + b == a;
    } else {
      CountAppend(a, b[..|b| - 1], c);
      assert (a + b)[..|a + b| - 1] == a + b[..|b| - 1];
    }
  }

  /** Scanning two stretches in a row ends where scanning them joined ends. */
  lemma {:induction false} ScanAppendFinal(d: Drowsiness, xs: seq<real>, ys: seq<real>)
    ensures Scan(d, xs + ys).final == Scan(Scan(d, xs).final, ys).final
    decreases |ys|
  {
    if ys == [] {
      assert xs + ys == xs;
    } else {
      var init, y := ys[..|ys| - 1], ys[|ys| - 1];
      ScanAppendFinal(d, xs, init);
      assert xs + ys == (xs + init) + [y];
      ScanSnoc(d, xs + init, y);
    }
  }

  /**
   * Faces are handled one after another whatever frame they come from:
   * scanning two stretches in a row is scanning them joined.
   */
  lemma {:induction false} ScanAppend(d: Drowsiness, xs: seq<real>, ys: seq<real>)
    ensures Scan(d, xs + ys).final == Scan(Scan(d, xs).final, ys).final
    ensures Scan(d, xs + ys).sent == Scan(d, xs).sent + Scan(Scan(d, xs).final, ys).sent
    decreases |ys|
  {
    ScanAppendFinal(d, xs, ys);
    if ys == [] {
      assert xs + ys == xs;
    } else {
      var init, y := ys[..|ys| - 1], ys[|ys| - 1];
      ScanAppend(d, xs, init);
      ScanAppendFinal(d, xs, init);
      assert xs + ys == (xs + init) + [y];
      var mid := Scan(d, xs);
      var before := Scan(mid.final, init);
      ScanSnoc(d, xs + init, y);
      var last := FaceStep(before.final, y);
      assert Scan(d, xs + ys).sent == (mid.sent + before.sent) + last.sent;
      assert Scan(mid.final, ys).sent == before.sent + last.sent;
    }
  }

  /** Handling one more frame is scanning its faces from where the earlier frames left off. */
  lemma ScanNextFrame(d: Drowsiness, frames: seq<seq<real>>, ears: seq<real>)
    ensures Scan(d, Faces(frames + [ears])).final == Scan(Scan(d, Faces(frames)).final, ears).final
    ensures Scan(d, Faces(frames + [ears])).sent == Scan(d, Faces(frames)).sent + Scan(Scan(d, Faces(frames)).final, ears).sent
  {
    assert (frames + [ears])[..|frames|] == frames;
    ScanAppend(d, Faces(frames), ears);
  }

  /** A frame without faces changes no counter and sends nothing. */
  lemma NoFaceFrameIsIdle(d: Drowsiness, frames: seq<seq<real>>)
    ensures Faces(frames + [[]]) == Faces(frames)
    ensures Scan(d, Faces(frames + [[]])) == Scan(d, Faces(frames))
  {
    assert (frames + [[]])[..|frames|] == frames;
    assert Faces(frames) + [] == Faces(frames);
  }

  /**
   * What the counters mean: `frame_counter` is the streak of closed faces
   * ending now (continuing the starting value if it spans everything), and
   * `sleepy_counter` grew by exactly the number of '0's sent.
   */
  lemma {:induction false} ScanCounts(d: Drowsiness, ears: seq<real>)
    ensures Scan(d, ears).final.frameCounter ==
      if TrailingClosed(ears) == |ears| then d.frameCounter + |ears| else TrailingClosed(ears)
    ensures Scan(d, ears).final.sleepyCounter == d.sleepyCounter + Count(Scan(d, ears).sent, '0')
    decreases |ears|
  {
    if ears != [] {
      var init := ears[..|ears| - 1];
      ScanCounts(d, init);
      var p := Scan(d, init);
      FaceStepSignals(p.final, ears[|ears| - 1]);
      CountAppend(p.sent, FaceStep(p.final, ears[|ears| - 1]).sent, '0');
    }
  }

  /** `sleepy_counter` never goes down. */
  lemma SleepyCounterGrows(d: Drowsiness, ears: seq<real>)
    ensures Scan(d, ears).final.sleepyCounter >= d.sleepyCounter
  {
    ScanCounts(d, ears);
  }

  /** Every byte sent is '0' or '1'. */
  lemma {:induction false} SignalsAreBits(d: Drowsiness, ears: seq<real>)
    ensures forall i :: 0 <= i < |Scan(d, ears).sent| ==> Scan(d, ears).sent[i] in {'0', '1'}
    decreases |ears|
  {
    if ears != [] {
      var init := ears[..|ears| - 1];
      SignalsAreBits(d, init);
      var p := Scan(d, init);
      var f := FaceStep(p.final, ears[|ears| - 1]);
      assert forall i :: 0 <= i < |f.sent| ==> f.sent[i] in {'0', '1'};
      assert Scan(d, ears).sent == p.sent + f.sent;
    }
  }

  /** A '1' is sent for exactly the faces with open eyes. */
  lemma {:induction false} OnesMatchOpenFaces(d: Drowsiness, ears: seq<real>)
    ensures Count(Scan(d, ears).sent, '1') == |ears| - CountClosed(ears)
    decreases |ears|
  {
    if ears != [] {
      var init := ears[..|ears| - 1];
      OnesMatchOpenFaces(d, init);
      var p := Scan(d, init);
      var f := FaceStep(p.final, ears[|ears| - 1]);
      CountAppend(p.sent, f.sent, '1');
      assert Count(f.sent, '1') == if Closed(ears[|ears| - 1]) then 0 else 1;
    }
  }

  /** How many of the faces have closed eyes. */
  function CountClosed(ears: seq<real>): (n: nat)
    ensures n <= |ears|
    decreases |ears|
  {
    if ears == [] then 0 else CountClosed(ears[..|ears| - 1]) + (if Closed(ears[|ears| - 1]) then 1 else 0)
  }

  /**
   * From fresh counters, 19 closed faces send nothing and the 20th sends the
   * first '0' and counts the first alert.
   */
  lemma TwentiethClosedFaceAlerts(ears: seq<real>)
    requires |ears| == ConsecutiveFrames
    requires forall i :: 0 <= i < |ears| ==> Closed(ears[i])
    ensures Scan(Zero, ears[..ConsecutiveFrames - 1]).sent == []
    ensures Scan(Zero, ears).sent == ['0'] && Scan(Zero, ears).final.sleepyCounter == 1
  {
    QuietBelowAlert(ears[..ConsecutiveFrames - 1]);
    assert ears == ears[..ConsecutiveFrames - 1] + [ears[ConsecutiveFrames - 1]];
    ScanSnoc(Zero, ears[..ConsecutiveFrames - 1], ears[ConsecutiveFrames - 1]);
  }

  /** Fewer than 20 closed faces from fresh counters: no byte, no alert, the streak counted. */
  lemma {:induction false} QuietBelowAlert(ears: seq<real>)
    requires |ears| < ConsecutiveFrames
    requires forall i :: 0 <= i < |ears| ==> Closed(ears[i])
    ensures Scan(Zero, ears) == Trace(Drowsiness(|ears|, 0), [])
    decreases |ears|
  {
    if ears != [] {
      QuietBelowAlert(ears[..|ears| - 1]);
    }
  }

  /** The detector object: its two counters and the Arduino link. */
  class SleepinessDetector {
    var frameCounter: nat
    var sleepyCounter: nat
    const arduino: Link

    function State(): Drowsiness
      reads this
    {
      Drowsiness(frameCounter, sleepyCounter)
    }

    /** `__init__` with `setup_arduino`: zero counters and a '1' sent once if the port opens. */
    constructor (portOpens: bool)
      ensures State() == Zero
      ensures fresh(arduino) && arduino.present == portOpens && arduino.isOpen == portOpens
      ensures arduino.written == if portOpens then ['1'] else []
    {
      frameCounter, sleepyCounter := 0, 0;
      arduino := new Link();
      new;
      arduino.Connect(portOpens, '1');
    }

    /** Lines 132-148: the counters and the byte for one face with averaged EAR `ear`. */
    method HandleFace(ear: real)
      modifies this, arduino
      ensures State() == FaceStep(old(State()), ear).final
      ensures arduino.written == old(arduino.written) + (if old(arduino.Live()) then FaceStep(old(State()), ear).sent else [])
      ensures arduino.present == old(arduino.present) && arduino.isOpen == old(arduino.isOpen)
    {
      if ear < EarThreshold {
        frameCounter := frameCounter + 1;
        if frameCounter >= ConsecutiveFrames {
          sleepyCounter := sleepyCounter + 1;
          arduino.Send('0');
        }
      } else {
        frameCounter := 0;
        arduino.Send('1');
      }
    }

    /** `process_frame`: every detected face, given by its averaged EAR, in order. */
    method ProcessFrame(ears: seq<real>)
      modifies this, arduino
      ensures State() == Scan(old(State()), ears).final
      ensures arduino.written == old(arduino.written) + (if old(arduino.Live()) then Scan(old(State()), ears).sent else [])
      ensures arduino.present == old(arduino.present) && arduino.isOpen == old(arduino.isOpen)
    {
      ghost var d0, w0, live := State(), arduino.written, arduino.Live();
      for i := 0 to |ears|
        invariant State() == Scan(d0, ears[..i]).final
        invariant arduino.present == old(arduino.present) && arduino.isOpen == old(arduino.isOpen)
        invariant arduino.Live() == live
        invariant arduino.written == w0 + (if live then Scan(d0, ears[..i]).sent else [])
      {
        HandleFace(ears[i]);
        ScanSnoc(d0, ears[..i], ears[i]);
        assert ears[..i + 1] == ears[..i] + [ears[i]];
      }
      assert ears[..|ears|] == ears;
    }

    /** The frame loop step seen against all the faces handled so far. */
    method Advance(ears: seq<real>, ghost d0: Drowsiness, ghost w0: seq<char>, ghost faces: seq<real>)
      modifies this, arduino
      requires State() == Scan(d0, faces).final
      requires arduino.written == w0 + (if arduino.Live() then Scan(d0, faces).sent else [])
      ensures State() == Scan(d0, faces + ears).final
      ensures arduino.written == w0 + (if arduino.Live() then Scan(d0, faces + ears).sent else [])
      ensures arduino.present == old(arduino.present) && arduino.isOpen == old(arduino.isOpen)
    {
      ghost var p := Scan(d0, faces);
      ghost var q := Scan(p.final, ears);
      ProcessFrame(ears);
      ScanAppend(d0, faces, ears);
      if arduino.Live() {
        assert arduino.written == w0 + (p.sent + q.sent);
      }
    }

    /** The `while True` loop of `run`: process frames until the camera stops or 'q' is pressed. */
    method HandleFrames(frames: seq<Frame<seq<real>>>) returns (n: nat)
      modifies this, arduino
      ensures n == FramesRead(frames)
      ensures State() == Scan(old(State()), Faces(Observations(frames[..n]))).final
      ensures arduino.written == old(arduino.written) +
        (if old(arduino.Live()) then Scan(old(State()), Faces(Observations(frames[..n]))).sent else [])
      ensures arduino.present == old(arduino.present) && arduino.isOpen == old(arduino.isOpen)
    {
      ghost var d0, w0, live := State(), arduino.written, arduino.Live();
      ghost var hist: seq<seq<real>> := [];
      ghost var faces: seq<real> := [];
      n := 0;
      while n < |frames|
        invariant n <= |frames| && FramesRead(frames) == n + FramesRead(frames[n..])
        invariant hist == Observations(frames[..n]) && faces == Faces(hist)
        invariant arduino.present == old(arduino.present) && arduino.isOpen == old(arduino.isOpen)
        invariant arduino.Live() == live
        invariant State() == Scan(d0, faces).final
        invariant arduino.written == w0 + (if live then Scan(d0, faces).sent else [])
      {
        var ears := frames[n].obs;
        Advance(ears, d0, w0, faces);
        ObservationsSnoc(frames, n);
        FramesReadStep(frames, n);
        assert (hist + [ears])[..|hist|] == hist;
        hist, faces := hist + [ears], faces + ears;
        n := n + 1;
        if frames[n - 1].key == Pressed('q') {
          break;
        }
      }
    }

    /** `cleanup`: a final '1' and close, if a port exists. */
    method Cleanup()
      modifies arduino
      ensures arduino.written == old(arduino.written) + (if old(arduino.Live()) then ['1'] else [])
      ensures arduino.present == old(arduino.present) && !arduino.Live()
    {
      arduino.Shutdown('1');
    }

    /** `run`: the frame loop, then `cleanup` in its `finally` block. */
    method Run(frames: seq<Frame<seq<real>>>)
      modifies this, arduino
      ensures var t := Scan(old(State()), Faces(Observations(frames[..FramesRead(frames)])));
        && State() == t.final
        && arduino.written == old(arduino.written) + (if old(arduino.Live()) then t.sent + ['1'] else [])
      ensures arduino.present == old(arduino.present) && !arduino.Live()
    {
      var n := HandleFrames(frames);
      Cleanup();
    }
  }
}
