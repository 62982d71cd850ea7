/**
 * test_eye_detection.py: the eye-detection analyzer. Each frame's eye count
 * (0 without a face) is classified, appended to a history that keeps only the
 * last 30 counts, and summarised; the 'c' key clears the history. At the end
 * the history is split into frames with open eyes and the rest.
 */
module EyeAnalysis {
  import opened Wrappers
  import opened Debounce
  import opened FrameLoop

  /** `EYE_THRESHOLD`: eyes needed to count as open. */
  const EyeThreshold: nat := 2
  /** Counts the history keeps. */
  const HistoryLimit: nat := 30
  /** Counts in the recent window. */
  const RecentSize: nat := 10

  /** The status `analyze_eyes` reports. */
  datatype EyeStatus = EyesOpen | OneEye | EyesClosed

  /** Lines 44-45 and 73: the eye count of a frame, 0 when no face is found. */
  function EyeCount(o: Observation): (n: nat)
    ensures !o.facePresent ==> n == 0
    ensures o.facePresent ==> n == o.eyeCount
  {
    if o.facePresent then o.eyeCount else 0
  }

  /** Lines 74-82: the three-way classification of an eye count. */
  function Classify(count: nat): (s: EyeStatus)
    ensures s == EyesOpen <==> count >= EyeThreshold
    ensures s == OneEye <==> count == 1
    ensures s == EyesClosed <==> count == 0
  {
    if count >= 2 then EyesOpen else if count == 1 then OneEye else EyesClosed
  }

  function Min(a: nat, b: nat): nat
  {
    if a <= b then a else b
  }

  /** The last `HistoryLimit` counts of `all`, in arrival order. */
  function Window(all: seq<nat>): seq<nat>
  {
    all[|all| - Min(|all|, HistoryLimit)..]
  }

  /** Lines 100-102: append the new count, then drop the oldest if there are more than 30. */
  function Record(history: seq<nat>, count: nat): (h: seq<nat>)
    ensures |history| <= HistoryLimit ==> |h| <= HistoryLimit
    ensures h != [] && h[|h| - 1] == count
  {
    var grown := history + [count];
    if |grown| > HistoryLimit then grown[1..] else grown
  }

  /** The bounded history is always the window of the last 30 counts. */
  lemma RecordKeepsWindow(all: seq<nat>, count: nat)
    ensures Record(Window(all), count) == Window(all + [count])
  {
    var w := Window(all);
    var all' := all + [count];
    if |all| >= HistoryLimit {
      assert w + [count] == all'[|all'| - HistoryLimit - 1..];
      assert (w + [count])[1..] == all'[|all'| - HistoryLimit..];
    } else {
      assert w == all;
      assert Window(all') == all';
    }
  }

  /** Line 106: the last 10 counts when there are at least 10, otherwise all of them. */
  function Recent(history: seq<nat>): (r: seq<nat>)
    ensures |r| == Min(|history|, RecentSize)
    ensures r == history[|history| - |r|..]
  {
    if |history| >= RecentSize then history[|history| - RecentSize..] else history
  }

  /** The recent window of the bounded history is the last 10 counts of the whole session. */
  lemma RecentOfWindow(all: seq<nat>)
    ensures Recent(Window(all)) == all[|all| - Min(|all|, RecentSize)..]
  {
  }

  /** The analyzer's state: `eye_history` and `frame_count`. */
  datatype Analysis = Analysis(history: seq<nat>, frameCount: nat)

  /** One iteration of `run`: count the frame, record its eye count, then the 'c' key. */
  function FrameStep(a: Analysis, f: Frame<Observation>): Analysis
  {
    if f.key == Pressed('c') then Analysis([], 0)
    else Analysis(Record(a.history, EyeCount(f.obs)), a.frameCount + 1)
  }

  /** A run of frames, the last one handled last. */
  function Analyze(a: Analysis, frames: seq<Frame<Observation>>): Analysis
    decreases |frames|
  {
    if frames == [] then a else FrameStep(Analyze(a, frames[..|frames| - 1]), frames[|frames| - 1])
  }

  /** The eye counts of a run of frames. */
  function Counts(frames: seq<Frame<Observation>>): (cs: seq<nat>)
    ensures |cs| == |frames|
    ensures forall i :: 0 <= i < |frames| ==> cs[i] == EyeCount(frames[i].obs)
  {
    seq(|frames|, i requires 0 <= i < |frames| => EyeCount(frames[i].obs))
  }


  lemma AnalyzeSnoc(a: Analysis, frames: seq<Frame<Observation>>, f: Frame<Observation>)
    ensures Analyze(a, frames + [f]) == FrameStep(Analyze(a, frames), f)
  {
    assert (frames + [f])[..|frames|] == frames;
  }

  /** The counts of the last k + 1 frames are those of the k before the last frame, then its own. */
  lemma CountsSuffixSnoc(frames: seq<Frame<Observation>>, k: nat)
    requires k < |frames|
    ensures Counts(frames[..|frames| - 1][|frames| - 1 - k..]) + [EyeCount(frames[|frames| - 1].obs)] ==
      Counts(frames[|frames| - 1 - k..])
  {
    assert frames[..|frames| - 1][|frames| - 1 - k..] + [frames[|frames| - 1]] == frames[|frames| - 1 - k..];
  }

  /**
   * The window of the last 30 eye counts since the last clear, after the
   * starting history if there was none.
   */
  function ExpectedHistory(start: seq<nat>, frames: seq<Frame<Observation>>): seq<nat>
  {
    var k := FramesSince(frames, 'c');
    if k == |frames| then Window(start + Counts(frames)) else Window(Counts(frames[|frames| - k..]))
  }

  lemma CountsSnoc(frames: seq<Frame<Observation>>)
    requires frames != []
    ensures Counts(frames) == Counts(frames[..|frames| - 1]) + [EyeCount(frames[|frames| - 1].obs)]
  {
  }

  /** Without a clear so far, one more frame records its count after the starting history and all counts before. */
  lemma ExpectedHistoryFromStart(start: seq<nat>, frames: seq<Frame<Observation>>)
    requires frames != [] && frames[|frames| - 1].key != Pressed('c')
    requires FramesSince(frames[..|frames| - 1], 'c') == |frames| - 1
    ensures ExpectedHistory(start, frames) ==
      Record(ExpectedHistory(start, frames[..|frames| - 1]), EyeCount(frames[|frames| - 1].obs))
  {
    var init, count := frames[..|frames| - 1], EyeCount(frames[|frames| - 1].obs);
    assert FramesSince(frames, 'c') == |frames|;
    RecordKeepsWindow(start + Counts(init), count);
    CountsSnoc(frames);
    assert (start + Counts(init)) + [count] == start + (Counts(init) + [count]);
  }

  /** After a clear, one more frame records its count after the counts since the clear. */
  lemma ExpectedHistorySinceClear(start: seq<nat>, frames: seq<Frame<Observation>>)
    requires frames != [] && frames[|frames| - 1].key != Pressed('c')
    requires FramesSince(frames[..|frames| - 1], 'c') < |frames| - 1
    ensures ExpectedHistory(start, frames) ==
      Record(ExpectedHistory(start, frames[..|frames| - 1]), EyeCount(frames[|frames| - 1].obs))
  {
    var init := frames[..|frames| - 1];
    var j := FramesSince(init, 'c');
    assert FramesSince(frames, 'c') == j + 1;
    RecordKeepsWindow(Counts(init[|init| - j..]), EyeCount(frames[|frames| - 1].obs));
    CountsSuffixSnoc(frames, j);
  }

  /** One more frame moves the expected history as `FrameStep` moves the real one. */
  lemma ExpectedHistorySnoc(start: seq<nat>, frames: seq<Frame<Observation>>)
    requires frames != []
    ensures var init, f := frames[..|frames| - 1], frames[|frames| - 1];
      ExpectedHistory(start, frames) ==
        if f.key == Pressed('c') then [] else Record(ExpectedHistory(start, init), EyeCount(f.obs))
  {
    var init, f := frames[..|frames| - 1], frames[|frames| - 1];
    if f.key != Pressed('c') {
      if FramesSince(init, 'c') == |init| {
        ExpectedHistoryFromStart(start, frames);
      } else {
        ExpectedHistorySinceClear(start, frames);
      }
    } else {
      assert frames[|frames|..] == [];
    }
  }

  /** What the analyzer holds: the window of the last 30 eye counts since the last clear. */
  lemma {:induction false} HistoryIsWindow(a: Analysis, frames: seq<Frame<Observation>>)
    requires |a.history| <= HistoryLimit
    ensures Analyze(a, frames).history == ExpectedHistory(a.history, frames)
    decreases |frames|
  {
    if frames == [] {
      assert a.history + Counts(frames) == a.history;
    } else {
      HistoryIsWindow(a, frames[..|frames| - 1]);
      ExpectedHistorySnoc(a.history, frames);
    }
  }

  /** `frame_count` is the number of frames since the last clear, after the starting count if there was none. */
  lemma {:induction false} FrameCountSinceClear(a: Analysis, frames: seq<Frame<Observation>>)
    ensures var k := FramesSince(frames, 'c');
      Analyze(a, frames).frameCount == if k == |frames| then a.frameCount + |frames| else k
    decreases |frames|
  {
    if frames != [] {
      FrameCountSinceClear(a, frames[..|frames| - 1]);
    }
  }

  /** From a fresh analyzer and without 'c', the history is the last 30 counts of the session. */
  lemma FreshHistoryIsWindow(frames: seq<Frame<Observation>>)
    requires forall i :: 0 <= i < |frames| ==> frames[i].key != Pressed('c')
    ensures Analyze(Analysis([], 0), frames).history == Window(Counts(frames))
    ensures Analyze(Analysis([], 0), frames).frameCount == |frames|
  {
    HistoryIsWindow(Analysis([], 0), frames);
    FrameCountSinceClear(Analysis([], 0), frames);
    assert [] + Counts(frames) == Counts(frames);
  }

  /** Line 210: the entries of the history with open eyes. */
  function OpenFrames(history: seq<nat>): nat
    decreases |history|
  {
    if history == [] then 0
    else OpenFrames(history[..|history| - 1]) + (if history[|history| - 1] >= EyeThreshold then 1 else 0)
  }

  /** The entries with fewer than two eyes (one eye or none). */
  function ClosedFrames(history: seq<nat>): nat
    decreases |history|
  {
    if history == [] then 0
    else ClosedFrames(history[..|history| - 1]) + (if history[|history| - 1] < EyeThreshold then 1 else 0)
  }

  /** Every entry is counted once, as open or as closed. */
  lemma {:induction false} OpenClosedPartition(history: seq<nat>)
    ensures OpenFrames(history) + ClosedFrames(history) == |history|
    decreases |history|
  {
    if history != [] {
      OpenClosedPartition(history[..|history| - 1]);
    }
  }

  /** The totals `cleanup` prints: frames analysed, open and closed. */
  datatype Summary = Summary(total: nat, openFrames: nat, closedFrames: nat)

  /**
   * Line 192 as written: the history entry that colours graph segment i,
   * `eye_history[-(30 - i)]`, or None where Python raises IndexError.
   */
  function GraphColorIndexAsWritten(history: seq<nat>, i: nat): (r: Option<nat>)
    ensures r.Some? <==> HistoryLimit - i <= |history| && i < HistoryLimit
    ensures r.Some? ==> r.value < |history|
  {
    if i < HistoryLimit && HistoryLimit - i <= |history| then Some(|history| - (HistoryLimit - i)) else None
  }

  /**
   * The graph is drawn from the second frame on, but as written its first
   * segment indexes 30 entries back: with two entries that raises IndexError.
   */
  lemma GraphIndexFailsOnSecondFrame(history: seq<nat>)
    requires |history| == 2
    ensures GraphColorIndexAsWritten(history, 0) == None
  {
  }

  /** As written, every history shorter than 30 that gets a graph fails on its first segment. */
  lemma GraphIndexFailsBelowFull(history: seq<nat>)
    requires 1 < |history| < HistoryLimit
    ensures GraphColorIndexAsWritten(history, 0) == None
  {
  }

  /**
   * The intended index: segment i starts at point i of the plotted window,
   * which is history entry `|history| - min(|history|, 30) + i`. It agrees
   * with the code as written when the history is full.
   */
  function GraphColorIndex(history: seq<nat>, i: nat): (r: nat)
    requires i + 1 < Min(|history|, HistoryLimit)
    ensures r < |history| && history[r] == Window(history)[i]
    ensures |history| >= HistoryLimit ==> GraphColorIndexAsWritten(history, i) == Some(r)
  {
    |history| - Min(|history|, HistoryLimit) + i
  }

  /** The analyzer object: its history and frame count. */
  class EyeDetectionAnalyzer {
    var eyeHistory: seq<nat>
    var frameCount: nat

    function State(): Analysis
      reads this
    {
      Analysis(eyeHistory, frameCount)
    }

    /** `__init__`: empty history, no frames. */
    constructor ()
      ensures State() == Analysis([], 0)
    {
      eyeHistory, frameCount := [], 0;
    }

    /**
     * The segment colours of `draw_eye_graph` (lines 191-193), with the
     * intended index: true (green) where the starting entry shows open eyes.
     */
    method SegmentColors() returns (green: seq<bool>)
      requires |eyeHistory| > 1
      ensures |green| == Min(|eyeHistory|, HistoryLimit) - 1
      ensures forall i :: 0 <= i < |green| ==> (green[i] <==> Window(eyeHistory)[i] >= EyeThreshold)
    {
      var points := Min(|eyeHistory|, HistoryLimit);
      green := [];
      for i := 0 to points - 1
        invariant |green| == i
        invariant forall j :: 0 <= j < i ==> (green[j] <==> Window(eyeHistory)[j] >= EyeThreshold)
      {
        green := green + [eyeHistory[GraphColorIndex(eyeHistory, i)] >= EyeThreshold];
      }
    }

    /** One iteration of `run`'s loop: count the frame, record its eye count, draw, then the 'c' key. */
    method HandleFrame(f: Frame<Observation>)
      modifies this
      ensures State() == FrameStep(old(State()), f)
      ensures old(|eyeHistory|) <= HistoryLimit ==> |eyeHistory| <= HistoryLimit
    {
      frameCount := frameCount + 1;
      eyeHistory := eyeHistory + [EyeCount(f.obs)];
      if |eyeHistory| > HistoryLimit {
        eyeHistory := eyeHistory[1..];
      }
      if |eyeHistory| > 1 {
        var green := SegmentColors();
      }
      if f.key == Pressed('c') {
        eyeHistory, frameCount := [], 0;
      }
    }

    /**
     * `run`: handle frames until the camera stops or 'q' is pressed, keeping
     * the bounded history; its `finally` block runs `cleanup`, whose summary
     * of the final history is returned.
     */
    method Run(frames: seq<Frame<Observation>>) returns (summary: Option<Summary>)
      modifies this
      ensures State() == Analyze(old(State()), frames[..FramesRead(frames)])
      ensures old(|eyeHistory|) <= HistoryLimit ==> |eyeHistory| <= HistoryLimit
      ensures eyeHistory == [] <==> summary.None?
      ensures summary.Some? ==>
        summary.value == Summary(|eyeHistory|, OpenFrames(eyeHistory), ClosedFrames(eyeHistory))
    {
      ghost var a0 := State();
      var n := 0;
      while n < |frames|
        invariant n <= |frames| && FramesRead(frames) == n + FramesRead(frames[n..])
        invariant State() == Analyze(a0, frames[..n])
        invariant |a0.history| <= HistoryLimit ==> |eyeHistory| <= HistoryLimit
      {
        var f := frames[n];
        HandleFrame(f);
        assert frames[..n + 1] == frames[..n] + [f];
        AnalyzeSnoc(a0, frames[..n], f);
        FramesReadStep(frames, n);
        n := n + 1;
        if f.key == Pressed('q') {
          break;
        }
      }
      summary := Cleanup();
    }

    /** `cleanup`: the totals of a non-empty history, or nothing for an empty one. */
    method Cleanup() returns (summary: Option<Summary>)
      ensures eyeHistory == [] <==> summary.None?
      ensures summary.Some? ==>
        summary.value == Summary(|eyeHistory|, OpenFrames(eyeHistory), ClosedFrames(eyeHistory))
    {
      if eyeHistory == [] {
        return None;
      }
      var open := 0;
      for i := 0 to |eyeHistory|
        invariant open == OpenFrames(eyeHistory[..i])
      {
        assert eyeHistory[..i + 1][..i] == eyeHistory[..i];
        if eyeHistory[i] >= EyeThreshold {
          open := open + 1;
        }
      }
      assert eyeHistory[..|eyeHistory|] == eyeHistory;
      OpenClosedPartition(eyeHistory);
      summary := Some(Summary(|eyeHistory|, open, |eyeHistory| - open));
    }
  }
}
