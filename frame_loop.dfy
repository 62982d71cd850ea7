/**
 * The camera loop shared by every detector: `while True`, read a frame, act on
 * it, then look at the key `cv2.waitKey(1) & 0xFF` reports. The loop ends when
 * the camera stops delivering frames or after a frame on which 'q' was pressed.
 * The camera is modelled as the finite sequence of frames it delivers.
 */
module FrameLoop {

  /** The key reported after a frame is shown, if any. */
  datatype Key = NoKey | Pressed(c: char)

  /** One iteration's input: what the vision collaborator reports and the key pressed afterwards. */
  datatype Frame<O> = Frame(obs: O, key: Key)

  /**
   * How many frames the loop handles: all of them, or up to and including the
   * first one after which 'q' was pressed.
   */
  function FramesRead<O>(frames: seq<Frame<O>>): (n: nat)
    ensures n <= |frames|
    ensures forall j :: 0 <= j < n - 1 ==> frames[j].key != Pressed('q')
    ensures n < |frames| ==> 0 < n && frames[n - 1].key == Pressed('q')
  {
    if frames == [] then 0
    else if frames[0].key == Pressed('q') then 1
    else 1 + FramesRead(frames[1..])
  }

  /** Reading frame i of what is left: it is the last one read exactly when 'q' was pressed after it. */
  lemma FramesReadStep<O>(frames: seq<Frame<O>>, i: nat)
    requires i < |frames|
    ensures FramesRead(frames[i..]) ==
      if frames[i].key == Pressed('q') then 1 else 1 + FramesRead(frames[i + 1..])
  {
    assert frames[i..][1..] == frames[i + 1..];
  }

  /** The observations carried by a run of frames, in order. */
  function Observations<O>(frames: seq<Frame<O>>): (obs: seq<O>)
    ensures |obs| == |frames|
    ensures forall i :: 0 <= i < |frames| ==> obs[i] == frames[i].obs
  {
    seq(|frames|, i requires 0 <= i < |frames| => frames[i].obs)
  }

  /** Handling one more frame appends its observation. */
  lemma ObservationsSnoc<O>(frames: seq<Frame<O>>, i: nat)
    requires i < |frames|
    ensures Observations(frames[..i + 1]) == Observations(frames[..i]) + [frames[i].obs]
  {
  }

  /** Number of frames at the end of `frames` after the last press of `c`. */
  function FramesSince<O>(frames: seq<Frame<O>>, c: char): (n: nat)
    ensures n <= |frames|
    ensures forall i :: |frames| - n <= i < |frames| ==> frames[i].key != Pressed(c)
    ensures n < |frames| ==> frames[|frames| - 1 - n].key == Pressed(c)
    decreases |frames|
  {
    if frames == [] || frames[|frames| - 1].key == Pressed(c) then 0
    else FramesSince(frames[..|frames| - 1], c) + 1
  }
}
