/** Sprite-sheet animation: the AnimData record and its per-frame advancer. */
module Anim {

  datatype Vector2 = Vector2(x: real, y: real)

  /** A rectangle given by its top-left corner and its size. */
  datatype Rectangle = Rectangle(x: real, y: real, width: real, height: real)

  /**
   * One animated sprite: the visible sub-rectangle of its sprite sheet, its
   * screen position, the current frame index, how long a frame is shown and
   * how long the current frame has been shown so far.
   */
  datatype AnimData = AnimData(rec: Rectangle, pos: Vector2, frame: int, updateTime: real, runningTime: real)

  /** The remainder of C's `%` on `int`: truncated toward zero, so it takes the sign of `a`. */
  function CRem(a: int, b: int): (r: int)
    requires b > 0
    ensures -b < r < b
    ensures 0 <= a ==> 0 <= r
    ensures a <= 0 ==> r <= 0
    ensures 0 <= a < b ==> r == a
    ensures a == b ==> r == 0
  {
    if a >= 0 then a % b else -((-a) % b)
  }

  /** `frame++; frame %= maxFrame;` */
  function NextFrame(frame: int, maxFrame: int): (r: int)
    requires maxFrame > 0
    ensures 0 <= frame < maxFrame ==> r == if frame + 1 == maxFrame then 0 else frame + 1
  {
    CRem(frame + 1, maxFrame)
  }

  /**
   * updateAnimData: the struct it updates through a reference is taken as a
   * value and the updated struct is returned; callers store it back into the
   * same place. At most one frame is advanced per call, however large dt is.
   */
  function UpdateAnimData(data: AnimData, dt: real, maxFrame: int): (r: AnimData)
    requires maxFrame > 0
    // what is never touched
    ensures r.pos == data.pos && r.updateTime == data.updateTime
    ensures r.rec.y == data.rec.y && r.rec.width == data.rec.width && r.rec.height == data.rec.height
    // the frame is not due yet: only the elapsed time grows
    ensures data.runningTime + dt < data.updateTime ==> r == data.(runningTime := data.runningTime + dt)
    // the frame is due: the shown cell is the one of the old frame index, and the index moves on by one
    ensures data.updateTime <= data.runningTime + dt ==>
              r.runningTime == 0.0 && r.rec.x == data.frame as real * data.rec.width
              && r.frame == NextFrame(data.frame, maxFrame)
    ensures 0 <= data.frame < maxFrame ==> 0 <= r.frame < maxFrame
    ensures 0.0 <= data.runningTime && 0.0 <= dt && 0.0 < data.updateTime ==>
              0.0 <= r.runningTime < r.updateTime
  {
    var running := data.runningTime + dt;
    if running >= data.updateTime then
      data.(runningTime := 0.0,
            rec := data.rec.(x := data.frame as real * data.rec.width),
            frame := NextFrame(data.frame, maxFrame))
    else
      data.(runningTime := running)
  }

  /** Successive calls of UpdateAnimData on one sprite, one per frame time in `dts`. */
  function UpdateAnimDataSeq(data: AnimData, dts: seq<real>, maxFrame: int): AnimData
    requires maxFrame > 0
    decreases |dts|
  {
    if dts == [] then data else UpdateAnimDataSeq(UpdateAnimData(data, dts[0], maxFrame), dts[1..], maxFrame)
  }

  /**
   * How many of those calls were due, i.e. advanced the frame. There is at
   * most one advance per call.
   */
  function DueCalls(data: AnimData, dts: seq<real>, maxFrame: int): (n: nat)
    requires maxFrame > 0
    ensures n <= |dts|
    decreases |dts|
  {
    if dts == [] then 0
    else (if data.updateTime <= data.runningTime + dts[0] then 1 else 0)
         + DueCalls(UpdateAnimData(data, dts[0], maxFrame), dts[1..], maxFrame)
  }

  /**
   * Whatever the frame times, the frame index after a run of calls has moved
   * round the cycle of maxFrame cells by exactly the number of due calls.
   */
  lemma {:induction false} FramesAfterCalls(data: AnimData, dts: seq<real>, maxFrame: int)
    requires maxFrame > 0 && 0 <= data.frame < maxFrame
    ensures UpdateAnimDataSeq(data, dts, maxFrame).frame == (data.frame + DueCalls(data, dts, maxFrame)) % maxFrame
    decreases |dts|
  {
    if dts != [] {
      var next := UpdateAnimData(data, dts[0], maxFrame);
      var rest := DueCalls(next, dts[1..], maxFrame);
      FramesAfterCalls(next, dts[1..], maxFrame);
      if data.updateTime <= data.runningTime + dts[0] && data.frame + 1 == maxFrame {
        assert next.frame == 0;
        ShiftByModulus(rest, maxFrame);
      }
    }
  }

  /** `n` applications of NextFrame. */
  function NextFrameTimes(frame: int, n: nat, maxFrame: int): int
    requires maxFrame > 0
    decreases n
  {
    if n == 0 then frame else NextFrameTimes(NextFrame(frame, maxFrame), n - 1, maxFrame)
  }

  /** n advances from a frame in range land on (frame + n) mod maxFrame. */
  lemma {:induction false} NextFrameTimesIsRemainder(frame: int, n: nat, maxFrame: int)
    requires maxFrame > 0 && 0 <= frame < maxFrame
    ensures NextFrameTimes(frame, n, maxFrame) == (frame + n) % maxFrame
    decreases n
  {
    if n > 0 {
      NextFrameTimesIsRemainder(NextFrame(frame, maxFrame), n - 1, maxFrame);
      if frame + 1 == maxFrame {
        ShiftByModulus(n - 1, maxFrame);
      }
    }
  }

  /** A quotient/remainder split with the remainder in range is the one `%` gives. */
  lemma RemainderUnique(x: int, m: int, q: int, r: int)
    requires m > 0 && 0 <= r < m && x == m * q + r
    ensures x % m == r
  {
    var q0, r0 := x / m, x % m;
    assert x == m * q0 + r0;
    assert m * (q - q0) == r0 - r;
    // r0 - r lies strictly between -m and m, so no nonzero multiple of m can equal it
    if q - q0 >= 1 {
      assert false;
    } else if q0 - q >= 1 {
      assert false;
    }
  }

  lemma ShiftByModulus(x: int, m: int)
    requires m > 0
    ensures (x + m) % m == x % m
  {
    RemainderUnique(x + m, m, x / m + 1, x % m);
  }

  /**
   * After maxFrame advances the frame index is back where it started: both
   * for maxFrame applications of the advance itself, and for any run of
   * calls, with any frame times, of which exactly maxFrame were due.
   */
  lemma FrameCycleReturns(data: AnimData, dts: seq<real>, maxFrame: int)
    requires maxFrame > 0 && 0 <= data.frame < maxFrame
    ensures NextFrameTimes(data.frame, maxFrame, maxFrame) == data.frame
    ensures DueCalls(data, dts, maxFrame) == maxFrame ==> UpdateAnimDataSeq(data, dts, maxFrame).frame == data.frame
  {
    NextFrameTimesIsRemainder(data.frame, maxFrame, maxFrame);
    FramesAfterCalls(data, dts, maxFrame);
    ShiftByModulus(data.frame, maxFrame);
    RemainderUnique(data.frame, maxFrame, 0, data.frame);
  }
}
