/**
 * The animation controller that owns the LED matrix while an alert is shown:
 * a start/stop lifecycle (`event` set or not), a render loop that draws one
 * frame of a fixed 12-frame pattern per iteration, and direct pixel writes
 * that are refused while an animation runs.
 */
module BcMatrix {
  import opened Wrappers
  import opened Surfaces

  /** The animation pattern: 12 frames of 8 row bitmasks, top row first, bit 0 the rightmost column. */
  const AnimationFrames: seq<seq<int>> := [
    [  0,   0,   0,  24,  24,   0,   0,   0],
    [  0,   0,  36,   0,   0,  36,   0,   0],
    [  0,  66,   0,   0,   0,   0,  66,   0],
    [129,   0,   0,   0,   0,   0,   0, 129],
    [195, 129,   0,   0,   0,   0, 129, 195],
    [231, 129, 129,   0,   0, 129, 129, 231],
    [255, 129, 129, 129, 129, 129, 129, 255],
    [255, 255, 195, 195, 195, 195, 255, 255],
    [255, 255, 255, 231, 231, 255, 255, 255],
    [255, 255, 255, 255, 255, 255, 255, 255],
    [  0, 126, 126, 126, 126, 126, 126,   0],
    [  0,   0,  60,  60,  60,  60,   0,   0]
  ]

  /** The number of frames in the pattern. */
  const FrameCount: nat := 12

  /** The pattern's shape: 12 frames of 8 row masks, each mask a byte. */
  ghost predicate WellFormedTable(t: seq<seq<int>>) {
    |t| == FrameCount && forall i :: 0 <= i < |t| ==> |t[i]| == 8 && forall row :: 0 <= row < 8 ==> 0 <= t[i][row] <= 255
  }

  lemma AnimationFramesWellFormed()
    ensures WellFormedTable(AnimationFrames)
  {
  }

  function Pow2(n: nat): (r: nat)
    ensures r >= 1
  {
    if n == 0 then 1 else 2 * Pow2(n - 1)
  }

  /** Python's `1 << b & n` is non-zero. */
  predicate Bit(n: int, b: nat) {
    (n / Pow2(b)) % 2 == 1
  }

  /** The `set_pixel` calls the column loop makes for columns `0 .. n-1` of one row. */
  function RowCalls(row: int, mask: int, color: Color, n: nat): seq<MatrixCall>
  {
    if n == 0 then []
    else RowCalls(row, mask, color, n - 1) + (if Bit(mask, n - 1) then [PixelCall(row, n - 1, color)] else [])
  }

  /** The `set_pixel` calls the row loop makes for rows `0 .. n-1` of a frame. */
  function FrameCalls(frame: seq<int>, color: Color, n: nat): seq<MatrixCall>
    requires n <= |frame|
  {
    if n == 0 then []
    else FrameCalls(frame, color, n - 1) + RowCalls(n - 1, frame[n - 1], color, 8)
  }

  /** All the calls one iteration of the render loop makes: clear, the frame's pixels, write. */
  function FrameDraw(frame: seq<int>, color: Color): seq<MatrixCall>
  {
    [ClearCall] + FrameCalls(frame, color, |frame|) + [WriteCall]
  }

  /** The calls of `n` consecutive render-loop iterations starting at frame `start`, wrapping after the last frame. */
  function Animation(table: seq<seq<int>>, start: nat, n: nat, color: Color): seq<MatrixCall>
    requires |table| == FrameCount
  {
    if n == 0 then []
    else Animation(table, start, n - 1, color) + FrameDraw(table[FrameAt(start + n - 1)], color)
  }

  /** The frame shown at the `k`-th iteration (from 0) of an animation that began at frame 0. */
  function FrameAt(k: nat): (r: nat)
    ensures r < FrameCount
  {
    k % FrameCount
  }

  /** The frame counter's step: `frame_number += 1`, back to 0 after the last frame. */
  function NextFrame(f: nat): (r: nat)
    requires f < FrameCount
    ensures r < FrameCount
  {
    if f + 1 >= FrameCount then 0 else f + 1
  }

  /** One row's calls never clear, and they light cell (`row`, `c`) for each set bit `c` below `n`, in `color`. */
  lemma {:induction false} RowBuffer(row: int, mask: int, color: Color, n: nat)
    ensures NoClear(RowCalls(row, mask, color, n))
    ensures forall r, c :: (r, c) in Buffer(RowCalls(row, mask, color, n)) <==> r == row && 0 <= c < n && Bit(mask, c)
    ensures forall k :: k in Buffer(RowCalls(row, mask, color, n)) ==> Buffer(RowCalls(row, mask, color, n))[k] == color
  {
    if n > 0 {
      var prev := RowCalls(row, mask, color, n - 1);
      RowBuffer(row, mask, color, n - 1);
      if Bit(mask, n - 1) {
        assert RowCalls(row, mask, color, n) == prev + [PixelCall(row, n - 1, color)];
        BufferPixel(prev, row, n - 1, color);
      } else {
        assert RowCalls(row, mask, color, n) == prev;
      }
    }
  }

  /** The first `n` rows' calls light cell (`r`, `c`) exactly for bit `c` of row mask `r`, all in `color`. */
  lemma {:induction false} FrameBuffer(frame: seq<int>, color: Color, n: nat)
    requires n <= |frame|
    ensures forall r, c :: (r, c) in Buffer(FrameCalls(frame, color, n))
                           <==> 0 <= r < n && 0 <= c < 8 && Bit(frame[r], c)
    ensures forall k :: k in Buffer(FrameCalls(frame, color, n)) ==> Buffer(FrameCalls(frame, color, n))[k] == color
  {
    if n > 0 {
      FrameBuffer(frame, color, n - 1);
      RowBuffer(n - 1, frame[n - 1], color, 8);
      BufferAppend(FrameCalls(frame, color, n - 1), RowCalls(n - 1, frame[n - 1], color, 8));
    }
  }

  /**
   * After one render-loop iteration the matrix shows exactly the frame: pixel
   * (row, col) is lit, in the animation colour, iff bit `col` of the frame's
   * row mask is set; every other pixel is dark.
   */
  lemma FrameShown(pre: seq<MatrixCall>, frame: seq<int>, color: Color)
    ensures forall r, c :: (r, c) in Shown(pre + FrameDraw(frame, color))
                           <==> 0 <= r < |frame| && 0 <= c < 8 && Bit(frame[r], c)
    ensures Shown(pre + FrameDraw(frame, color)).Values <= {color}
  {
    var body := FrameCalls(frame, color, |frame|);
    var all := pre + FrameDraw(frame, color);
    assert all == (pre + [ClearCall] + body) + [WriteCall];
    assert all[..|all| - 1] == pre + [ClearCall] + body;
    BufferAfterClear(pre, body);
    FrameBuffer(frame, color, |frame|);
  }

  /** One more iteration appends the next frame's drawing to the animation so far. */
  lemma AnimationStep(pre: seq<MatrixCall>, table: seq<seq<int>>, start: nat, i: nat, color: Color)
    requires |table| == FrameCount
    ensures pre + Animation(table, start, i, color) + FrameDraw(table[FrameAt(start + i)], color)
            == pre + Animation(table, start, i + 1, color)
  {
  }

  /** Advancing the counter once more is the same as counting one more frame. */
  lemma FrameAtStep(k: nat)
    ensures NextFrame(FrameAt(k)) == FrameAt(k + 1)
  {
  }

  /** Frame numbers below the count are their own position. */
  lemma FrameAtSmall(k: nat)
    requires k < FrameCount
    ensures FrameAt(k) == k
  {
  }

  /**
   * The animation controller (`bcmatrix`).  `running` is `event is not None`;
   * `frameNumber` is the render thread's frame counter; `calls` records what
   * was sent to the matrix driver.
   */
  class AnimationController {
    /** The class attribute `ANIMATION_FRAMES`. */
    const table: seq<seq<int>>
    var running: bool
    var color: Color
    var frameNumber: nat
    var calls: seq<MatrixCall>
    /** Frames drawn since the current animation was started. */
    ghost var frames: nat

    ghost predicate Valid()
      reads this
    {
      |table| == FrameCount && frameNumber == FrameAt(frames)
    }

    constructor ()
      ensures Valid() && table == AnimationFrames && !running && calls == []
    {
      table := AnimationFrames;
      running := false;
      color := Red;
      frameNumber := 0;
      frames := 0;
      calls := [];
    }

    /** `_animation_running`: an animation is active iff `event` is set. */
    predicate Running()
      reads this
    {
      running
    }

    /** `start_animation`: refused while running; otherwise records the colour and starts at frame 0. */
    method StartAnimation(c: Color) returns (r: Outcome<string>)
      requires Valid()
      modifies this
      ensures Valid()
      ensures old(running) ==> r == Fail("Animation is already active") && unchanged(this)
      ensures !old(running) ==> r == Pass && running && color == c && frameNumber == 0
                                && frames == 0 && calls == old(calls)
    {
      if running {
        return Fail("Animation is already active");
      }
      color := c;
      running := true;
      frameNumber := 0;
      frames := 0;
      r := Pass;
    }

    /**
     * `stop_animation` together with the end of the render loop it waits for:
     * when running, the loop exits, `event` is reset and the matrix is cleared
     * and written; when idle, nothing happens.
     */
    method StopAnimation()
      requires Valid()
      modifies this
      ensures Valid() && !running
      ensures calls == old(calls) + (if old(running) then [ClearCall, WriteCall] else [])
      ensures old(running) ==> Shown(calls) == map[]
      ensures color == old(color) && frameNumber == old(frameNumber) && frames == old(frames)
    {
      if running {
        running := false;
        ClearedShowsNothing(calls);
        calls := calls + [ClearCall, WriteCall];
      }
    }

    /** One iteration of the render loop `_run_animation`: draw the current frame, then advance the counter. */
    method Tick()
      requires Valid()
      modifies this`calls, this`frameNumber, this`frames
      ensures Valid()
      ensures !running ==> unchanged(this)
      ensures running ==> calls == old(calls) + FrameDraw(table[old(frameNumber)], color)
                          && frameNumber == NextFrame(old(frameNumber)) && frames == old(frames) + 1
    {
      if !running {
        return;
      }
      DrawFrame(table[frameNumber]);
      frameNumber := NextFrame(frameNumber);
      frames := frames + 1;
    }

    /** The body of one render-loop iteration: clear, the nested row and column loops over the frame's bits, write. */
    method DrawFrame(frame: seq<int>)
      modifies this`calls
      ensures calls == old(calls) + FrameDraw(frame, color)
    {
      calls := calls + [ClearCall];
      var row := 0;
      while row < |frame|
        invariant 0 <= row <= |frame|
        invariant calls == old(calls) + [ClearCall] + FrameCalls(frame, color, row)
      {
        var mask := frame[row];
        var col := 0;
        while col < 8
          invariant 0 <= col <= 8
          invariant calls == old(calls) + [ClearCall] + FrameCalls(frame, color, row) + RowCalls(row, mask, color, col)
        {
          if Bit(mask, col) {
            calls := calls + [PixelCall(row, col, color)];
          }
          col := col + 1;
        }
        row := row + 1;
      }
      calls := calls + [WriteCall];
    }

    /** `n` iterations of the render loop: the frames follow each other in table order, wrapping after frame 11. */
    method RunFrames(n: nat)
      requires Valid()
      modifies this`calls, this`frameNumber, this`frames
      ensures Valid()
      ensures !running ==> unchanged(this)
      ensures running ==> calls == old(calls) + Animation(table, old(frameNumber), n, color)
                          && frameNumber == FrameAt(old(frameNumber) + n)
    {
      if !running {
        return;
      }
      FrameAtSmall(frameNumber);
      var i := 0;
      while i < n
        invariant 0 <= i <= n
        invariant Valid()
        invariant calls == old(calls) + Animation(table, old(frameNumber), i, color)
        invariant frameNumber == FrameAt(old(frameNumber) + i)
      {
        FrameAtStep(old(frameNumber) + i);
        AnimationStep(old(calls), table, old(frameNumber), i, color);
        Tick();
        i := i + 1;
      }
    }

    /** `clear`: refused while an animation runs, otherwise passed to the driver. */
    method Clear() returns (r: Outcome<string>)
      modifies this
      ensures r == (if old(running) then Fail("Animation is active") else Pass)
      ensures calls == old(calls) + (if old(running) then [] else [ClearCall])
      ensures running == old(running) && color == old(color) && frameNumber == old(frameNumber) && frames == old(frames)
    {
      if running {
        return Fail("Animation is active");
      }
      calls := calls + [ClearCall];
      r := Pass;
    }

    /** `set_pixel`: refused while an animation runs, otherwise passed to the driver. */
    method SetPixel(row: int, col: int, c: Color) returns (r: Outcome<string>)
      modifies this
      ensures r == (if old(running) then Fail("Animation is active") else Pass)
      ensures calls == old(calls) + (if old(running) then [] else [PixelCall(row, col, c)])
      ensures running == old(running) && color == old(color) && frameNumber == old(frameNumber) && frames == old(frames)
    {
      if running {
        return Fail("Animation is active");
      }
      calls := calls + [PixelCall(row, col, c)];
      r := Pass;
    }

    /** `write_display`: refused while an animation runs, otherwise passed to the driver. */
    method WriteDisplay() returns (r: Outcome<string>)
      modifies this
      ensures r == (if old(running) then Fail("Animation is active") else Pass)
      ensures calls == old(calls) + (if old(running) then [] else [WriteCall])
      ensures running == old(running) && color == old(color) && frameNumber == old(frameNumber) && frames == old(frames)
    {
      if running {
        return Fail("Animation is active");
      }
      calls := calls + [WriteCall];
      r := Pass;
    }
  }
}
