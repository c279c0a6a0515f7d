/**
 * The two display devices, seen only through the calls made on them: the
 * 8x8 bicolour LED matrix (Adafruit BicolorMatrix8x8) and the 4-character
 * 14-segment text display (Seg14x4).  A device is a log of calls; what the
 * LEDs show is obtained by replaying that log.
 */
module Surfaces {

  /** The matrix colours `BicolorMatrix8x8.RED`, `.YELLOW` and `.GREEN`. */
  datatype Color = Red | Yellow | Green

  /** One call on the LED matrix driver: `clear()`, `set_pixel(row, col, color)`, `write_display()`. */
  datatype MatrixCall = ClearCall | PixelCall(row: int, col: int, color: Color) | WriteCall

  /** One call on the text display driver: `print(text)`, `set_digit_raw(digit, bits)`. */
  datatype SegCall = PrintCall(text: string) | RawDigitCall(digit: int, bits: int)

  /** The driver's pixel buffer after replaying `calls`: `clear` empties it, `set_pixel` colours one cell. */
  function Buffer(calls: seq<MatrixCall>): map<(int, int), Color>
  {
    if calls == [] then map[]
    else
      match calls[|calls| - 1]
      case ClearCall => map[]
      case PixelCall(r, c, color) => Buffer(calls[..|calls| - 1])[(r, c) := color]
      case WriteCall => Buffer(calls[..|calls| - 1])
  }

  /** What the LEDs show: the buffer as it was at the last `write_display`. */
  function Shown(calls: seq<MatrixCall>): map<(int, int), Color>
  {
    if calls == [] then map[]
    else if calls[|calls| - 1] == WriteCall then Buffer(calls)
    else Shown(calls[..|calls| - 1])
  }

  /** Whatever was drawn before a `clear` no longer matters to the buffer. */
  lemma {:induction false} BufferAfterClear(before: seq<MatrixCall>, after: seq<MatrixCall>)
    ensures Buffer(before + [ClearCall] + after) == Buffer(after)
    decreases |after|
  {
    var all := before + [ClearCall] + after;
    if after == [] {
      assert all[..|all| - 1] == before && all[|all| - 1] == ClearCall;
    } else {
      var init := after[..|after| - 1];
      assert all[..|all| - 1] == before + [ClearCall] + init;
      assert all[|all| - 1] == after[|after| - 1];
      BufferAfterClear(before, init);
    }
  }

  /** A clear followed by a write shows an empty matrix, whatever came before. */
  lemma ClearedShowsNothing(before: seq<MatrixCall>)
    ensures Shown(before + [ClearCall, WriteCall]) == map[]
  {
    var all := before + [ClearCall, WriteCall];
    assert all[..|all| - 1] == before + [ClearCall] + [];
    BufferAfterClear(before, []);
    assert Buffer(all) == Buffer(all[..|all| - 1]);
  }

  /** Regrouping a log of calls: the calls made are the same, whichever pieces they were recorded in. */
  lemma Regroup(a: seq<MatrixCall>, b: seq<MatrixCall>, c: seq<MatrixCall>)
    ensures a + b + c == a + (b + c)
  {
  }

  /** Replaying one more `set_pixel` colours that one cell. */
  lemma BufferPixel(pre: seq<MatrixCall>, row: int, col: int, color: Color)
    ensures Buffer(pre + [PixelCall(row, col, color)]) == Buffer(pre)[(row, col) := color]
  {
    var all := pre + [PixelCall(row, col, color)];
    assert all[..|all| - 1] == pre;
  }

  /** No call in the log clears the matrix. */
  predicate NoClear(calls: seq<MatrixCall>) {
    forall i :: 0 <= i < |calls| ==> calls[i] != ClearCall
  }

  /** Replaying calls that never clear on top of a log adds their cells to its buffer, theirs winning. */
  lemma {:induction false} BufferAppend(pre: seq<MatrixCall>, calls: seq<MatrixCall>)
    requires NoClear(calls)
    ensures Buffer(pre + calls) == Buffer(pre) + Buffer(calls)
    decreases |calls|
  {
    var all := pre + calls;
    if calls == [] {
      assert all == pre;
    } else {
      var init := calls[..|calls| - 1];
      var last := calls[|calls| - 1];
      assert all[..|all| - 1] == pre + init && all[|all| - 1] == last;
      BufferAppend(pre, init);
      if last.PixelCall? {
        var k := (last.row, last.col);
        assert Buffer(all) == (Buffer(pre) + Buffer(init))[k := last.color];
        assert Buffer(calls) == Buffer(init)[k := last.color];
      } else {
        assert last == WriteCall;
      }
    }
  }
}
