/**
 * The 4-character 14-segment text display: `write` shows short text directly
 * and scrolls longer text; `dots` lights the decimal points of the first
 * digits; `clear` blanks it.
 */
module TextDisplay {
  import opened Wrappers
  import opened Surfaces
  import opened PyText

  /** The raw segment pattern `dots` writes: the decimal point alone. */
  const DotSegments: int := 16384

  /** The text as `write` prepares it: stripped, upper-cased, padded with spaces to four non-dot characters. */
  function Prepare(text: string): (r: string)
    ensures |NoDots(r)| >= 4
  {
    var t := Upper(Strip(text));
    var pad := Spaces(4 - |NoDots(t)|);
    NoDotsAppend(t, pad);
    NoDotsSpaces(4 - |NoDots(t)|);
    t + pad
  }

  /**
   * The prepared text starts with the stripped text upper-cased, continues
   * with spaces only, and has exactly four non-dot characters unless the
   * text has more, when nothing is added.
   */
  lemma PrepareShape(text: string)
    ensures Upper(Strip(text)) <= Prepare(text)
    ensures forall i :: |Strip(text)| <= i < |Prepare(text)| ==> Prepare(text)[i] == ' '
    ensures |NoDots(Prepare(text))| == if |NoDots(Strip(text))| >= 4 then |NoDots(Strip(text))| else 4
    ensures |NoDots(Strip(text))| >= 4 ==> Prepare(text) == Upper(Strip(text))
  {
    var stripped := Strip(text);
    var t := Upper(stripped);
    var k := 4 - |NoDots(t)|;
    var pad := Spaces(k);
    var r := t + pad;
    assert Prepare(text) == r;
    assert r[..|t|] == t;
    forall i | |stripped| <= i < |r|
      ensures r[i] == ' '
    {
      assert r[i] == pad[i - |t|];
    }
    NoDotsUpper(stripped);
    NoDotsAppend(t, pad);
    NoDotsSpaces(k);
    assert |NoDots(r)| == |NoDots(stripped)| + |pad|;
    if |NoDots(stripped)| >= 4 {
      assert pad == [];
      assert r == t;
    }
  }

  /** `write` scrolls exactly when the prepared text has more than four non-dot characters. */
  predicate Scrolls(text: string) {
    |NoDots(Prepare(text))| > 4
  }

  /** Padding never decides between printing and scrolling: only the stripped text's non-dot length does. */
  lemma ScrollsIffLong(text: string)
    ensures Scrolls(text) <==> |NoDots(Strip(text))| > 4
  {
    PrepareShape(text);
  }

  /** The scrolling frame: three spaces on each side of the text. */
  function Framed(t: string): string {
    "   " + t + "   "
  }

  /** The calls `write(text)` makes on the driver itself (a scrolling text is printed by the scroll loop). */
  function WriteCalls(text: string): seq<SegCall> {
    if Scrolls(text) then [] else [PrintCall(Prepare(text))]
  }

  /** The scroll left running by `write(text)`. */
  function WriteScroll(text: string): Option<Scroll> {
    if Scrolls(text) then Some(Scroll(Framed(Prepare(text)), 0)) else None
  }

  /** How many decimal points `dots(n)` lights: none for `n <= 0`, at most four. */
  function DotCount(n: int): (k: nat)
    ensures k <= 4 && (n <= 0 ==> k == 0) && (0 <= n <= 4 ==> k == n) && (n >= 4 ==> k == 4)
  {
    if n <= 0 then 0 else if n >= 4 then 4 else n
  }

  /** The raw-digit calls of `dots(n)`: digits `0 .. DotCount(n)-1`, in order, each with the decimal point. */
  function DotCalls(n: int): (r: seq<SegCall>)
    ensures |r| == DotCount(n)
    ensures forall i :: 0 <= i < |r| ==> r[i] == RawDigitCall(i, DotSegments)
  {
    seq(DotCount(n), i => RawDigitCall(i, DotSegments))
  }

  /** The state of a running scroll thread: its framed text and the window position. */
  datatype Scroll = Scroll(text: string, pos: nat)

  /** The window position after one scroll step: advance, back to 0 once the end has been shown. */
  function NextPos(text: string, pos: nat): (r: nat)
    requires pos <= |text|
    ensures r <= |text|
    ensures r == if pos == |text| then 0 else pos + 1
  {
    if pos >= |text| then 0 else pos + 1
  }

  /**
   * `text_display`: `scroll` is `_scroll_event` together with the scroll
   * thread's text and position; `calls` records what was sent to the driver.
   */
  class TextDisplay {
    var scroll: Option<Scroll>
    var calls: seq<SegCall>

    ghost predicate Valid()
      reads this
    {
      scroll.Some? ==> scroll.value.pos <= |scroll.value.text|
    }

    /** The constructor ends with `clear()`. */
    constructor ()
      ensures Valid() && scroll == None && calls == [PrintCall("    ")]
    {
      scroll := None;
      calls := [PrintCall("    ")];
    }

    /** `_stop_scroll`: ends a running scroll; a no-op when none runs. */
    method StopScroll()
      modifies this
      ensures Valid() && scroll == None && calls == old(calls)
    {
      scroll := None;
    }

    /** `clear`: stop any scroll, then print four spaces. */
    method Clear()
      modifies this
      ensures Valid() && scroll == None
      ensures calls == old(calls) + [PrintCall("    ")]
    {
      StopScroll();
      calls := calls + [PrintCall("    ")];
    }

    /** `write`: stop any scroll, then print the prepared text or start scrolling it. */
    method Write(text: string)
      modifies this
      ensures Valid()
      ensures calls == old(calls) + WriteCalls(text)
      ensures scroll == WriteScroll(text)
    {
      StopScroll();
      var t := Prepare(text);
      if |NoDots(t)| <= 4 {
        calls := calls + [PrintCall(t)];
      } else {
        scroll := Some(Scroll(Framed(t), 0));
      }
    }

    /** `dots`: clear, then light the decimal points of the first `n` digits (at most four). */
    method Dots(n: int)
      modifies this
      ensures Valid() && scroll == None
      ensures calls == old(calls) + [PrintCall("    ")] + DotCalls(n)
    {
      Clear();
      ghost var cleared := calls;
      if n >= 1 {
        calls := calls + [RawDigitCall(0, DotSegments)];
      }
      if n >= 2 {
        calls := calls + [RawDigitCall(1, DotSegments)];
      }
      if n >= 3 {
        calls := calls + [RawDigitCall(2, DotSegments)];
      }
      if n >= 4 {
        calls := calls + [RawDigitCall(3, DotSegments)];
      }
      assert calls == cleared + DotCalls(n);
    }

    /** One iteration of the scroll loop: print the 4-character window at `pos`, then advance or wrap. */
    method ScrollTick()
      requires Valid()
      modifies this
      ensures Valid()
      ensures old(scroll).None? ==> unchanged(this)
      ensures old(scroll).Some? ==>
                var s := old(scroll).value;
                calls == old(calls) + [PrintCall(Slice(s.text, s.pos, s.pos + 4))]
                && |Slice(s.text, s.pos, s.pos + 4)| <= 4
                && scroll == Some(Scroll(s.text, NextPos(s.text, s.pos)))
    {
      if scroll.None? {
        return;
      }
      var s := scroll.value;
      calls := calls + [PrintCall(Slice(s.text, s.pos, s.pos + 4))];
      scroll := Some(Scroll(s.text, NextPos(s.text, s.pos)));
    }
  }
}
