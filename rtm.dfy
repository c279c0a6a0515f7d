/**
 * The task view on the LED matrix: counts of overdue, today and future tasks
 * drawn either as rows of dots (red, yellow, green, each group starting on a
 * fresh row) or, when the dots would not fit, as three 16-bit binary numbers.
 */
module Rtm {
  import opened Wrappers
  import opened Surfaces
  import opened RtmApi
  import BcMatrix

  /** Python's `int(n / 8)`: the quotient truncated toward zero. */
  function TruncDiv8(n: int): (q: int)
    ensures n >= 0 ==> q == n / 8
  {
    if n >= 0 then n / 8 else -((-n) / 8)
  }

  /** `_get_row`: dot `n` counts up from the bottom row, eight to a row. */
  function GetRow(n: int): int {
    7 - TruncDiv8(n)
  }

  /** `_get_col`: within a row, dots fill from the rightmost column. */
  function GetCol(n: int): int {
    7 - n % 8
  }

  /** The dot number of a cell: the inverse of `(GetRow, GetCol)` on the grid. */
  function DotAt(row: int, col: int): int {
    8 * (7 - row) + (7 - col)
  }

  /** The 64 dot numbers name the 64 cells, one each. */
  lemma DotCellRoundTrip(n: int, row: int, col: int)
    ensures 0 <= n < 64 ==> 0 <= GetRow(n) < 8 && 0 <= GetCol(n) < 8 && DotAt(GetRow(n), GetCol(n)) == n
    ensures 0 <= row < 8 && 0 <= col < 8 ==> 0 <= DotAt(row, col) < 64 && GetRow(DotAt(row, col)) == row && GetCol(DotAt(row, col)) == col
  {
  }

  /** Distinct dots in 0..63 land on distinct cells. */
  lemma DotsDistinct(n: int, m: int)
    requires 0 <= n < 64 && 0 <= m < 64 && n != m
    ensures (GetRow(n), GetCol(n)) != (GetRow(m), GetCol(m))
  {
    DotCellRoundTrip(n, 0, 0);
    DotCellRoundTrip(m, 0, 0);
  }

  /** `_calc_line_count`: `math.ceil(count / 8)`, the rows a group of dots needs. */
  function LineCount(count: int): (lines: int)
    ensures 8 * lines >= count > 8 * (lines - 1)
  {
    if count % 8 == 0 then count / 8 else count / 8 + 1
  }

  /** For a count that is not negative, the ceiling is the familiar `(count + 7) / 8`. */
  lemma LineCountNat(count: nat)
    ensures LineCount(count) == (count + 7) / 8 && LineCount(count) >= 0
  {
  }

  /** The `set_pixel` calls for dots `start .. start+count-1`, all in one colour. */
  function RunCalls(start: int, count: nat, color: Color): (calls: seq<MatrixCall>)
    ensures |calls| == count
    ensures forall k :: 0 <= k < count ==> calls[k] == PixelCall(GetRow(start + k), GetCol(start + k), color)
  {
    if count == 0 then [] else RunCalls(start, count - 1, color) + [PixelCall(GetRow(start + count - 1), GetCol(start + count - 1), color)]
  }

  /** Where the today group starts: the first row after the overdue dots. */
  function TodayStart(overdue: nat): nat {
    8 * LineCount(overdue)
  }

  /** Where the future group starts: the first row after the today dots. */
  function FutureStart(overdue: nat, today: nat): nat {
    8 * LineCount(overdue) + 8 * LineCount(today)
  }

  /** The calls `_display_simple_tasks` makes: the three groups, each from a fresh row. */
  function SimpleCalls(overdue: nat, today: nat, future: nat): seq<MatrixCall> {
    RunCalls(0, overdue, Red) + RunCalls(TodayStart(overdue), today, Yellow) + RunCalls(FutureStart(overdue, today), future, Green)
  }

  /** The calls for bits `0 .. n-1` of `count`: bit `b` at (`row`, `7 - b`). */
  function LowBitCalls(count: int, row: int, color: Color, n: nat): seq<MatrixCall>
    requires n <= 8
  {
    if n == 0 then []
    else LowBitCalls(count, row, color, n - 1) + (if BcMatrix.Bit(count, n - 1) then [PixelCall(row, 8 - n, color)] else [])
  }

  /** The calls for bits `8 .. 8+n-1` of `count`: bit `b` at (`row - 1`, `15 - b`). */
  function HighBitCalls(count: int, row: int, color: Color, n: nat): seq<MatrixCall>
    requires n <= 8
  {
    if n == 0 then []
    else HighBitCalls(count, row, color, n - 1) + (if BcMatrix.Bit(count, 7 + n) then [PixelCall(row - 1, 8 - n, color)] else [])
  }

  /** The calls `_display_binary_tasks` makes. */
  function BinaryCalls(count: int, row: int, color: Color): seq<MatrixCall> {
    LowBitCalls(count, row, color, 8) + HighBitCalls(count, row, color, 8)
  }

  /** Whether the dot layout fits: at most eight rows in all. */
  predicate FitsAsDots(overdue: nat, today: nat, future: nat) {
    LineCount(overdue) + LineCount(today) + LineCount(future) <= 8
  }

  /** The binary layout: overdue in red from row 7, today in yellow from row 4, future in green from row 1. */
  function BinaryLayout(overdue: nat, today: nat, future: nat): seq<MatrixCall> {
    BinaryCalls(overdue, 7, Red) + BinaryCalls(today, 4, Yellow) + BinaryCalls(future, 1, Green)
  }

  /** The calls `_draw_tasks` makes: clear, one of the two layouts, write. */
  function DrawCalls(overdue: nat, today: nat, future: nat): seq<MatrixCall> {
    [ClearCall]
    + (if !FitsAsDots(overdue, today, future) then BinaryLayout(overdue, today, future) else SimpleCalls(overdue, today, future))
    + [WriteCall]
  }

  /** Cell (`r`, `c`) is on the grid and holds one of the dots `start .. start+count-1`. */
  predicate InRun(r: int, c: int, start: int, count: nat) {
    0 <= r < 8 && 0 <= c < 8 && start <= DotAt(r, c) < start + count
  }

  /** A run one dot longer covers one more cell: the cell of its last dot. */
  lemma RunGrows(start: nat, count: nat, r: int, c: int)
    requires 0 < count && start + count <= 64
    ensures InRun(r, c, start, count) <==>
              InRun(r, c, start, count - 1) || (r == GetRow(start + count - 1) && c == GetCol(start + count - 1))
  {
    var n := start + count - 1;
    var q, m := n / 8, n % 8;
    assert n == 8 * q + m && 0 <= m < 8 && 0 <= q < 8;
    assert GetRow(n) == 7 - q && GetCol(n) == 7 - m;
    if 0 <= r < 8 && 0 <= c < 8 {
      assert DotAt(r, c) == n <==> r == 7 - q && c == 7 - m;
    }
  }

  /**
   * A run of dots inside the grid never clears, and replaying it colours
   * exactly the run's cells.
   */
  lemma {:induction false} RunBuffer(start: nat, count: nat, color: Color)
    requires start + count <= 64
    ensures NoClear(RunCalls(start, count, color))
    ensures forall r, c :: (r, c) in Buffer(RunCalls(start, count, color)) <==> InRun(r, c, start, count)
    ensures forall k :: k in Buffer(RunCalls(start, count, color)) ==> Buffer(RunCalls(start, count, color))[k] == color
  {
    if count > 0 {
      var n := start + count - 1;
      var prev := RunCalls(start, count - 1, color);
      RunBuffer(start, count - 1, color);
      assert RunCalls(start, count, color) == prev + [PixelCall(GetRow(n), GetCol(n), color)];
      BufferPixel(prev, GetRow(n), GetCol(n), color);
      forall r, c
        ensures InRun(r, c, start, count) <==> InRun(r, c, start, count - 1) || (r, c) == (GetRow(n), GetCol(n))
      {
        RunGrows(start, count, r, c);
      }
    }
  }

  /** Drawing then writing shows the buffer as drawn after the clear. */
  lemma DrawnBuffer(pre: seq<MatrixCall>, drawn: seq<MatrixCall>)
    ensures Shown(pre + ([ClearCall] + drawn + [WriteCall])) == Buffer(drawn)
  {
    var all := pre + ([ClearCall] + drawn + [WriteCall]);
    assert all[..|all| - 1] == pre + [ClearCall] + drawn;
    BufferAfterClear(pre, drawn);
  }

  /** The dot groups fit on the grid and never share a cell when the dot layout is chosen. */
  lemma SimpleRunsFit(overdue: nat, today: nat, future: nat)
    requires FitsAsDots(overdue, today, future)
    ensures overdue <= TodayStart(overdue)
    ensures TodayStart(overdue) + today <= FutureStart(overdue, today)
    ensures FutureStart(overdue, today) + future <= 64
  {
  }

  /**
   * With the dot layout the matrix shows exactly the three groups: dot `p`
   * is red for `p` below the overdue count, yellow from the first row after
   * them for the today count, green from the row after that for the future
   * count; every other cell is dark.
   */
  lemma SimpleShown(pre: seq<MatrixCall>, overdue: nat, today: nat, future: nat)
    requires FitsAsDots(overdue, today, future)
    ensures var shown := Shown(pre + DrawCalls(overdue, today, future));
            && (forall r, c :: (r, c) in shown <==>
                  InRun(r, c, 0, overdue) || InRun(r, c, TodayStart(overdue), today)
                  || InRun(r, c, FutureStart(overdue, today), future))
            && (forall r, c :: InRun(r, c, 0, overdue) ==> shown[(r, c)] == Red)
            && (forall r, c :: InRun(r, c, TodayStart(overdue), today) ==> shown[(r, c)] == Yellow)
            && (forall r, c :: InRun(r, c, FutureStart(overdue, today), future) ==> shown[(r, c)] == Green)
  {
    SimpleRunsFit(overdue, today, future);
    var a := RunCalls(0, overdue, Red);
    var b := RunCalls(TodayStart(overdue), today, Yellow);
    var c := RunCalls(FutureStart(overdue, today), future, Green);
    assert DrawCalls(overdue, today, future) == [ClearCall] + (a + b + c) + [WriteCall];
    DrawnBuffer(pre, a + b + c);
    RunBuffer(0, overdue, Red);
    RunBuffer(TodayStart(overdue), today, Yellow);
    RunBuffer(FutureStart(overdue, today), future, Green);
    BufferAppend(a, b);
    BufferAppend(a + b, c);
  }

  /** The low-byte calls never clear and light (`row`, `7 - b`) for each set bit `b` below `n`. */
  lemma {:induction false} LowBitBuffer(count: int, row: int, color: Color, n: nat)
    requires n <= 8
    ensures NoClear(LowBitCalls(count, row, color, n))
    ensures forall r, c :: (r, c) in Buffer(LowBitCalls(count, row, color, n)) <==>
              r == row && 8 - n <= c < 8 && BcMatrix.Bit(count, 7 - c)
    ensures forall k :: k in Buffer(LowBitCalls(count, row, color, n)) ==> Buffer(LowBitCalls(count, row, color, n))[k] == color
  {
    if n > 0 {
      var prev := LowBitCalls(count, row, color, n - 1);
      LowBitBuffer(count, row, color, n - 1);
      if BcMatrix.Bit(count, n - 1) {
        assert LowBitCalls(count, row, color, n) == prev + [PixelCall(row, 8 - n, color)];
        BufferPixel(prev, row, 8 - n, color);
      } else {
        assert LowBitCalls(count, row, color, n) == prev;
      }
    }
  }

  /** The high-byte calls never clear and light (`row - 1`, `15 - b`) for each set bit `b` from 8 to `7 + n`. */
  lemma {:induction false} HighBitBuffer(count: int, row: int, color: Color, n: nat)
    requires n <= 8
    ensures NoClear(HighBitCalls(count, row, color, n))
    ensures forall r, c :: (r, c) in Buffer(HighBitCalls(count, row, color, n)) <==>
              r == row - 1 && 8 - n <= c < 8 && BcMatrix.Bit(count, 15 - c)
    ensures forall k :: k in Buffer(HighBitCalls(count, row, color, n)) ==> Buffer(HighBitCalls(count, row, color, n))[k] == color
  {
    if n > 0 {
      var prev := HighBitCalls(count, row, color, n - 1);
      HighBitBuffer(count, row, color, n - 1);
      if BcMatrix.Bit(count, 7 + n) {
        assert HighBitCalls(count, row, color, n) == prev + [PixelCall(row - 1, 8 - n, color)];
        BufferPixel(prev, row - 1, 8 - n, color);
      } else {
        assert HighBitCalls(count, row, color, n) == prev;
      }
    }
  }

  /**
   * `_display_binary_tasks` never clears: cell (`row`, `c`) lights for bit
   * `7 - c` and cell (`row - 1`, `c`) for bit `15 - c`, in `color`; bits
   * above 15 show nothing.
   */
  lemma BinaryBuffer(count: int, row: int, color: Color)
    ensures NoClear(BinaryCalls(count, row, color))
    ensures forall r, c :: (r, c) in Buffer(BinaryCalls(count, row, color)) <==> BinaryLit(count, row, r, c)
    ensures forall k :: k in Buffer(BinaryCalls(count, row, color)) ==> Buffer(BinaryCalls(count, row, color))[k] == color
  {
    var low := LowBitCalls(count, row, color, 8);
    var high := HighBitCalls(count, row, color, 8);
    LowBitBuffer(count, row, color, 8);
    HighBitBuffer(count, row, color, 8);
    BufferAppend(low, high);
  }

  /** Whether the binary layout of `count` with its low byte on `row` lights cell (`r`, `c`). */
  predicate BinaryLit(count: int, row: int, r: int, c: int) {
    0 <= c < 8 && ((r == row && BcMatrix.Bit(count, 7 - c)) || (r == row - 1 && BcMatrix.Bit(count, 15 - c)))
  }

  /**
   * With the binary layout the matrix shows the overdue count on rows 7 and
   * 6 in red, the today count on rows 4 and 3 in yellow, and the future
   * count on rows 1 and 0 in green, one cell per set bit; nothing else.
   */
  lemma BinaryShown(pre: seq<MatrixCall>, overdue: nat, today: nat, future: nat)
    requires !FitsAsDots(overdue, today, future)
    ensures var shown := Shown(pre + DrawCalls(overdue, today, future));
            && (forall r, c :: (r, c) in shown <==>
                  BinaryLit(overdue, 7, r, c) || BinaryLit(today, 4, r, c) || BinaryLit(future, 1, r, c))
            && (forall r, c :: BinaryLit(overdue, 7, r, c) ==> shown[(r, c)] == Red)
            && (forall r, c :: BinaryLit(today, 4, r, c) ==> shown[(r, c)] == Yellow)
            && (forall r, c :: BinaryLit(future, 1, r, c) ==> shown[(r, c)] == Green)
  {
    var a := BinaryCalls(overdue, 7, Red);
    var b := BinaryCalls(today, 4, Yellow);
    var c := BinaryCalls(future, 1, Green);
    assert DrawCalls(overdue, today, future) == [ClearCall] + (a + b + c) + [WriteCall];
    DrawnBuffer(pre, a + b + c);
    BinaryBuffer(overdue, 7, Red);
    BinaryBuffer(today, 4, Yellow);
    BinaryBuffer(future, 1, Green);
    BufferAppend(a, b);
    BufferAppend(a + b, c);
  }

  /** The task filter `_fetch_tasks` sends, verbatim (its `self._TODAY` is literal text). */
  const FILTER: string := "status:incomplete AND dueBefore:\"3 days of self._TODAY\""

  /** `_NETWORK_ERROR`: the points of the network-error symbol. */
  const NETWORK_ERROR: seq<(int, int)> := [(0, 7), (1, 7), (2, 7), (3, 7), (1, 6), (2, 5), (3, 4), (2, 4), (1, 4), (0, 4)]

  /** `_GENERIC_ERROR`: the points of the processing-error symbol. */
  const GENERIC_ERROR: seq<(int, int)> := [(0, 7), (1, 7), (2, 7), (3, 7), (4, 7), (0, 6), (0, 5), (2, 6), (4, 6), (4, 5)]

  /** The calls `_display_symbol` makes: one `set_pixel` per point, in order. */
  function SymbolCalls(points: seq<(int, int)>, color: Color): (calls: seq<MatrixCall>)
    ensures |calls| == |points|
    ensures forall i :: 0 <= i < |points| ==> calls[i] == PixelCall(points[i].0, points[i].1, color)
  {
    seq(|points|, i requires 0 <= i < |points| => PixelCall(points[i].0, points[i].1, color))
  }

  /** The counting loop of `display_tasks`: overdue, today, and everything else as future. */
  datatype Tally = Tally(overdue: nat, today: nat, future: nat)

  function TallyOf(ts: seq<Task>): (t: Tally)
    ensures t.overdue + t.today + t.future == |ts|
  {
    if ts == [] then Tally(0, 0, 0)
    else
      var t := TallyOf(ts[..|ts| - 1]);
      match ts[|ts| - 1].status
      case Overdue => t.(overdue := t.overdue + 1)
      case Today => t.(today := t.today + 1)
      case Future => t.(future := t.future + 1)
  }

  /** The number of tasks with status `st`. */
  function CountOf(ts: seq<Task>, st: Status): (n: nat)
    ensures n <= |ts|
  {
    if ts == [] then 0 else (if ts[0].status == st then 1 else 0) + CountOf(ts[1..], st)
  }

  lemma {:induction false} CountOfSnoc(ts: seq<Task>, t: Task, st: Status)
    ensures CountOf(ts + [t], st) == CountOf(ts, st) + (if t.status == st then 1 else 0)
  {
    if ts == [] {
      assert ([] + [t])[1..] == [];
    } else {
      assert (ts + [t])[1..] == ts[1..] + [t];
      CountOfSnoc(ts[1..], t, st);
    }
  }

  /** Each counter of the loop counts exactly the tasks with its status. */
  lemma {:induction false} TallyCounts(ts: seq<Task>)
    ensures TallyOf(ts) == Tally(CountOf(ts, Overdue), CountOf(ts, Today), CountOf(ts, Future))
  {
    if ts != [] {
      var init := ts[..|ts| - 1];
      TallyCounts(init);
      assert ts == init + [ts[|ts| - 1]];
      CountOfSnoc(init, ts[|ts| - 1], Overdue);
      CountOfSnoc(init, ts[|ts| - 1], Today);
      CountOfSnoc(init, ts[|ts| - 1], Future);
    }
  }

  /**
   * The task view of `RTM`: the calls it makes on the matrix, the task list
   * of the last successful fetch (`None` after a non-200 reply), the day the
   * statuses were computed against (`_TODAY`), the last HTTP status, and the
   * processing-error flag.
   */
  class Client {
    const apiKey: string
    const secret: string
    const token: string
    var calls: seq<MatrixCall>
    var tasks: Option<seq<Task>>
    var today: int
    var lastStatus: Option<int>
    var processingError: bool

    /**
     * Tasks are only missing once a reply has come back (a non-200 one, or a
     * 200 one whose body is the JSON `null`), and a task list that is not
     * stale carries statuses computed against today, sorted by due date.
     */
    ghost predicate Valid()
      reads this
    {
      && (tasks.None? ==> lastStatus.Some?)
      && (tasks.Some? && !processingError ==>
            DueSorted(tasks.value) && Classified(tasks.value, today))
    }

    constructor (apiKey: string, secret: string, token: string)
      ensures Valid() && this.apiKey == apiKey && this.secret == secret && this.token == token
      ensures calls == [] && tasks == Some([]) && today == 0 && lastStatus.None? && !processingError
    {
      this.apiKey := apiKey;
      this.secret := secret;
      this.token := token;
      calls := [];
      tasks := Some([]);
      today := 0;
      lastStatus := None;
      processingError := false;
    }

    /**
     * `_fetch_tasks` given the reply to `rtm.tasks.getList` and the local
     * date; `url` is the request it sends.  A failed connection or a body that does not parse sets the
     * processing error and keeps the old list; a non-200 status or a `null`
     * body clears the list; otherwise every entry is classified against `now` and the list
     * is replaced by the entries sorted by due date.
     */
    method FetchTasks(reply: Reply, now: int, md5: string -> string) returns (url: string)
      requires Valid()
      modifies this
      ensures url == RequestUrl([("filter", FILTER)], "rtm.tasks.getList", apiKey, token, secret, md5)
      ensures Valid() && calls == old(calls)
      ensures reply.ConnectionFailed? ==>
                processingError && tasks == old(tasks) && lastStatus == old(lastStatus) && today == old(today)
      ensures reply.Reply? ==> lastStatus == Some(reply.status)
      ensures reply.Reply? && reply.status != 200 ==> tasks.None? && !processingError && today == old(today)
      ensures reply.Reply? && reply.status == 200 && reply.body.Unreadable? ==>
                processingError && tasks == old(tasks) && today == old(today)
      ensures reply.Reply? && reply.status == 200 && reply.body.JsonNull? ==>
                tasks.None? && !processingError && today == old(today)
      ensures reply.Reply? && reply.status == 200 && reply.body.Lists? ==>
                today == now
                && var found := Collect(AllItems(reply.body.lists), now, false);
                   && processingError == found.None?
                   && tasks == if found.Some? then Some(SortByDue(found.value)) else old(tasks)
    {
      var sig;
      url, sig := BuildRequest([("filter", FILTER)], "rtm.tasks.getList", apiKey, token, secret, md5);
      TakeReply(reply, now);
    }

    /** What `_fetch_tasks` does with the reply to its request. */
    method TakeReply(reply: Reply, now: int)
      requires Valid()
      modifies this`tasks, this`today, this`lastStatus, this`processingError
      ensures Valid()
      ensures reply.ConnectionFailed? ==>
                processingError && tasks == old(tasks) && lastStatus == old(lastStatus) && today == old(today)
      ensures reply.Reply? ==> lastStatus == Some(reply.status)
      ensures reply.Reply? && reply.status != 200 ==> tasks.None? && !processingError && today == old(today)
      ensures reply.Reply? && reply.status == 200 && reply.body.Unreadable? ==>
                processingError && tasks == old(tasks) && today == old(today)
      ensures reply.Reply? && reply.status == 200 && reply.body.JsonNull? ==>
                tasks.None? && !processingError && today == old(today)
      ensures reply.Reply? && reply.status == 200 && reply.body.Lists? ==>
                today == now
                && var found := Collect(AllItems(reply.body.lists), now, false);
                   && processingError == found.None?
                   && tasks == if found.Some? then Some(SortByDue(found.value)) else old(tasks)
    {
      if reply.ConnectionFailed? {
        processingError := true;
        return;
      }
      lastStatus := Some(reply.status);
      if reply.status != 200 {
        tasks := None;
        processingError := false;
        return;
      }
      if reply.body.Unreadable? {
        processingError := true;
        return;
      }
      if reply.body.JsonNull? {
        tasks := None;
        processingError := false;
        return;
      }
      today := now;
      var found := CollectTasks(reply.body.lists, now, false);
      if found.None? {
        processingError := true;
        return;
      }
      var sorted := SortByDue(found.value);
      SortByDueSorted(found.value);
      SortByDueClassified(found.value, now);
      tasks := Some(sorted);
      processingError := false;
    }

    /** `_display_symbol`. */
    method DisplaySymbol(points: seq<(int, int)>, color: Color)
      modifies this`calls
      ensures calls == old(calls) + SymbolCalls(points, color)
    {
      var i := 0;
      while i < |points|
        invariant 0 <= i <= |points|
        invariant calls == old(calls) + SymbolCalls(points[..i], color)
      {
        assert SymbolCalls(points[..i + 1], color) == SymbolCalls(points[..i], color) + [PixelCall(points[i].0, points[i].1, color)];
        calls := calls + [PixelCall(points[i].0, points[i].1, color)];
        i := i + 1;
      }
      assert points[..i] == points;
    }

    /** `_display_binary_tasks`: bits 0-7 of `count` on `startRow`, bits 8-15 on the row below. */
    method DisplayBinaryTasks(count: int, startRow: int, color: Color)
      modifies this`calls
      ensures calls == old(calls) + BinaryCalls(count, startRow, color)
    {
      var bit := 0;
      while bit < 8
        invariant 0 <= bit <= 8
        invariant calls == old(calls) + LowBitCalls(count, startRow, color, bit)
      {
        if BcMatrix.Bit(count, bit) {
          calls := calls + [PixelCall(startRow, 7 - bit, color)];
        }
        bit := bit + 1;
      }
      bit := 8;
      while bit < 16
        invariant 8 <= bit <= 16
        invariant calls == old(calls) + LowBitCalls(count, startRow, color, 8) + HighBitCalls(count, startRow, color, bit - 8)
      {
        if BcMatrix.Bit(count, bit) {
          calls := calls + [PixelCall(startRow - 1, 15 - bit, color)];
        }
        bit := bit + 1;
      }
    }

    /** The fast-forward loop: advance to the last dot before the next fresh row. */
    static method FastForward(pos: int, rows: int, drawn: nat) returns (next: int)
      requires pos == 8 * rows + drawn - 1
      ensures next == 8 * (rows + LineCount(drawn)) - 1
    {
      next := pos;
      var lines := LineCount(drawn);
      while (next + 1) % 8 > 0
        invariant 8 * rows + drawn <= next + 1 <= 8 * rows + 8 * lines
        decreases 8 * rows + 8 * lines - (next + 1)
      {
        next := next + 1;
      }
      var q := (next + 1) / 8;
      assert next + 1 == 8 * q;
    }

    /** One `for` loop of `_display_simple_tasks`: `count` dots in `color` after dot `pos`. */
    method DrawRun(pos: int, count: nat, color: Color) returns (next: int)
      modifies this`calls
      ensures next == pos + count
      ensures calls == old(calls) + RunCalls(pos + 1, count, color)
    {
      next := pos;
      var i := 0;
      while i < count
        invariant 0 <= i <= count && next == pos + i
        invariant calls == old(calls) + RunCalls(pos + 1, i, color)
      {
        next := next + 1;
        calls := calls + [PixelCall(GetRow(next), GetCol(next), color)];
        i := i + 1;
      }
    }

    /**
     * `_display_simple_tasks`: one dot per task, overdue in red from dot 0,
     * then today in yellow and future in green, each group starting on a
     * fresh row.
     */
    method DisplaySimpleTasks(overdue: nat, today: nat, future: nat)
      modifies this`calls
      ensures calls == old(calls) + SimpleCalls(overdue, today, future)
    {
      ghost var before := calls;
      var pos := -1;
      pos := DrawRun(pos, overdue, Red);
      pos := FastForward(pos, 0, overdue);
      assert pos + 1 == TodayStart(overdue);
      pos := DrawRun(pos, today, Yellow);
      pos := FastForward(pos, LineCount(overdue), today);
      assert pos + 1 == FutureStart(overdue, today);
      pos := DrawRun(pos, future, Green);
      Regroup(before, RunCalls(0, overdue, Red), RunCalls(TodayStart(overdue), today, Yellow));
      Regroup(before, RunCalls(0, overdue, Red) + RunCalls(TodayStart(overdue), today, Yellow),
              RunCalls(FutureStart(overdue, today), future, Green));
    }

    /** `_draw_tasks`: clear, the binary layout when the dots need more than eight rows, else the dots, write. */
    method DrawTasks(overdue: nat, today: nat, future: nat)
      modifies this`calls
      ensures calls == old(calls) + DrawCalls(overdue, today, future)
    {
      ghost var before := calls;
      ghost var layout := if !FitsAsDots(overdue, today, future) then BinaryLayout(overdue, today, future)
                          else SimpleCalls(overdue, today, future);
      calls := calls + [ClearCall];
      if !FitsAsDots(overdue, today, future) {
        DisplayBinaryLayout(overdue, today, future);
      } else {
        DisplaySimpleTasks(overdue, today, future);
      }
      calls := calls + [WriteCall];
      Regroup(before, [ClearCall], layout);
      Regroup(before, [ClearCall] + layout, [WriteCall]);
    }

    /** The binary branch of `_draw_tasks`: each count in binary, on rows 7, 4 and 1. */
    method DisplayBinaryLayout(overdue: nat, today: nat, future: nat)
      modifies this`calls
      ensures calls == old(calls) + BinaryLayout(overdue, today, future)
    {
      DisplayBinaryTasks(overdue, 7, Red);
      DisplayBinaryTasks(today, 4, Yellow);
      DisplayBinaryTasks(future, 1, Green);
    }

    /**
     * `display_tasks`: a non-200 last status draws the network-error symbol
     * and then raises `TypeError` (see the left-out list); else a processing
     * error draws the generic-error symbol; else a missing list (after a
     * `null` body) raises `TypeError` before anything is drawn; else the
     * tasks are counted by status and drawn.
     */
    method DisplayTasks() returns (outcome: Outcome<string>)
      requires Valid()
      modifies this`calls
      ensures lastStatus.Some? && lastStatus.value != 200 ==>
                outcome == Fail("TypeError") && calls == old(calls) + SymbolCalls(NETWORK_ERROR, Red)
      ensures !(lastStatus.Some? && lastStatus.value != 200) && processingError ==>
                outcome == Pass && calls == old(calls) + SymbolCalls(GENERIC_ERROR, Red)
      ensures !(lastStatus.Some? && lastStatus.value != 200) && !processingError && tasks.None? ==>
                outcome == Fail("TypeError") && calls == old(calls)
      ensures !(lastStatus.Some? && lastStatus.value != 200) && !processingError && tasks.Some? ==>
                && outcome == Pass
                && var t := TallyOf(tasks.value);
                   calls == old(calls) + DrawCalls(t.overdue, t.today, t.future)
    {
      if lastStatus.Some? && lastStatus.value != 200 {
        DisplaySymbol(NETWORK_ERROR, Red);
        return Fail("TypeError");
      }
      if processingError {
        DisplaySymbol(GENERIC_ERROR, Red);
        return Pass;
      }
      if tasks.None? {
        return Fail("TypeError");
      }
      var ts := tasks.value;
      var overdue, todayCount, future := 0, 0, 0;
      var i := 0;
      while i < |ts|
        invariant 0 <= i <= |ts|
        invariant TallyOf(ts[..i]) == Tally(overdue, todayCount, future)
      {
        assert ts[..i + 1][..i] == ts[..i];
        if ts[i].status == Overdue {
          overdue := overdue + 1;
        } else if ts[i].status == Today {
          todayCount := todayCount + 1;
        } else {
          future := future + 1;
        }
        i := i + 1;
      }
      assert ts[..i] == ts;
      DrawTasks(overdue, todayCount, future);
      return Pass;
    }
  }
}
