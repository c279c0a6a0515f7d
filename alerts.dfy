/**
 * The alert station: requests `"<COLOR> <message>"` arrive over the network,
 * valid ones wait in a FIFO queue, one alert at a time is shown (an animation
 * in its colour on the LED matrix, its message on the text display), and each
 * button press acknowledges the shown alert and shows the next one, or hands
 * the matrix back to the task view when none is waiting.
 */
module Alerts {
  import opened Wrappers
  import opened Surfaces
  import opened PyText
  import BcMatrix
  import TextDisplay

  /** The wire colour codes. */
  const RED: string := "RED"
  const YELLOW: string := "YEL"
  const GREEN: string := "GRN"

  /** `_get_matrix_color`: the matrix colour of a wire code; any other code raises `ValueError` (`None`). */
  function MatrixColor(code: string): (r: Option<Color>)
    ensures r.Some? <==> code == RED || code == YELLOW || code == GREEN
  {
    if code == RED then Some(Red)
    else if code == GREEN then Some(Green)
    else if code == YELLOW then Some(Yellow)
    else None
  }

  /** The wire code of a matrix colour. */
  function WireCode(c: Color): (code: string)
    ensures code == RED || code == YELLOW || code == GREEN
  {
    match c
    case Red => RED
    case Yellow => YELLOW
    case Green => GREEN
  }

  /** The wire codes and the matrix colours are in one-to-one correspondence. */
  lemma WireCodeRoundTrip(code: string, c: Color)
    ensures MatrixColor(code) == Some(c) <==> code == WireCode(c)
  {
  }

  /** A queued alert: `[matrix colour, stripped message]`. */
  datatype Alert = Alert(color: Color, message: string)

  /** The position of the first occurrence of `c` in `s`. */
  function IndexOf(s: string, c: char): (i: nat)
    requires c in s
    ensures i < |s| && s[i] == c && c !in s[..i]
  {
    if s[0] == c then 0
    else
      assert c in s[1..] by { var k :| 0 <= k < |s| && s[k] == c; assert s[1..][k - 1] == c; }
      var j := IndexOf(s[1..], c);
      assert s[..j + 1] == [s[0]] + s[1..][..j];
      j + 1
  }

  /**
   * `color, message = data.split(' ', 1)`: the text before the first space
   * and the text after it; with no space the unpacking raises (`None`).
   */
  function SplitOnce(data: string): (r: Option<(string, string)>)
    ensures r.None? <==> ' ' !in data
    ensures r.Some? ==> data == r.value.0 + " " + r.value.1 && ' ' !in r.value.0
  {
    if ' ' !in data then None
    else
      var i := IndexOf(data, ' ');
      assert data == data[..i] + " " + data[i + 1..];
      Some((data[..i], data[i + 1..]))
  }

  /** Joining a space-free code and a rest with one space splits back into the two. */
  lemma SplitJoined(code: string, rest: string)
    requires ' ' !in code
    ensures SplitOnce(code + " " + rest) == Some((code, rest))
  {
    var data := code + " " + rest;
    assert data[|code|] == ' ';
    var i := IndexOf(data, ' ');
    assert data[..i] == code;
    assert data[i + 1..] == rest;
  }

  /** What the listener does with one request: the response it sends and the alert it enqueues. */
  datatype Reply = Reply(response: string, alert: Option<Alert>)

  /**
   * The request handling of the accept loop: split off the colour code,
   * strip the message, check the colour, then the message, then accept.
   * `None` is the request without a space, whose unpacking raises.
   */
  function HandleRequest(data: string): (r: Option<Reply>)
    ensures r.None? <==> ' ' !in data
    ensures r.Some? ==> (r.value.response == "OK" <==> r.value.alert.Some?)
    ensures r.Some? && r.value.alert.Some? ==>
              r.value.alert.value.message != [] && Strip(r.value.alert.value.message) == r.value.alert.value.message
  {
    match SplitOnce(data)
    case None => None
    case Some((code, rest)) =>
      var message := Strip(rest);
      StripUnpadded(message);
      if code != RED && code != YELLOW && code != GREEN then
        Some(Reply("Invalid color " + code, None))
      else if |message| == 0 then
        Some(Reply("Empty message", None))
      else
        Some(Reply("OK", Some(Alert(MatrixColor(code).value, message))))
  }

  /** An unknown colour code is refused by name, whatever the message, even an empty one. */
  lemma InvalidColorRejected(code: string, rest: string)
    requires ' ' !in code && MatrixColor(code).None?
    ensures HandleRequest(code + " " + rest) == Some(Reply("Invalid color " + code, None))
  {
    SplitJoined(code, rest);
  }

  /** A valid colour with a message that is only whitespace is refused. */
  lemma EmptyMessageRejected(code: string, rest: string)
    requires ' ' !in code && MatrixColor(code).Some?
    requires forall i :: 0 <= i < |rest| ==> IsSpace(rest[i])
    ensures HandleRequest(code + " " + rest) == Some(Reply("Empty message", None))
  {
    SplitJoined(code, rest);
    StripEmptyIffBlank(rest);
  }

  /** A valid colour with a non-blank message is accepted as one alert carrying the stripped message. */
  lemma ValidRequestAccepted(code: string, rest: string)
    requires ' ' !in code && MatrixColor(code).Some?
    requires exists i :: 0 <= i < |rest| && !IsSpace(rest[i])
    ensures HandleRequest(code + " " + rest) == Some(Reply("OK", Some(Alert(MatrixColor(code).value, Strip(rest)))))
  {
    SplitJoined(code, rest);
    StripEmptyIffBlank(rest);
  }

  /** The alert a request adds to the queue, if any. */
  function AcceptedAlert(data: string): (r: Option<Alert>)
    ensures r.Some? ==> ResponseTo(data) == Some("OK")
  {
    var h := HandleRequest(data);
    if h.Some? then h.value.alert else None
  }

  /** The response a request gets, if any. */
  function ResponseTo(data: string): (r: Option<string>)
    ensures r.None? <==> ' ' !in data
  {
    var h := HandleRequest(data);
    if h.Some? then Some(h.value.response) else None
  }

  /**
   * `Alerts`: the queue, the `showing_alert` flag, whether a task view is
   * registered, and the two displays it drives.  `taskViews` counts the
   * `display_tasks()` calls made on the task view; `listening` is whether the
   * accept loop still runs.  The ghost `accepted` and `shown` record every
   * alert ever accepted and every alert ever shown, in order.
   */
  class AlertStation {
    const matrix: BcMatrix.AnimationController
    const text: TextDisplay.TextDisplay
    var queue: seq<Alert>
    var showingAlert: bool
    var hasTaskView: bool
    var taskViews: nat
    var listening: bool
    ghost var accepted: seq<Alert>
    ghost var shown: seq<Alert>

    /** Everything but the idle-means-empty rule, which holds between operations only. */
    ghost predicate Coherent()
      reads this, matrix, text
    {
      && matrix.Valid() && text.Valid()
      && (showingAlert <==> matrix.Running())
      && (showingAlert ==> shown != [] && matrix.color == shown[|shown| - 1].color)
      && accepted == shown + queue
    }

    /**
     * The station's invariant: the animation runs exactly while an alert is
     * shown, in that alert's colour; alerts leave the queue only to be shown,
     * in the order they were accepted; and no alert waits while none is shown.
     */
    ghost predicate Valid()
      reads this, matrix, text
    {
      Coherent() && (!showingAlert ==> queue == [])
    }

    constructor (matrix: BcMatrix.AnimationController, text: TextDisplay.TextDisplay)
      requires matrix.Valid() && !matrix.Running() && text.Valid()
      ensures Valid() && this.matrix == matrix && this.text == text
      ensures queue == [] && !showingAlert && !hasTaskView && taskViews == 0 && listening
      ensures accepted == [] && shown == []
    {
      this.matrix := matrix;
      this.text := text;
      queue := [];
      showingAlert := false;
      hasTaskView := false;
      taskViews := 0;
      listening := true;
      accepted := [];
      shown := [];
    }

    /** `register_rtm`. */
    method RegisterTaskView()
      requires Valid()
      modifies this
      ensures Valid() && hasTaskView
      ensures queue == old(queue) && showingAlert == old(showingAlert) && taskViews == old(taskViews)
      ensures listening == old(listening) && accepted == old(accepted) && shown == old(shown)
    {
      hasTaskView := true;
    }

    /**
     * `_show_next_alert`: when no alert is shown and one waits, take the head
     * of the queue, start the animation in its colour, write its message and
     * mark it shown; otherwise do nothing.
     */
    method ShowNextAlert()
      requires Coherent()
      modifies this, matrix, text
      ensures Coherent()
      ensures old(showingAlert) || old(queue) == [] ==> unchanged(this, matrix, text)
      ensures !old(showingAlert) && old(queue) != [] ==>
                var a := old(queue)[0];
                && queue == old(queue)[1..] && showingAlert && shown == old(shown) + [a]
                && matrix.Running() && matrix.color == a.color && matrix.frameNumber == 0
                && matrix.calls == old(matrix.calls)
                && text.calls == old(text.calls) + TextDisplay.WriteCalls(a.message)
                && text.scroll == TextDisplay.WriteScroll(a.message)
      ensures hasTaskView == old(hasTaskView) && taskViews == old(taskViews)
      ensures listening == old(listening) && accepted == old(accepted)
    {
      if showingAlert || queue == [] {
        return;
      }
      var a := queue[0];
      ShiftHead(shown, queue);
      queue := queue[1..];
      var started := matrix.StartAnimation(a.color);
      assert started.Pass?;
      text.Write(a.message);
      showingAlert := true;
      shown := shown + [a];
    }

    /**
     * Accepting a valid alert: append it to the queue and show it at once
     * when no alert is shown.
     */
    method Enqueue(a: Alert)
      requires Valid()
      modifies this, matrix, text
      ensures Valid() && showingAlert && accepted == old(accepted) + [a]
      ensures old(showingAlert) ==> queue == old(queue) + [a] && shown == old(shown) && unchanged(matrix, text)
      ensures !old(showingAlert) ==>
                && queue == [] && shown == old(shown) + [a]
                && matrix.color == a.color && matrix.calls == old(matrix.calls)
                && text.calls == old(text.calls) + TextDisplay.WriteCalls(a.message)
                && text.scroll == TextDisplay.WriteScroll(a.message)
      ensures hasTaskView == old(hasTaskView) && taskViews == old(taskViews) && listening == old(listening)
    {
      queue := queue + [a];
      accepted := accepted + [a];
      ShowNextAlert();
    }

    /**
     * One connection of the accept loop: answer the request and, for a valid
     * one, enqueue the alert.  A request without a space raises out of the
     * loop: no answer, and the listener stops.  Once stopped, no request is
     * answered.
     */
    method Receive(data: string) returns (response: Option<string>)
      requires Valid()
      modifies this, matrix, text
      ensures Valid()
      ensures !old(listening) ==> response.None? && unchanged(this, matrix, text)
      ensures old(listening) ==> response == ResponseTo(data) && listening == (' ' in data)
      ensures !old(listening) || AcceptedAlert(data).None? ==>
                queue == old(queue) && showingAlert == old(showingAlert) && shown == old(shown)
                && accepted == old(accepted) && unchanged(matrix, text)
      ensures old(listening) && AcceptedAlert(data).Some? ==>
                var a := AcceptedAlert(data).value;
                && accepted == old(accepted) + [a] && showingAlert
                && (old(showingAlert) ==> queue == old(queue) + [a] && shown == old(shown))
                && (!old(showingAlert) ==> queue == [] && shown == old(shown) + [a] && matrix.color == a.color)
      ensures hasTaskView == old(hasTaskView) && taskViews == old(taskViews)
    {
      if !listening {
        return None;
      }
      var reply := HandleRequest(data);
      if reply.None? {
        listening := false;
        return None;
      }
      if reply.value.alert.Some? {
        Enqueue(reply.value.alert.value);
      }
      response := Some(reply.value.response);
    }

    /**
     * `_button_push`: a no-op while no alert is shown.  Otherwise stop the
     * animation, light four dots, clear the flag, then show the next alert, or
     * ask the task view to redraw when the queue is empty.
     */
    method ButtonPush()
      requires Valid()
      modifies this, matrix, text
      ensures Valid()
      ensures !old(showingAlert) ==> unchanged(this, matrix, text)
      ensures old(showingAlert) ==>
                && matrix.calls == old(matrix.calls) + [ClearCall, WriteCall]
                && text.calls == old(text.calls) + [PrintCall("    ")] + TextDisplay.DotCalls(4)
                                 + (if old(queue) != [] then TextDisplay.WriteCalls(old(queue)[0].message) else [])
      ensures old(showingAlert) && old(queue) != [] ==>
                && queue == old(queue)[1..] && showingAlert && shown == old(shown) + [old(queue)[0]]
                && matrix.color == old(queue)[0].color && taskViews == old(taskViews)
                && matrix.Running() && matrix.frameNumber == 0
                && text.scroll == TextDisplay.WriteScroll(old(queue)[0].message)
      ensures old(showingAlert) && old(queue) == [] ==>
                && !showingAlert && !matrix.Running() && shown == old(shown)
                && taskViews == old(taskViews) + (if hasTaskView then 1 else 0)
                && matrix.frameNumber == old(matrix.frameNumber) && text.scroll.None?
      ensures accepted == old(accepted) && hasTaskView == old(hasTaskView) && listening == old(listening)
    {
      if !showingAlert {
        return;
      }
      matrix.StopAnimation();
      text.Dots(4);
      showingAlert := false;
      if queue != [] {
        ShowNextAlert();
      } else if hasTaskView {
        taskViews := taskViews + 1;
      }
    }

    /**
     * `_button_monitor`: each poll that reads the button high calls
     * `_button_push`.  Holding the button for `h` polls therefore
     * acknowledges up to `h` alerts.
     */
    method Monitor(levels: seq<bool>)
      requires Valid()
      modifies this, matrix, text
      ensures Valid()
      ensures accepted == old(accepted) && hasTaskView == old(hasTaskView) && listening == old(listening)
      ensures !old(showingAlert) ==> queue == old(queue) && !showingAlert && shown == old(shown) && taskViews == old(taskViews)
      ensures old(showingAlert) && HighCount(levels) <= |old(queue)| ==>
                && showingAlert && queue == old(queue)[HighCount(levels)..]
                && shown == old(shown) + old(queue)[..HighCount(levels)] && taskViews == old(taskViews)
      ensures old(showingAlert) && HighCount(levels) > |old(queue)| ==>
                && !showingAlert && queue == [] && shown == old(shown) + old(queue)
                && taskViews == old(taskViews) + (if hasTaskView then 1 else 0)
    {
      ghost var q0, s0, t0, showing0 := queue, shown, taskViews, showingAlert;
      ghost var k: nat := 0;
      var i := 0;
      while i < |levels|
        invariant 0 <= i <= |levels| && k == HighCount(levels[..i])
        invariant Valid()
        invariant accepted == old(accepted) && hasTaskView == old(hasTaskView) && listening == old(listening)
        invariant Acknowledged(q0, s0, t0, showing0, k)
      {
        assert levels[..i + 1] == levels[..i] + [levels[i]];
        HighCountSnoc(levels[..i], levels[i]);
        Poll(levels[i], q0, s0, t0, showing0, k);
        if levels[i] {
          k := k + 1;
        }
        i := i + 1;
      }
      assert levels[..|levels|] == levels;
    }

    /**
     * Where `k` button pushes leave the alerts, starting from queue `q0`,
     * shown list `s0`, `t0` task-view redraws and `showing0` for whether an
     * alert was up.
     */
    ghost predicate Acknowledged(q0: seq<Alert>, s0: seq<Alert>, t0: nat, showing0: bool, k: nat)
      reads this
    {
      && (!showing0 ==> queue == q0 && !showingAlert && shown == s0 && taskViews == t0)
      && (showing0 && k <= |q0| ==> showingAlert && queue == q0[k..] && shown == s0 + q0[..k] && taskViews == t0)
      && (showing0 && k > |q0| ==>
            !showingAlert && queue == [] && shown == s0 + q0 && taskViews == t0 + (if hasTaskView then 1 else 0))
    }

    /** One poll of the button: a high level acknowledges one more alert. */
    method Poll(high: bool, ghost q0: seq<Alert>, ghost s0: seq<Alert>, ghost t0: nat, ghost showing0: bool, ghost k: nat)
      requires Valid() && Acknowledged(q0, s0, t0, showing0, k)
      modifies this, matrix, text
      ensures Valid() && Acknowledged(q0, s0, t0, showing0, if high then k + 1 else k)
      ensures accepted == old(accepted) && hasTaskView == old(hasTaskView) && listening == old(listening)
    {
      if high {
        PushStep(q0, s0, k);
        ButtonPush();
      }
    }
  }

  /** Moving the head of the queue to the end of the shown list keeps their concatenation. */
  lemma ShiftHead(s: seq<Alert>, q: seq<Alert>)
    requires q != []
    ensures s + q == (s + [q[0]]) + q[1..]
  {
    assert q == [q[0]] + q[1..];
  }

  /** One more acknowledged alert: the queue loses its head to the shown list. */
  lemma PushStep(q0: seq<Alert>, s0: seq<Alert>, k: nat)
    ensures k < |q0| ==> q0[k..][1..] == q0[k + 1..] && s0 + q0[..k] + [q0[k..][0]] == s0 + q0[..k + 1]
    ensures k == |q0| ==> s0 + q0[..k] == s0 + q0
  {
    if k < |q0| {
      assert q0[..k + 1] == q0[..k] + [q0[k]];
    }
  }

  /** The number of polls that read the button high. */
  function HighCount(levels: seq<bool>): (n: nat)
    ensures n <= |levels|
  {
    if levels == [] then 0 else (if levels[0] then 1 else 0) + HighCount(levels[1..])
  }

  lemma {:induction false} HighCountSnoc(levels: seq<bool>, b: bool)
    ensures HighCount(levels + [b]) == HighCount(levels) + (if b then 1 else 0)
  {
    if levels != [] {
      assert (levels + [b])[1..] == levels[1..] + [b];
      HighCountSnoc(levels[1..], b);
    } else {
      assert (levels + [b])[1..] == [];
    }
  }
}
