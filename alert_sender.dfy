/**
 * The command-line alert sender: turns a colour letter (`r`, `g` or `y`) and
 * a message into one `"<COLOR> <message>"` request for the alert station.
 */
module AlertSender {
  import opened Wrappers
  import opened Surfaces
  import opened PyText
  import Alerts

  /** The colour letters the argument parser accepts. */
  predicate IsLetter(letter: char) {
    letter == 'r' || letter == 'g' || letter == 'y'
  }

  /**
   * The wire code chosen as the sender's code chooses it: the green branch
   * compares the still-unset `server_color`, not the letter, with `'g'`, so
   * it is never taken.  A letter outside the choices is refused by the
   * argument parser (`None`).
   */
  function ServerColorAsWritten(letter: char): (r: Option<string>)
    ensures r.Some? <==> IsLetter(letter)
    ensures r.Some? ==> r.value == Alerts.RED || r.value == Alerts.YELLOW
  {
    if !IsLetter(letter) then None
    else
      var serverColor: Option<string> := None;
      if letter == 'r' then Some(Alerts.RED)
      else if serverColor == Some("g") then Some(Alerts.GREEN)
      else Some(Alerts.YELLOW)
  }

  /** The matrix colour a letter names. */
  function LetterColor(letter: char): (c: Color)
    requires IsLetter(letter)
  {
    match letter
    case 'r' => Red
    case 'g' => Green
    case _ => Yellow
  }

  /** As written, asking for a green alert sends a yellow one. */
  lemma GreenSentAsYellow(message: string)
    requires exists i :: 0 <= i < |message| && !IsSpace(message[i])
    ensures ServerColorAsWritten('g') == Some(Alerts.YELLOW)
    ensures Alerts.AcceptedAlert(RequestText(ServerColorAsWritten('g').value, message))
              == Some(Alerts.Alert(Yellow, Strip(message)))
    ensures LetterColor('g') != Yellow
  {
    var code := ServerColorAsWritten('g').value;
    assert code == Alerts.YELLOW;
    assert Alerts.MatrixColor(code) == Some(Yellow);
    Alerts.ValidRequestAccepted(code, message);
  }

  /** The corrected choice of wire code: each letter to its own colour. */
  function ServerColor(letter: char): (r: Option<string>)
    ensures r.Some? <==> IsLetter(letter)
  {
    match letter
    case 'r' => Some(Alerts.RED)
    case 'g' => Some(Alerts.GREEN)
    case 'y' => Some(Alerts.YELLOW)
    case _ => None
  }

  /** Each accepted letter is sent as the wire code of the colour it names. */
  lemma ServerColorNamesLetterColor(letter: char)
    requires IsLetter(letter)
    ensures ServerColor(letter) == Some(Alerts.WireCode(LetterColor(letter)))
    ensures Alerts.MatrixColor(ServerColor(letter).value) == Some(LetterColor(letter))
  {
    Alerts.WireCodeRoundTrip(ServerColor(letter).value, LetterColor(letter));
  }

  /** The request text: the code, one space, the message as given. */
  function RequestText(code: string, message: string): (r: string)
    ensures |r| == |code| + 1 + |message| && r[..|code|] == code && r[|code|] == ' ' && r[|code| + 1..] == message
  {
    code + " " + message
  }

  /** The request the sender as written sends for an accepted letter, or `None` when the parser refuses the letter. */
  function RequestAsWritten(letter: char, message: string): (r: Option<string>)
    ensures r.Some? <==> IsLetter(letter)
  {
    match ServerColorAsWritten(letter)
    case None => None
    case Some(code) => Some(RequestText(code, message))
  }

  /**
   * As written, a request from the sender with a message that is not blank
   * is answered `OK` and becomes a red alert for `r` and a yellow one for
   * both `g` and `y`; a blank message is answered `Empty message`.
   */
  lemma {:induction false} RequestAsWrittenRoundTrip(letter: char, message: string)
    requires IsLetter(letter)
    ensures (exists i :: 0 <= i < |message| && !IsSpace(message[i])) ==>
              Alerts.HandleRequest(RequestAsWritten(letter, message).value)
                == Some(Alerts.Reply("OK", Some(Alerts.Alert(if letter == 'r' then Red else Yellow, Strip(message)))))
    ensures (forall i :: 0 <= i < |message| ==> IsSpace(message[i])) ==>
              Alerts.HandleRequest(RequestAsWritten(letter, message).value) == Some(Alerts.Reply("Empty message", None))
  {
    var code := ServerColorAsWritten(letter).value;
    assert Alerts.MatrixColor(code) == Some(if letter == 'r' then Red else Yellow);
    if exists i :: 0 <= i < |message| && !IsSpace(message[i]) {
      Alerts.ValidRequestAccepted(code, message);
    } else {
      Alerts.EmptyMessageRejected(code, message);
    }
  }

  /** The corrected sender's request for an accepted letter, or `None` when the parser refuses the letter. */
  function Request(letter: char, message: string): (r: Option<string>)
    ensures r.Some? <==> IsLetter(letter)
  {
    match ServerColor(letter)
    case None => None
    case Some(code) => Some(RequestText(code, message))
  }

  /**
   * A request from the corrected sender is answered `OK` and becomes an
   * alert in the colour the letter names, carrying the stripped message, exactly when the
   * message is not blank; a blank one is answered `Empty message`.
   */
  lemma {:induction false} RequestRoundTrip(letter: char, message: string)
    requires IsLetter(letter)
    ensures (exists i :: 0 <= i < |message| && !IsSpace(message[i])) ==>
              Alerts.HandleRequest(Request(letter, message).value)
                == Some(Alerts.Reply("OK", Some(Alerts.Alert(LetterColor(letter), Strip(message)))))
    ensures (forall i :: 0 <= i < |message| ==> IsSpace(message[i])) ==>
              Alerts.HandleRequest(Request(letter, message).value) == Some(Alerts.Reply("Empty message", None))
  {
    var code := ServerColor(letter).value;
    ServerColorNamesLetterColor(letter);
    if exists i :: 0 <= i < |message| && !IsSpace(message[i]) {
      Alerts.ValidRequestAccepted(code, message);
    } else {
      Alerts.EmptyMessageRejected(code, message);
    }
  }
}
