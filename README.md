# LED-matrix status appliance, modelled in Dafny

The appliance is a small device with two displays:

- an 8x8 bicolour LED matrix;
- a 4-character 14-segment text display.

Remote clients send alerts of the form `"<COLOR> <message>"` over the network. Valid alerts wait in a FIFO queue. One alert at a time is shown: an animation in its colour runs on the matrix and its message appears on the text display. Each press of a hardware button acknowledges the shown alert and shows the next one. When no alert is waiting, the button hands the matrix back to the task view, which draws the user's Remember The Milk task counts. A counter carousel and a stand-alone counter board show numbers fetched from files, URLs and sockets.

The model covers the sequential logic of these programs:

- `alerts.py`: the alert station (`Alerts`).
- `bcmatrix.py`: the animation controller (`BcMatrix`).
- `text_display.py`: the text display (`TextDisplay`).
- `rtm.py`: the task view (`Rtm`).
- `rtm_matrix.py`: the stand-alone task script (`RtmMatrix`).
- The request signing, classification, sort and reply walk shared by `rtm.py` and `rtm_matrix.py` (`RtmApi`).
- `counters.py`: the counter carousel (`Counters`).
- `counter.py`: the counter board (`CounterBoard`).
- `alert_sender.py`: the command-line alert sender (`AlertSender`).

Three helper modules support them:

- `Wrappers`: `Option`, `Result` and `Outcome`.
- `PyText`: the Python string built-ins the code relies on, `strip`, `upper`, `rjust`, slicing, `str(int)`, `int(str)` and string order.
- `Surfaces`: the two display drivers as logs of calls, with `Buffer` and `Shown` replaying a matrix log into the lit pixels.

Objects whose fields the code updates are classes with those fields:

- the alert station, the animation controller, the text display, the two task clients, the counter set and the counter board;
- the hardware each one drives is a `calls` field that its methods extend.

Loops in the code are `while` loops with invariants, proved against specification functions such as `FrameDraw`, `DrawCalls`, `Collect`, `Query` and `Displayed`. The properties the code promises are proved about those functions as lemmas.

Two behaviours of the code shape the alert station's model:

- A request with no space makes the two-way unpack at `alerts.py:63` raise inside the accept loop, and nothing catches it there, so the listener thread ends. `Alerts.AlertStation.Receive` models this with its `listening` flag.
- An acknowledgement lights four decimal points with `dots(4)` at `alerts.py:36`; the text display is not blanked.

## Model

| member | source | states |
|---|---|---|
| Surfaces.ClearedShowsNothing | bcmatrix.py:70-72 | after a `clear` and a `write_display` every LED is dark, whatever was drawn before |
| PyText.Strip | alerts.py:64 | `strip()` keeps exactly the part between the leading and trailing whitespace, and what it keeps neither starts nor ends with whitespace |
| PyText.StripEmptyIffBlank | alerts.py:64 | the stripped message is empty exactly when every character is whitespace |
| PyText.Upper | text_display.py:26 | upper-casing keeps the length and maps each character on its own |
| PyText.Spaces | text_display.py:29 | `' ' * n` is `n` spaces, and nothing at all for a negative `n` |
| PyText.NoDots | text_display.py:28 | removing the dots leaves no dot and never lengthens the text |
| PyText.Slice | text_display.py:61 | `text[pos:pos+4]` holds at most four characters, each taken from the text at its own offset, and exactly four when the window lies inside the text |
| PyText.RJust | counter.py:248 | `rjust(w)` is the text preceded by just enough spaces to reach width `w`, and never shortens it |
| PyText.ParseRJust | counters.py:86 | right-aligned decimal text reads back as the number it shows |
| PyText.StrLessTransitive | rtm.py:67 | the string order `sorted` uses on keys is transitive |
| PyText.StrLessTotal | rtm.py:67 | any two different keys are ordered one way or the other |
| PyText.StrLessIrreflexive | rtm.py:67 | no key is below itself |
| TextDisplay.Prepare | text_display.py:26-29 | the prepared text always has at least four non-dot characters |
| TextDisplay.PrepareShape | text_display.py:26-29 | the prepared text is the stripped, upper-cased text followed only by spaces; it has exactly four non-dot characters unless the text has more, and then nothing is added |
| TextDisplay.ScrollsIffLong | text_display.py:28-34 | `write` scrolls exactly when the stripped text has more than four non-dot characters; padding never decides |
| TextDisplay.DotCount | text_display.py:38-45 | `dots(n)` lights `min(n, 4)` points, none for `n <= 0` |
| TextDisplay.DotCalls | text_display.py:38-45 | the raw writes are digits 0, 1, ... in order, each with pattern 16384, one per lit point |
| TextDisplay.NextPos | text_display.py:64-67 | the scroll position advances by one and wraps to 0 only once the end of the text has been shown, so it never passes the text's length |
| TextDisplay.TextDisplay.constructor | text_display.py:17-18 | a new display has no scroll and has printed four spaces |
| TextDisplay.TextDisplay.StopScroll | text_display.py:71-74 | afterwards no scroll runs and nothing was printed |
| TextDisplay.TextDisplay.Clear | text_display.py:20-22 | stops any scroll, then prints four spaces |
| TextDisplay.TextDisplay.Write | text_display.py:24-34 | prints the prepared text when it fits, otherwise prints nothing and leaves a scroll of the framed text at position 0 |
| TextDisplay.TextDisplay.Dots | text_display.py:36-45 | clears, then lights exactly the first `min(n, 4)` decimal points |
| TextDisplay.TextDisplay.ScrollTick | text_display.py:57-67 | one scroll step prints the 4-character window at the current position and keeps the position within the text |
| BcMatrix.AnimationFramesWellFormed | bcmatrix.py:10-23 | the pattern has 12 frames of 8 row masks, each mask a byte |
| BcMatrix.FrameAt | bcmatrix.py:51 | the frame of any iteration is one of the 12 frames |
| BcMatrix.NextFrame | bcmatrix.py:64-66 | the frame counter stays below 12 |
| BcMatrix.FrameAtStep | bcmatrix.py:64-66 | advancing the counter once is counting one more frame modulo 12 |
| BcMatrix.RowBuffer | bcmatrix.py:59-61 | the column loop colours cell (`row`, `c`) exactly for the set bits `c` of the row mask, all in the animation colour |
| BcMatrix.FrameBuffer | bcmatrix.py:57-61 | the row loop colours cell (`r`, `c`) exactly when bit `c` of row mask `r` is set |
| BcMatrix.FrameShown | bcmatrix.py:54-63 | after one iteration the matrix shows exactly the frame, every lit pixel in the animation colour and every other pixel dark |
| BcMatrix.AnimationController.constructor | bcmatrix.py:27-32 | a new controller is idle, holds the 12-frame pattern, and has sent nothing |
| BcMatrix.AnimationController.StartAnimation | bcmatrix.py:37-43 | refused with "Animation is already active" while running; otherwise records the colour and starts at frame 0 |
| BcMatrix.AnimationController.StopAnimation | bcmatrix.py:45-48 | a no-op when idle; when running, stops and leaves the matrix cleared and written, so nothing is lit |
| BcMatrix.AnimationController.Tick | bcmatrix.py:53-68 | while running, one iteration draws the current frame and advances the counter, which stays the frame number modulo 12 |
| BcMatrix.AnimationController.DrawFrame | bcmatrix.py:54-63 | the nested loops send a clear, the frame's pixels and a write |
| BcMatrix.AnimationController.RunFrames | bcmatrix.py:51-68 | `n` iterations draw the frames in table order, wrapping after frame 11 |
| BcMatrix.AnimationController.Clear | bcmatrix.py:74-78 | refused with "Animation is active" while running, otherwise passed to the driver unchanged |
| BcMatrix.AnimationController.SetPixel | bcmatrix.py:80-84 | refused with "Animation is active" while running, otherwise passed to the driver unchanged |
| BcMatrix.AnimationController.WriteDisplay | bcmatrix.py:86-90 | refused with "Animation is active" while running, otherwise passed to the driver unchanged |
| Alerts.MatrixColor | alerts.py:86-94 | exactly the three wire codes have a matrix colour |
| Alerts.WireCode | alerts.py:11-13 | every matrix colour has one of the three wire codes |
| Alerts.WireCodeRoundTrip | alerts.py:86-94 | wire codes and matrix colours correspond one to one |
| Alerts.SplitOnce | alerts.py:63 | the unpack fails exactly when there is no space; otherwise the data is the space-free code, one space, and the rest |
| Alerts.SplitJoined | alerts.py:63 | a space-free code joined to a rest by one space splits back into the two |
| Alerts.HandleRequest | alerts.py:61-74 | no answer exactly when the request has no space; the answer is "OK" exactly when an alert is queued, and the queued message is non-empty and already stripped |
| Alerts.InvalidColorRejected | alerts.py:68-69 | an unknown code is answered "Invalid color <code>" and queues nothing, even with an empty message |
| Alerts.EmptyMessageRejected | alerts.py:70-71 | a valid code with a blank message is answered "Empty message" and queues nothing |
| Alerts.ValidRequestAccepted | alerts.py:72-73 | a valid code with a non-blank message is answered "OK" and queues one alert with the mapped colour and the stripped message |
| Alerts.AcceptedAlert | alerts.py:66-73 | a request queues an alert only when it is answered "OK" |
| Alerts.ResponseTo | alerts.py:63-76 | a request is answered exactly when it contains a space |
| Alerts.AlertStation.constructor | alerts.py:15-20 | a new station has an empty queue, no alert shown and no task view |
| Alerts.AlertStation.RegisterTaskView | alerts.py:30-31 | registers the task view and changes nothing else |
| Alerts.AlertStation.ShowNextAlert | alerts.py:78-84 | a no-op while an alert is shown or the queue is empty; otherwise removes the head, starts the animation in its colour, writes its message and marks it shown |
| Alerts.AlertStation.Enqueue | alerts.py:73-74 | the alert joins the tail; when none was shown it is shown at once; an alert is always shown afterwards |
| Alerts.AlertStation.Receive | alerts.py:58-76 | answers as `HandleRequest` does and queues exactly the accepted alert; a request without a space stops the listener; the station invariant (animation runs exactly while an alert is shown, in its colour; FIFO order; idle means empty queue) is kept |
| Alerts.AlertStation.ButtonPush | alerts.py:33-42 | a no-op while nothing is shown; otherwise stops the animation and lights four dots, then either shows the next alert (its animation from frame 0, its text written or scrolling) or, with an empty queue, leaves no scroll and asks the registered task view to redraw |
| Alerts.AlertStation.Monitor | alerts.py:45-49 | `h` high polls acknowledge `h` alerts in queue order, handing over to the task view once when they outnumber the queue |
| Alerts.AlertStation.Poll | alerts.py:47-48 | a high poll acknowledges one more alert and a low poll changes nothing |
| AlertSender.ServerColorAsWritten | alert_sender.py:17-24 | as written, only `RED` and `YEL` are ever sent |
| AlertSender.GreenSentAsYellow | alert_sender.py:21 | as written, the letter `g` produces a yellow alert, not a green one |
| AlertSender.ServerColor | alert_sender.py:19-24 | exactly the three letters the parser accepts have a wire code |
| AlertSender.ServerColorNamesLetterColor | alert_sender.py:19-24 | corrected: each letter is sent as the wire code of the colour it names, and the station maps it back to that colour |
| AlertSender.RequestText | alert_sender.py:28 | the request is the code, one space, and the message as given |
| AlertSender.Request | alert_sender.py:12 | corrected sender: a request exists exactly for an accepted letter |
| AlertSender.RequestRoundTrip | alert_sender.py:28 | corrected sender: the station answers "OK" with the colour the letter names and the stripped message when the message is not blank, and "Empty message" when it is |
| AlertSender.RequestAsWritten | alert_sender.py:17-28 | as written: a request exists exactly for an accepted letter |
| AlertSender.RequestAsWrittenRoundTrip | alert_sender.py:17-28 | as written: the station answers "OK" with a red alert for `r` and a yellow one for both `g` and `y` when the message is not blank, and "Empty message" when it is |
| RtmApi.Lookup | rtm.py:61-65 | a key is found exactly when some item has it, and the found value is that item's |
| RtmApi.PutLookup | rtm.py:62-65 | after `params[k] = v`, `k` looks up as `v` and every other key as before |
| RtmApi.PutDistinct | rtm.py:62-65 | setting a key keeps the keys distinct |
| RtmApi.RequestParams | rtm.py:61-65 | the four fixed parameters hold their values and every other parameter is the caller's |
| RtmApi.RequestParamsDistinct | rtm.py:61-65 | the request parameters name each key once |
| RtmApi.SortByKey | rtm.py:67 | sorting the items loses and adds none |
| RtmApi.SortByKeySorted | rtm.py:67 | sorted items have strictly increasing keys |
| RtmApi.RequestItemsSorted | rtm.py:61-67 | the items signed are the caller's parameters with the four fixed ones, each once, in increasing key order |
| RtmApi.SignedQuery | rtm.py:69-75 | the URL is `key=value&` per item in order followed by the digest, and the signature input is the secret followed by `keyvalue` per item in the same order |
| RtmApi.BuildRequest | rtm.py:61-75 | the request string and signature input are built from the sorted request parameters, in one order for both |
| RtmApi.Classify | rtm.py:114-119 | overdue exactly when due before today, today exactly when due today, future otherwise |
| RtmApi.ClassifyMonotone | rtm.py:114-119 | a later due date never gets an earlier status |
| RtmApi.SortByDue | rtm.py:128 | sorting by due date is a permutation of the tasks |
| RtmApi.SortByDueSorted | rtm.py:128 | the sorted tasks are in due-date order |
| RtmApi.SortByDueStable | rtm.py:128 | tasks due the same day keep their relative order |
| RtmApi.SortByDueClassified | rtm.py:114-128 | sorting keeps every task's status right for its due date |
| RtmApi.SortedStatusesOrdered | rtm.py:114-128 | in the sorted list overdue tasks come first, then today's, then future ones |
| RtmApi.Collect | rtm.py:105-126 | the collected list fails exactly when some due date does not parse; otherwise each task carries the status its due date has, and with the future filter no future task is kept |
| RtmApi.EntryTask | rtm.py:110-124 | an entry becomes a task with its own due date, that date's status and its series' recurrence |
| RtmApi.NotFuture | rtm_matrix.py:106-112 | keeps exactly the tasks that are not future ones: each kept task is in the list and not future, and each non-future task of the list is kept |
| RtmApi.CollectEntries | rtm.py:105-126 | when every due date parses, entry i becomes task i in entry order; with the future filter (rtm_matrix.py:106-112) the result is that list without its future tasks |
| RtmApi.CollectSeries | rtm.py:110-126 | the innermost loop collects one series' entries as `Collect` does |
| RtmApi.CollectList | rtm.py:106-126 | the middle loop collects one list's series as `Collect` does |
| RtmApi.CollectTasks | rtm.py:105-126 | the nested loops collect the whole reply as `Collect` does, abandoning it at the first bad date |
| Rtm.TruncDiv8 | rtm.py:186 | `int(n / 8)` truncates toward zero, which is floor division for non-negative `n` |
| Rtm.DotCellRoundTrip | rtm.py:184-190 | each dot 0..63 lands on a grid cell and each grid cell is the place of exactly one such dot |
| Rtm.DotsDistinct | rtm.py:184-190 | distinct dots in 0..63 land on distinct cells |
| Rtm.LineCount | rtm.py:214-216 | the line count is the least number of 8-dot rows that hold the count |
| Rtm.LineCountNat | rtm.py:214-216 | for a count that is not negative the line count is `(count + 7) / 8` |
| Rtm.RunCalls | rtm.py:194-196 | the `k`-th pixel of a group goes to the cell of dot `start + k`, in the group's colour |
| Rtm.RunBuffer | rtm.py:194-212 | a group of dots colours exactly the cells of its dots, all in its colour |
| Rtm.SimpleRunsFit | rtm.py:192-212 | when the dot layout is chosen, the groups fit on the grid and never share a cell |
| Rtm.SimpleShown | rtm.py:192-232 | with the dot layout the matrix shows exactly the overdue dots from dot 0 in red, the today dots from the next fresh row in yellow, the future dots from the row after that in green, and nothing else |
| Rtm.LowBitBuffer | rtm.py:176-178 | bit `b` in 0..7 lights (`row`, `7 - b`) exactly when it is set |
| Rtm.HighBitBuffer | rtm.py:180-182 | bit `b` in 8..15 lights (`row - 1`, `15 - b`) exactly when it is set |
| Rtm.BinaryBuffer | rtm.py:175-182 | a count in binary lights exactly its set bits 0..15 on its two rows; higher bits show nothing |
| Rtm.BinaryShown | rtm.py:218-232 | with the binary layout the matrix shows exactly the three counts' set bits, overdue on rows 7-6 in red, today on rows 4-3 in yellow, future on rows 1-0 in green |
| Rtm.SymbolCalls | rtm.py:157-159 | one `set_pixel` per point of the symbol, in order |
| Rtm.TallyOf | rtm.py:141-151 | the three counters add up to the number of tasks |
| Rtm.TallyCounts | rtm.py:141-151 | each counter counts exactly the tasks with its status |
| Rtm.Client.constructor | rtm.py:31-41 | a new client has an empty task list, no status yet and no processing error |
| Rtm.Client.FetchTasks | rtm.py:89-132 | sends the signed `rtm.tasks.getList` request; a failure or an unreadable body sets the processing error and keeps the old list; a non-200 status or a JSON `null` body drops the list and clears the error; otherwise the list is the reply's tasks classified against today and sorted by due date |
| Rtm.Client.TakeReply | rtm.py:96-131 | handles the reply as `FetchTasks` describes, the `null` body included, keeping every stored list classified against today and sorted by due date |
| Rtm.Client.DisplaySymbol | rtm.py:157-159 | draws the symbol's points in order |
| Rtm.Client.DisplayBinaryTasks | rtm.py:175-182 | the two bit loops send the calls of the binary layout of one count |
| Rtm.Client.FastForward | rtm.py:198-200 | the fast-forward loop stops on the last dot before the next fresh row |
| Rtm.Client.DrawRun | rtm.py:194-196 | one `for` loop draws its group of dots after the current position and advances by the group's size |
| Rtm.Client.DisplaySimpleTasks | rtm.py:192-212 | draws the three groups of dots, each from a fresh row |
| Rtm.Client.DrawTasks | rtm.py:218-232 | clears, draws the binary layout when the dot rows would exceed 8 and the dots otherwise, then writes |
| Rtm.Client.DisplayBinaryLayout | rtm.py:225-228 | the three counts in binary on rows 7, 4 and 1 |
| Rtm.Client.DisplayTasks | rtm.py:135-153 | the first matching branch wins: a non-200 status draws the network-error symbol, else a processing error draws the generic-error symbol, else a missing list (after a `null` body) raises `TypeError` with nothing drawn, else the tasks are counted by status and drawn |
| RtmMatrix.PointColor | rtm_matrix.py:139-144 | recurring tasks are yellow whatever their status; otherwise overdue tasks are red, tasks due today green, and future tasks get no point |
| RtmMatrix.Points | rtm_matrix.py:136-144 | never more points than tasks |
| RtmMatrix.SortByDueNoFuture | rtm_matrix.py:106-114 | sorting brings in no future task |
| RtmMatrix.PointPerTask | rtm_matrix.py:136-146 | with no future task, every task gets exactly one point of its colour, in list order |
| RtmMatrix.Client.constructor | rtm_matrix.py:33-40 | a new client has an empty task list, no status yet and no processing error |
| RtmMatrix.Client.FetchTasks | rtm_matrix.py:74-118 | as the task view's fetch, except that future tasks are never added to the list |
| RtmMatrix.Client.TakeReply | rtm_matrix.py:81-117 | handles the reply, a JSON `null` body dropping the list without an error, keeping every stored list free of future tasks and sorted by due date |
| RtmMatrix.Client.Report | rtm_matrix.py:131-146 | `N` unless the status is 200, else `E` on a processing error, else `TypeError` when there is no list (after a `null` body), else one point per task in its colour |
| Counters.FormatNumber | counters.py:72-88 | nothing for a missing or non-positive number; `***` from a million; thousands with two decimals, one above ten thousand; below a thousand the digits right-aligned by spaces in three characters, which read back as the number |
| Counters.NumberFromText | counters.py:100-122 | a counter gets text exactly when the text read is an integer above zero; nothing read means no text |
| Counters.NumberFromFile | counters.py:90-98 | a missing file gives no text; a first line that is no integer raises |
| Counters.Refreshed | counters.py:40-43 | a due counter takes the new text and the current time, and a counter that is not due is untouched |
| Counters.RefreshedNotDue | counters.py:41 | a counter just refreshed is not due again until its delay has passed |
| Counters.MinDelay | counters.py:49-53 | the new entry's delay is the least delay among counters naming the URL, or the default when none names it or none is smaller |
| Counters.CounterSet.constructor | counters.py:19-24 | every configured counter starts with no text and never fetched |
| Counters.CounterSet.RetrievePass | counters.py:38-45 | each counter is refreshed exactly when due |
| Counters.CounterSet.FindMinDelay | counters.py:49-53 | the loop finds the least delay, and fails exactly when some counter has no parameters |
| Counters.CounterSet.GetUrl | counters.py:47-68 | a new URL gets an entry with its least delay; a fresh entry returns its stored response unchanged; a stale one refetches, storing the response and time |
| Counters.CounterSet.DisplayPass | counters.py:30-35 | writes label and text for each counter that has text, in order |
| Counters.DisplayedSkipsMissing | counters.py:32-35 | a pass writes once per counter with text and nothing for counters without text |
| CounterBoard.Step | counter.py:111-116 | an entry that is neither key nor index raises `ValueError`; a key on a dict gives the field's value or `KeyError`, on anything else `TypeError`; an index on a list gives the item, on a string the one-character string, counting from the end when negative, or `IndexError` out of range; an index on a dict is `KeyError` and on anything else `TypeError` |
| CounterBoard.WalkAppend | counter.py:110-116 | walking a path in two legs is walking it whole |
| CounterBoard.WalkPath | counter.py:109-116 | the walk loop follows the path one entry at a time, stopping at the first failure |
| CounterBoard.Trim | counter.py:56-57 | with `trim > 0` the last `trim` characters are dropped, leaving nothing when the line is no longer; otherwise the line is kept |
| CounterBoard.DisplayText | counter.py:232-249 | `---` for no value; an int as `IntText`, a float with two decimals, a string as `StrText`; a `bool` raises `TypeError` and a list or dict `AttributeError`; every shown text starts with the key |
| CounterBoard.IntText | counter.py:234-244 | `***` from a million; thousands with two decimals, one above ten thousand; below a thousand the key, then spaces, then the digits, right-aligned in three places |
| CounterBoard.StrText | counter.py:247-249 | the key, then the string right-aligned by spaces in four places when it contains a dot, else in three |
| CounterBoard.SmallIntReadsBack | counter.py:243-244 | an int below a thousand shows as the key, then spaces, then its digits, in four characters when above -100, and the text after the key reads back as the number |
| CounterBoard.Board.constructor | counter.py:13-28 | the thirteen keys T, R, A, P, Y, S, W, D, N, E, V, I, B in that order, each with no value |
| CounterBoard.Board.Put | counter.py:118-119 | storing a value changes only that key, and a new key goes last in the order |
| CounterBoard.NewKeysKnown | counter.py:118-119 | assigning only keys that already exist leaves the key order, and so the display order, unchanged |
| CounterBoard.NewKeysSplit | counter.py:118-128 | assigning the first entries of an extract and then all of them adds the same keys, in the same order, as assigning all of them once |
| CounterBoard.Board.IntFilePoll | counter.py:48-63 | the stripped, trimmed first line is stored as an int; a missing file or text that is no int leaves the value and the order as they were; a stored key keeps its place, a new one goes last |
| CounterBoard.Board.FilePoll | counter.py:65-81 | the stripped, trimmed first line is stored as text, or no value when the file is missing; a stored key keeps its place, a new one goes last |
| CounterBoard.Board.NumberPoll | counter.py:83-98 | the received text is stored as an int, or no value when it is missing or not an int; a stored key keeps its place, a new one goes last |
| CounterBoard.Board.StoreOne | counter.py:108-119 | one path is walked and its end stored under its destination, which keeps its place or goes last when new; nothing changes when the walk fails |
| CounterBoard.Board.StoreWalks | counter.py:108-119 | the destinations before the first failing path hold their paths' ends; a failure is reported exactly when some path does not walk; keys outside the extract keep their values; the key order gains the new destinations stored, in extract order |
| CounterBoard.Board.ClearDests | counter.py:124-128 | every destination of the extract gets no value, every other key keeps its value, and the key order gains the new destinations in extract order |
| CounterBoard.Board.JsonPoll | counter.py:101-130 | each destination takes what its path leads to; any failure, in the fetch or a walk, leaves every destination with no value; either way the key order gains exactly the new destinations, in extract order |
| CounterBoard.Board.DisplayPass | counter.py:228-252 | shows every key's text in insertion order; a value that cannot be shown raises and ends the pass after the keys before it |

## Left out

- Threads, events and sleeps are not modelled. Each operation is one atomic step:
  - a poll of the button, an accept-loop connection, an iteration of a render or scroll loop, a poller round;
  - `stop_animation` together with the render loop's epilogue it waits for;
  - `_stop_scroll` together with the scroll loop's exit.
  Races between the listener and button threads are not modelled. Neither are the unlocked write at `counter.py:59` and the unlocked `counter_data` of the counter board.
- Sockets, I2C and the LED and segment hardware become logs of calls. The request text arrives as a parameter and the response leaves as a result. `recv(1024)` truncation and UTF-8 decoding are not modelled.
- HTTP is a parameter holding the reply, and the reply is abstracted as follows:
  - `requests`, sessions and the retry adapter are left out;
  - the JSON body is given as already decoded;
  - a 200 body is `Unreadable` when it is not JSON or, being a JSON value other than `null`, lacks `rsp.tasks.list`; the JSON `null` is `JsonNull`;
  - a task series or task without its `taskseries`, `name`, `task` or `due` key, which raises `KeyError` and sets the processing error at `rtm.py:106-111`, cannot be represented: the decoded body always has them.
- The rate-limit backoff at `rtm.py:58-59` and `rtm_matrix.py:43-44` is a sleep and is left out.
- `md5(...).hexdigest()` is an uninterpreted function parameter.
- Dates and times are integers:
  - due dates are day numbers after time-zone conversion and midnight truncation, and today is a parameter;
  - sorting by the `%Y-%m-%d` text is sorting by that number;
  - elapsed seconds are differences of integer times.
- Floating-point text is abstracted:
  - `f'{v:.1f}'` and `f'{v:.2f}'` become a `Fixed(prefix, value, places)` value whose digits are not computed;
  - this covers the thousands branch of `_format_number` and of the board's display and its float values.
- `upper()` is ASCII-only in the model; other letters are left as they are.
- `counters.py`:
  - `_dir_count` and `_free_space` (filesystem and disk queries) are left out;
  - `_number_json_url_source` and `_text_json_url_source` (JSON lookup of a cached response) are left out;
  - only their common path through `_format_number` and `_get_url` is modelled;
  - `_number_url` and `_number_server` are `Counters.NumberFromText` on the text received.
- `counter.py`:
  - `space`, `file_line_count` and `dir_file_count` poll the filesystem and are left out;
  - `config.toml` loading and the thread wiring in `main` are left out.
- The write of `task_count.txt` in `display_tasks` (`rtm.py:154-155`) is filesystem output and is not modelled.
- Rtm.Client.DisplayTasks: `_display_network_error` calls `_display_vertical_binary` with one argument too many (`rtm.py:172`), which raises `TypeError` after the symbol is drawn. The model draws the symbol and returns `Fail("TypeError")`; the status digits are never drawn.
- `rtm.py:101` overwrites `self._TODAY`, so the today status is the date itself rather than 0. The model uses a distinct `Today` tag, which compares the same way. The overwrite also happens before the reply is walked, so a JSON reply that lacks `rsp.tasks.list` still moves the stored date, while `Rtm.Client.TakeReply` keeps the previous date for any body it cannot read. The stored date is only used to classify the next reply, which sets it again first, so nothing shown differs.
- `int()` also accepts digits with `_` separators (`1_000`) and non-ASCII decimal digits; `PyText.ParseInt` accepts only ASCII digits with an optional sign and surrounding whitespace.
- An exception escaping a poller or listener thread ends that thread. Only the listener's case (`listening`) and the board's display loop (`Fail`) are modelled.
- Alerts.AlertStation.ButtonPush: with a task view registered, `_button_push` calls `display_tasks` (`alerts.py:42`), which raises `TypeError` when the last status is not 200 (`rtm.py:172`) or when the list is missing after a `null` body. That ends the button-monitor thread (`alerts.py:45-49`), so no later alert can be acknowledged. The model counts one task view and carries on; `Alerts.AlertStation.Monitor` likewise goes on polling.
- `mymetric.py` (wiring) and `disk_space.py` (hardware and disk polling) are not part of this model.

## Findings

| source | as written | input that shows it | evidently intended | confidence | as-written member | corrected member |
|---|---|---|---|---|---|---|
| alert_sender.py:21 | the green branch tests `server_color`, still `None`, against `'g'`, so it is never taken and `g` falls through to `YEL` | colour letter `g` with message `hello` | `g` sends `GRN` and the station shows a green alert | not executed | AlertSender.GreenSentAsYellow | AlertSender.ServerColorNamesLetterColor |
