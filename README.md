# phonecall-popup call registry, in Dafny

This project models the core of a small desktop popup that follows telephony
calls announced on the session bus by the PipeWire telephony service. The
popup keeps a registry, `PopupApp.calls`, that maps a call's object path to a
record: caller id, state ("incoming" or "active"), start time, timer id and
window. Three bus notifications drive it:

- an object gaining the `org.pipewire.Telephony.Call1` interface;
- an object losing that interface;
- a call's `State` property changing.

These run through four helpers: show a window, mark a call active, report
elapsed time, and close a call. One window shows the elapsed time of an
active call as zero-padded `mm:ss`.

The project has four modules:

- `Wrappers` (`wrappers.dfy`) holds `Option`.
- `TimerLabel` (`timer_label.dfy`) models `CallWindow.update_timer_label`. The
  formatting is a pure function. Its partner is a parser for the same text.
  Lemmas prove the round trip, that the label is injective, how wide it is,
  and the divmod arithmetic.
- `Registry` (`registry.dfy`) models the registry as values. A `World` holds
  four things: the record map, the next fresh timer id, the next fresh window
  id, and a log of the effects the registry requests. Each handler is a
  function from the world before to the world after. GTK, GLib and the bus
  are replaced by these effects:
  - `OpenWindow`, `Present`, `ShowIncoming`, `ShowActive`, `DestroyWindow`;
  - `StartTimer`, `CancelTimer`;
  - `ShowElapsed`;
  - `RequestAnswer`, `RequestHangup`.

  `Resources` folds the log into the timers still live and the windows still
  open, each with the path its callbacks act on. The invariant `Inv` has two
  parts. First, every record is well formed: it has a timer and a start time
  exactly while it is active. Second, the live timers and open windows are
  exactly the ones the records hold, and each points back to its own path.
- `Popup` (`popup_app.dfy`) holds the class `PopupApp`. It holds `calls`, as
  the Python object does. It also holds two id counters and an effect log,
  which stand in for the GTK and GLib ids and calls. The Python object's bus
  connection is not modelled. The methods update these fields in place, in
  the handlers' order. Each method is proved to leave the object as the
  `Registry` function of the same name says. The bus handlers require and keep `Valid()`. The helpers keep it
  whenever it held on entry.

The clock is an integer `now` argument to every handler that may read it.
A record's state has the type `CallState`, which has two values, `Incoming` and
`Active`. So "every record is incoming or active" holds by typing.
Timer ids start at 1, because GLib source ids are positive. So the source's
truthiness test `if call["timer_id"]` is `timerId.Some?`.

The model follows these behaviours of the code:

- A repeated "active" restarts the call's `start_time`, not only its timer.
  The displayed time therefore restarts from zero.
- A call first seen in any state other than "incoming" is ignored.
- A `Call1` entry with an empty property dictionary is also ignored.
- The `_show_window` branch for an initial "active" state is modelled, although
  its only caller passes "incoming".
- Elapsed time is clamped at zero by the window's label, not by the tick. The
  tick reports `now - start_time` unchanged.
- A record's state is never "ended". Closing a call removes the record.

## Model

| member | source | states |
|---|---|---|
| TimerLabel.Clamp | gtk_popup.py:74 | a negative count becomes 0; any other count is kept |
| TimerLabel.Split | gtk_popup.py:74 | minutes and seconds satisfy `mins*60 + secs == max(seconds, 0)` with `secs < 60` |
| TimerLabel.SplitUnique | gtk_popup.py:74 | that split is the only one with `secs < 60` |
| TimerLabel.Decimal | gtk_popup.py:75 | the decimal text of `n` is non-empty, all digits, and has no leading zero unless it is "0" |
| TimerLabel.DecimalValue | gtk_popup.py:75 | the decimal text reads back as `n` |
| TimerLabel.DecimalLength | gtk_popup.py:75 | the decimal text has one digit exactly below 10 and two exactly from 10 to 99 |
| TimerLabel.Pad2 | gtk_popup.py:75 | `{n:02d}` gives decimal digits: exactly two below 10, and otherwise exactly as many as the unpadded decimal text |
| TimerLabel.Pad2Value | gtk_popup.py:75 | the padded digits read back as `n` |
| TimerLabel.Label | gtk_popup.py:73-75 | the label is at least five characters long; what it says is stated by its partners `ParseLabelRoundTrip` and `LabelWidth` |
| TimerLabel.ParseLabelRoundTrip | gtk_popup.py:73-75 | parsing the label gives back the minutes and seconds of the clamped count |
| TimerLabel.LabelInjective | gtk_popup.py:73-75 | two counts with the same label have the same clamped value |
| TimerLabel.LabelWidth | gtk_popup.py:75 | the label is the padded minutes, then a colon, then two second digits: its length is that of the padded minutes plus three, and the colon is third from the end; it is exactly five characters iff the clamped count is under 100 minutes; after that the minutes widen |
| TimerLabel.LabelExamples | gtk_popup.py:73-75 | 0 and -7 give "00:00", 65 gives "01:05", 6000 gives "100:00" |
| Registry.CallerText | gtk_popup.py:169 | an empty caller id is stored as "Unknown"; any other is kept; the result is never empty |
| Registry.CancelOf | gtk_popup.py:190-191 | at most one effect, empty exactly when the record has no timer, and otherwise the cancellation of that timer |
| Registry.ResourcesCancel | gtk_popup.py:190-191 | cancelling removes the record's timer, and only it, from the live timers; the open windows are unchanged |
| Registry.Empty | gtk_popup.py:79-81 | the registry starts empty and satisfies the invariant |
| Registry.UpdateTimer | gtk_popup.py:199-206 | returns True iff the path is tracked, active and has a start time; then it reports `now - start_time` to that call's window; otherwise nothing changes; the invariant is kept |
| Registry.MarkActive | gtk_popup.py:181-197 | for a tracked path: state becomes active, start time becomes `now`, and a fresh timer replaces the old one after the old one is cancelled; elapsed 0 is reported; no other record changes; an untracked path changes nothing |
| Registry.MarkActiveResources | gtk_popup.py:190-196 | marking active removes the call's old timer, if any, from the live timers, adds the fresh one for the call's path, and leaves the open windows as they were |
| Registry.MarkActiveConsistent | gtk_popup.py:181-197 | marking active keeps the registry consistent and leaves the activated record well formed, even from the half-built record of `_show_window` |
| Registry.MarkActiveInv | gtk_popup.py:181-197 | marking active preserves the registry invariant |
| Registry.CloseCall | gtk_popup.py:208-219 | removes the path's record; if the record had a timer, cancels it; destroys its window; an untracked path changes nothing |
| Registry.CloseCallInv | gtk_popup.py:208-219 | closing preserves the registry invariant |
| Registry.CloseCallTwice | gtk_popup.py:208-211 | a second close of the same path, such as the window's re-entrant destroy handler, changes nothing |
| Registry.ClosedCallReleased | gtk_popup.py:208-219 | after closing, the path has no live timer and no open window |
| Registry.ShowWindow | gtk_popup.py:154-179 | a tracked path gets one present effect and nothing else; a new path gets a record with a fresh window and the normalised caller id; an "active" one is the half-built record passed through `MarkActive`; an "incoming" record has no start time or timer and its window shows incoming; no other record changes |
| Registry.ShowWindowInv | gtk_popup.py:154-179 | showing a window preserves the registry invariant |
| Registry.Get | gtk_popup.py:121-122 | a call property is its entry when present, otherwise the given fallback: "" for State, "Unknown" for LineIdentification |
| Registry.OnInterfacesAdded | gtk_popup.py:115-126 | a missing or empty Call1 entry, or a state other than "incoming", changes nothing; an incoming call on a new path gets exactly one incoming record whose caller is LineIdentification, or "Unknown" if that is missing or empty; an already tracked path is only presented; the invariant is kept |
| Registry.OnInterfacesRemoved | gtk_popup.py:128-133 | losing Call1 closes the call; any other removal, or an untracked path, changes nothing; the invariant is kept |
| Registry.OnPropertiesChanged | gtk_popup.py:135-151 | changes nothing in these cases: another interface, a missing or empty State, a missing or empty path, a state other than "active" or "disconnected", or an untracked path; "active" marks the call active; "disconnected" closes it; only the named path's record can change; the invariant is kept |
| Registry.AnswerCall | gtk_popup.py:226-232 | requests Answer from the bus and leaves the registry unchanged |
| Registry.HangupCall | gtk_popup.py:234-240 | requests Hangup from the bus and leaves the registry unchanged |
| Registry.OneTimerPerActiveCall | gtk_popup.py:186-196 | under the invariant, an active call has exactly one live timer, the one its record holds; any other path has none |
| Registry.OneWindowPerCall | gtk_popup.py:159-174 | under the invariant, a tracked call has exactly one open window; an untracked path has none |
| Registry.LiveTimerKeepsTicking | gtk_popup.py:193-206 | under the invariant, a live timer's tick always finds its call active, so the tick returns True |
| Registry.ReactivationKeepsOneTimer | gtk_popup.py:186-196 | after "active" twice, the call has one live timer, the newer one, and the later start time |
| Registry.CallLifecycle | gtk_popup.py:115-151 | example: incoming from Alice, active at 0, a tick at 65 reports 65, then removal leaves no record, timer or window |
| Popup.PopupApp.constructor | gtk_popup.py:79-81 | a new app has an empty registry and is valid |
| Popup.PopupApp.OnInterfacesAdded | gtk_popup.py:115-126 | updates the object in place as `Registry.OnInterfacesAdded` and keeps it valid |
| Popup.PopupApp.OnInterfacesRemoved | gtk_popup.py:128-133 | updates the object in place as `Registry.OnInterfacesRemoved` and keeps it valid |
| Popup.PopupApp.OnPropertiesChanged | gtk_popup.py:135-151 | updates the object in place as `Registry.OnPropertiesChanged` and keeps it valid |
| Popup.PopupApp.ShowWindow | gtk_popup.py:154-179 | updates the object in place as `Registry.ShowWindow` |
| Popup.PopupApp.MarkActive | gtk_popup.py:181-197 | updates the record in place, then the timer id, as `Registry.MarkActive` |
| Popup.PopupApp.UpdateTimer | gtk_popup.py:199-206 | changes only the effect log; its result and new state are those of `Registry.UpdateTimer` |
| Popup.PopupApp.CloseCall | gtk_popup.py:208-219 | pops the record, cancels its timer, destroys the window and runs the destroy handler's re-entrant close, as `Registry.CloseCall` |
| Popup.PopupApp.AnswerCall | gtk_popup.py:226-232 | only logs the Answer request |
| Popup.PopupApp.HangupCall | gtk_popup.py:234-240 | only logs the Hangup request |

## Left out

- Subscription to the three bus signals, and the exit with status 1 when it fails (gtk_popup.py:85-112). These are wiring to a foreign library. The handlers are the model's entry points.
- Building the GTK window: its labels, buttons, button sensitivity and texts (gtk_popup.py:26-71). These appear only as the effects `OpenWindow`, `ShowIncoming`, `ShowActive` and `Present`. The "delete-event" handler that keeps the window open when the user closes it changes no registry state and is not modelled.
- `time.monotonic()` floats and the `int()` truncation of the elapsed time (gtk_popup.py:187, 204). The clock is an integer `now` argument.
- The exception swallowed around `window.destroy()` (gtk_popup.py:215-218). Destroy is an effect that always succeeds.
- The remote `Answer`/`Hangup` calls and their swallowed exceptions (gtk_popup.py:222-240). They are only logged as requests, because the registry never changes on them.
- GLib's removal of a timer whose callback returns False does not appear in the log. `LiveTimerKeepsTicking` proves that a live timer never returns False, so this removal cannot happen to one.
- The main loop, `Gtk.main`, KeyboardInterrupt handling and `log`/`traceback` output (gtk_popup.py:19-20, 243-250). These are I/O.
- D-Bus variant payloads are modelled as string-to-string dictionaries. A non-string `State` or `LineIdentification` is not modelled.
- The `invalidated` argument of the property handler is accepted and ignored, as in the source.
