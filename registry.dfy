/**
  The call registry of the popup (`PopupApp.calls`) as values.

  The registry maps a call's object path to its record. The GTK window, the
  GLib timer and the clock are replaced by a log of effects the registry asks
  its collaborators for and by a `now` parameter. A `World` is the registry
  together with that log and the counters that hand out fresh window and
  timer ids; each handler of the popup is a function from the world before
  the notification to the world after it. The class `Popup.PopupApp` runs
  the same handlers in place and is proved equal to these functions.

  `Inv` is the registry invariant: every record is well formed (a timer and a
  start time exactly while the call is active), and the timers and windows
  left live by the log are exactly those the records hold, each pointing back
  to its own record's path.
*/
module Registry {
  import opened Wrappers

  /** The D-Bus interface name of a telephony call object. */
  const CALL1 := "org.pipewire.Telephony.Call1"

  datatype CallState = Incoming | Active

  /** One entry of `self.calls`. */
  datatype CallRec = CallRec(
    callerId: string,
    state: CallState,
    startTime: Option<int>,
    timerId: Option<nat>,
    window: nat)

  type Calls = map<string, CallRec>

  /** What the registry asks of the window toolkit, the timer source and the bus. */
  datatype Effect =
    | OpenWindow(window: nat, path: string, callerText: string)  // create and show a call window
    | Present(window: nat)
    | ShowIncoming(window: nat)
    | ShowActive(window: nat)
    | DestroyWindow(window: nat)
    | StartTimer(timer: nat, path: string)                       // a one-second repeating tick for `path`
    | CancelTimer(timer: nat)                                    // remove a timer source
    | ShowElapsed(window: nat, seconds: int)                     // write the elapsed time into a window
    | RequestAnswer(path: string)
    | RequestHangup(path: string)

  datatype World = World(calls: Calls, nextTimer: nat, nextWindow: nat, log: seq<Effect>)

  // ---------------------------------------------------------------------
  // What a log leaves running

  /** Live timers and open windows, each with the call path its callbacks act on. */
  datatype Live = Live(timers: map<nat, string>, windows: map<nat, string>)

  function Step(r: Live, e: Effect): Live {
    match e
    case OpenWindow(win, path, _) => r.(windows := r.windows[win := path])
    case DestroyWindow(win) => r.(windows := r.windows - {win})
    case StartTimer(t, path) => r.(timers := r.timers[t := path])
    case CancelTimer(t) => r.(timers := r.timers - {t})
    case _ => r
  }

  /** The timers started and not cancelled, and the windows opened and not destroyed, by a log. */
  function Resources(log: seq<Effect>): Live {
    if log == [] then Live(map[], map[])
    else Step(Resources(log[..|log| - 1]), log[|log| - 1])
  }

  lemma ResourcesSnoc(log: seq<Effect>, e: Effect)
    ensures Resources(log + [e]) == Step(Resources(log), e)
  {
    assert (log + [e])[..|log|] == log;
  }

  /** The effects that stop a record's timer: one cancellation when it has a timer, none otherwise. */
  function CancelOf(c: CallRec): (es: seq<Effect>)
    ensures |es| <= 1
    ensures es == [] <==> c.timerId.None?
    ensures forall e :: e in es ==> e == CancelTimer(c.timerId.value)
  {
    if c.timerId.Some? then [CancelTimer(c.timerId.value)] else []
  }

  /** Cancelling a record's timer removes exactly that timer from the live ones and no window. */
  lemma ResourcesCancel(log: seq<Effect>, c: CallRec)
    ensures Resources(log + CancelOf(c)).windows == Resources(log).windows
    ensures Resources(log + CancelOf(c)).timers ==
      if c.timerId.Some? then Resources(log).timers - {c.timerId.value} else Resources(log).timers
  {
    if c.timerId.Some? {
      ResourcesSnoc(log, CancelTimer(c.timerId.value));
    } else {
      assert log + CancelOf(c) == log;
    }
  }

  // ---------------------------------------------------------------------
  // The invariant

  /** The caller shown and stored for a call: its caller id, or "Unknown" when that is empty. */
  function CallerText(callerId: string): (s: string)
    ensures s != ""
    ensures callerId != "" ==> s == callerId
    ensures callerId == "" ==> s == "Unknown"
  {
    if callerId == "" then "Unknown" else callerId
  }

  /** A timer and a start time exactly while the call is active. */
  ghost predicate WellFormed(c: CallRec) {
    && (c.state == Active <==> c.timerId.Some?)
    && (c.state == Active <==> c.startTime.Some?)
  }

  /** The live timers and open windows are exactly those the records hold. */
  ghost predicate Tracks(calls: Calls, live: Live) {
    && (forall t :: t in live.timers ==> live.timers[t] in calls && calls[live.timers[t]].timerId == Some(t))
    && (forall p :: p in calls && calls[p].timerId.Some? ==>
          calls[p].timerId.value in live.timers && live.timers[calls[p].timerId.value] == p)
    && (forall win :: win in live.windows ==> live.windows[win] in calls && calls[live.windows[win]].window == win)
    && (forall p :: p in calls ==> calls[p].window in live.windows && live.windows[calls[p].window] == p)
  }

  /** Everything in `Inv` except that records be well formed. */
  ghost predicate Consistent(w: World) {
    && (forall p :: p in w.calls ==> w.calls[p].callerId != "" && w.calls[p].window < w.nextWindow)
    && (forall p :: p in w.calls && w.calls[p].timerId.Some? ==> w.calls[p].timerId.value < w.nextTimer)
    && Tracks(w.calls, Resources(w.log))
  }

  ghost predicate Inv(w: World) {
    Consistent(w) && forall p :: p in w.calls ==> WellFormed(w.calls[p])
  }

  /** Every record other than the one at `path` is as it was. */
  ghost predicate OthersUnchanged(a: Calls, b: Calls, path: string) {
    forall p :: p != path ==> (p in a <==> p in b) && (p in a ==> a[p] == b[p])
  }

  /** A consistent world whose one changed record is well formed keeps the invariant. */
  lemma InvAfterChange(w: World, r: World, path: string)
    requires Inv(w) && Consistent(r) && OthersUnchanged(w.calls, r.calls, path)
    requires path in r.calls ==> WellFormed(r.calls[path])
    ensures Inv(r)
  {
  }

  /** A new record without a timer, whose window has just opened, keeps the tracking exact. */
  lemma TracksInsert(calls: Calls, live: Live, path: string, rec: CallRec)
    requires Tracks(calls, live) && path !in calls
    requires rec.timerId.None? && rec.window !in live.windows
    ensures Tracks(calls[path := rec], live.(windows := live.windows[rec.window := path]))
  {
  }

  /** Activating a record: its old timer (if any) is cancelled and a fresh one is started for it. */
  lemma TracksActivate(calls: Calls, live: Live, path: string, t: nat, c': CallRec)
    requires Tracks(calls, live) && path in calls && t !in live.timers
    requires c'.window == calls[path].window && c'.timerId == Some(t)
    ensures
      var prev := calls[path].timerId;
      var timers := if prev.Some? then live.timers - {prev.value} else live.timers;
      Tracks(calls[path := c'], live.(timers := timers[t := path]))
  {
  }

  /** Removing a record together with its timer and window keeps the tracking exact. */
  lemma TracksRemove(calls: Calls, live: Live, path: string)
    requires Tracks(calls, live) && path in calls
    ensures
      var c := calls[path];
      var timers := if c.timerId.Some? then live.timers - {c.timerId.value} else live.timers;
      Tracks(calls - {path}, Live(timers, live.windows - {c.window}))
  {
  }

  /** A log entry that neither starts nor stops a timer or a window leaves the invariant intact. */
  lemma NeutralEffect(w: World, e: Effect)
    requires e.Present? || e.ShowIncoming? || e.ShowActive? || e.ShowElapsed? || e.RequestAnswer? || e.RequestHangup?
    ensures Resources(w.log + [e]) == Resources(w.log)
    ensures Consistent(w) ==> Consistent(w.(log := w.log + [e]))
    ensures Inv(w) ==> Inv(w.(log := w.log + [e]))
  {
    ResourcesSnoc(w.log, e);
  }

  /** The registry at start-up: no calls, nothing live. */
  function Empty(): (w: World)
    ensures Inv(w) && w.calls == map[]
  {
    World(map[], 1, 0, [])
  }

  // ---------------------------------------------------------------------
  // Helpers of PopupApp

  /** `_update_timer`: report the elapsed time of an active call; the result says whether to keep ticking. */
  function UpdateTimer(w: World, path: string, now: int): (r: (World, bool))
    ensures r.1 <==> path in w.calls && w.calls[path].state == Active && w.calls[path].startTime.Some?
    ensures r.0.calls == w.calls && r.0.nextTimer == w.nextTimer && r.0.nextWindow == w.nextWindow
    ensures r.1 ==> r.0.log == w.log + [ShowElapsed(w.calls[path].window, now - w.calls[path].startTime.value)]
    ensures !r.1 ==> r.0 == w
    ensures Inv(w) ==> Inv(r.0)
  {
    if path !in w.calls || w.calls[path].state != Active || w.calls[path].startTime.None? then
      (w, false)
    else
      var c := w.calls[path];
      NeutralEffect(w, ShowElapsed(c.window, now - c.startTime.value));
      (w.(log := w.log + [ShowElapsed(c.window, now - c.startTime.value)]), true)
  }

  /** `_mark_active`: a tracked call becomes active at `now` with one fresh timer replacing any old one. */
  function MarkActive(w: World, path: string, now: int): (r: World)
    ensures path !in w.calls ==> r == w
    ensures r.calls.Keys == w.calls.Keys && OthersUnchanged(w.calls, r.calls, path)
    ensures r.nextWindow == w.nextWindow
    ensures path in w.calls ==>
      var c, c' := w.calls[path], r.calls[path];
      && c' == c.(state := Active, startTime := Some(now), timerId := Some(w.nextTimer))
      && r.nextTimer == w.nextTimer + 1
      && r.log == w.log + [ShowActive(c.window)] + CancelOf(c) + [StartTimer(w.nextTimer, path), ShowElapsed(c.window, 0)]
  {
    if path !in w.calls then w
    else
      var c := w.calls[path];
      var t := w.nextTimer;
      var c' := c.(state := Active, startTime := Some(now), timerId := Some(t));
      var w1 := World(w.calls[path := c'], t + 1, w.nextWindow,
                      w.log + [ShowActive(c.window)] + CancelOf(c) + [StartTimer(t, path)]);
      UpdateTimer(w1, path, now).0
  }

  /** Marking active cancels the call's old timer (if any), starts the fresh one for it, and touches no window. */
  lemma MarkActiveResources(w: World, path: string, now: int)
    requires path in w.calls
    ensures
      var c, live := w.calls[path], Resources(w.log);
      var timers := if c.timerId.Some? then live.timers - {c.timerId.value} else live.timers;
      Resources(MarkActive(w, path, now).log) == live.(timers := timers[w.nextTimer := path])
  {
    var c := w.calls[path];
    var t := w.nextTimer;
    var log1 := w.log + [ShowActive(c.window)];
    var log2 := log1 + CancelOf(c);
    var log3 := log2 + [StartTimer(t, path)];
    ResourcesSnoc(w.log, ShowActive(c.window));
    ResourcesCancel(log1, c);
    ResourcesSnoc(log2, StartTimer(t, path));
    ResourcesSnoc(log3, ShowElapsed(c.window, 0));
    assert MarkActive(w, path, now).log == log3 + [ShowElapsed(c.window, 0)];
  }

  /** A world that holds a record activated with the fresh timer `w.nextTimer`, and what that leaves live, is consistent. */
  lemma ActivatedConsistent(w: World, r: World, path: string, c': CallRec)
    requires Consistent(w) && path in w.calls
    requires c' == w.calls[path].(state := Active, startTime := c'.startTime, timerId := Some(w.nextTimer))
    requires c'.startTime.Some?
    requires r.calls == w.calls[path := c'] && r.nextTimer == w.nextTimer + 1 && r.nextWindow == w.nextWindow
    requires
      var c, live := w.calls[path], Resources(w.log);
      var timers := if c.timerId.Some? then live.timers - {c.timerId.value} else live.timers;
      Resources(r.log) == live.(timers := timers[w.nextTimer := path])
    ensures Consistent(r) && WellFormed(r.calls[path])
  {
    var live := Resources(w.log);
    assert w.nextTimer !in live.timers;
    TracksActivate(w.calls, live, path, w.nextTimer, c');
  }

  /** Marking a tracked call active replaces its record and no other. */
  lemma MarkActiveCalls(w: World, path: string, now: int)
    requires path in w.calls
    ensures MarkActive(w, path, now).calls ==
      w.calls[path := w.calls[path].(state := Active, startTime := Some(now), timerId := Some(w.nextTimer))]
  {
  }

  /** `_mark_active` keeps the registry consistent and leaves the call it activates well formed. */
  lemma MarkActiveConsistent(w: World, path: string, now: int)
    ensures Consistent(w) ==>
      var r := MarkActive(w, path, now);
      Consistent(r) && (path in r.calls ==> WellFormed(r.calls[path]))
  {
    if Consistent(w) && path in w.calls {
      var c' := w.calls[path].(state := Active, startTime := Some(now), timerId := Some(w.nextTimer));
      var r := MarkActive(w, path, now);
      MarkActiveResources(w, path, now);
      assert r.calls == w.calls[path := c'];
      ActivatedConsistent(w, r, path, c');
    }
  }

  lemma MarkActiveInv(w: World, path: string, now: int)
    ensures Inv(w) ==> Inv(MarkActive(w, path, now))
  {
    MarkActiveConsistent(w, path, now);
  }

  /** `_close_call`: forget a tracked call, cancelling its timer and destroying its window. */
  function CloseCall(w: World, path: string): (r: World)
    ensures path !in w.calls ==> r == w
    ensures r.calls == w.calls - {path}
    ensures r.nextTimer == w.nextTimer && r.nextWindow == w.nextWindow
    ensures path in w.calls ==>
      r.log == w.log + CancelOf(w.calls[path]) + [DestroyWindow(w.calls[path].window)]
  {
    if path !in w.calls then w
    else
      var c := w.calls[path];
      World(w.calls - {path}, w.nextTimer, w.nextWindow, w.log + CancelOf(c) + [DestroyWindow(c.window)])
  }

  lemma CloseCallInv(w: World, path: string)
    ensures Inv(w) ==> Inv(CloseCall(w, path))
  {
    if Inv(w) && path in w.calls {
      var c := w.calls[path];
      var log1 := w.log + CancelOf(c);
      ResourcesCancel(w.log, c);
      ResourcesSnoc(log1, DestroyWindow(c.window));
      TracksRemove(w.calls, Resources(w.log), path);
    }
  }

  /** `_show_window`: present an already tracked call's window, or open a window and record a new call. */
  function ShowWindow(w: World, path: string, callerId: string, initial: CallState, now: int): (r: World)
    ensures path in w.calls ==> r == w.(log := w.log + [Present(w.calls[path].window)])
    ensures path !in w.calls ==>
      && r.calls.Keys == w.calls.Keys + {path}
      && r.calls[path].callerId == CallerText(callerId)
      && r.calls[path].window == w.nextWindow
      && r.calls[path].state == initial
      && r.nextWindow == w.nextWindow + 1
    ensures path !in w.calls && initial == Active ==>
      var rec := CallRec(CallerText(callerId), Active, None, None, w.nextWindow);
      r == MarkActive(World(w.calls[path := rec], w.nextTimer, w.nextWindow + 1,
                            w.log + [OpenWindow(w.nextWindow, path, CallerText(callerId))]), path, now)
    ensures path !in w.calls && initial == Incoming ==>
      && r.calls[path] == CallRec(CallerText(callerId), Incoming, None, None, w.nextWindow)
      && r.nextTimer == w.nextTimer
      && r.log == w.log + [OpenWindow(w.nextWindow, path, CallerText(callerId)), ShowIncoming(w.nextWindow)]
    ensures OthersUnchanged(w.calls, r.calls, path)
  {
    if path in w.calls then
      w.(log := w.log + [Present(w.calls[path].window)])
    else
      var win := w.nextWindow;
      var rec := CallRec(CallerText(callerId), initial, None, None, win);
      var w1 := World(w.calls[path := rec], w.nextTimer, win + 1,
                      w.log + [OpenWindow(win, path, CallerText(callerId))]);
      if initial == Active then MarkActive(w1, path, now)
      else w1.(log := w1.log + [ShowIncoming(win)])
  }

  /** Recording a new call without a timer, in a freshly opened window, keeps the registry consistent. */
  lemma OpenConsistent(w: World, path: string, rec: CallRec)
    requires Consistent(w) && path !in w.calls
    requires rec.timerId.None? && rec.window == w.nextWindow && rec.callerId != ""
    ensures Consistent(World(w.calls[path := rec], w.nextTimer, w.nextWindow + 1,
                             w.log + [OpenWindow(w.nextWindow, path, rec.callerId)]))
  {
    ResourcesSnoc(w.log, OpenWindow(w.nextWindow, path, rec.callerId));
    assert w.nextWindow !in Resources(w.log).windows;
    TracksInsert(w.calls, Resources(w.log), path, rec);
  }

  lemma ShowWindowInv(w: World, path: string, callerId: string, initial: CallState, now: int)
    ensures Inv(w) ==> Inv(ShowWindow(w, path, callerId, initial, now))
  {
    if Inv(w) {
      if path in w.calls {
        NeutralEffect(w, Present(w.calls[path].window));
      } else {
        var win := w.nextWindow;
        var rec := CallRec(CallerText(callerId), initial, None, None, win);
        var w1 := World(w.calls[path := rec], w.nextTimer, win + 1,
                        w.log + [OpenWindow(win, path, CallerText(callerId))]);
        OpenConsistent(w, path, rec);
        var r := ShowWindow(w, path, callerId, initial, now);
        if initial == Active {
          MarkActiveConsistent(w1, path, now);
          assert r == MarkActive(w1, path, now);
        } else {
          NeutralEffect(w1, ShowIncoming(win));
          assert r == w1.(log := w1.log + [ShowIncoming(win)]);
        }
        InvAfterChange(w, r, path);
      }
    }
  }

  // ---------------------------------------------------------------------
  // Notifications from the bus

  /** A property of a call by name, or `fallback` when the call does not carry it. */
  function Get(props: map<string, string>, key: string, fallback: string): (s: string)
    ensures key in props ==> s == props[key]
    ensures key !in props ==> s == fallback
  {
    if key in props then props[key] else fallback
  }

  /** `on_interfaces_added`: a call object appeared on the bus. */
  function OnInterfacesAdded(w: World, path: string, interfaces: map<string, map<string, string>>, now: int): (r: World)
    ensures CALL1 !in interfaces || interfaces[CALL1] == map[] || Get(interfaces[CALL1], "State", "") != "incoming" ==> r == w
    ensures CALL1 in interfaces && Get(interfaces[CALL1], "State", "") == "incoming" && path in w.calls ==>
      r == w.(log := w.log + [Present(w.calls[path].window)])
    ensures CALL1 in interfaces && Get(interfaces[CALL1], "State", "") == "incoming" && path !in w.calls ==>
      var props := interfaces[CALL1];
      var caller := if "LineIdentification" in props && props["LineIdentification"] != ""
                    then props["LineIdentification"] else "Unknown";
      && r.calls == w.calls[path := CallRec(caller, Incoming, None, None, w.nextWindow)]
      && r.nextTimer == w.nextTimer && r.nextWindow == w.nextWindow + 1
      && r.log == w.log + [OpenWindow(w.nextWindow, path, caller), ShowIncoming(w.nextWindow)]
    ensures Inv(w) ==> Inv(r)
  {
    if CALL1 !in interfaces || interfaces[CALL1] == map[] then w
    else
      var props := interfaces[CALL1];
      if Get(props, "State", "") == "incoming" then
        ShowWindowInv(w, path, Get(props, "LineIdentification", "Unknown"), Incoming, now);
        ShowWindow(w, path, Get(props, "LineIdentification", "Unknown"), Incoming, now)
      else w
  }

  /** `on_interfaces_removed`: interfaces of an object went away; losing Call1 ends the call. */
  function OnInterfacesRemoved(w: World, path: string, interfaces: seq<string>): (r: World)
    ensures CALL1 !in interfaces || path !in w.calls ==> r == w
    ensures CALL1 in interfaces ==> r == CloseCall(w, path)
    ensures r.calls == if CALL1 in interfaces then w.calls - {path} else w.calls
    ensures Inv(w) ==> Inv(r)
  {
    if CALL1 !in interfaces then w
    else
      CloseCallInv(w, path);
      CloseCall(w, path)
  }

  /** `on_properties_changed`: a property of some object changed; a call's State drives the registry. */
  function OnPropertiesChanged(w: World, iface: string, changed: map<string, string>, path: Option<string>, now: int): (r: World)
    ensures iface != CALL1 || "State" !in changed || changed["State"] == "" || path.None? || path.value == "" ==> r == w
    ensures path.Some? && path.value !in w.calls ==> r == w
    ensures "State" in changed && changed["State"] != "active" && changed["State"] != "disconnected" ==> r == w
    ensures iface == CALL1 && "State" in changed && changed["State"] == "active" && path.Some? && path.value != "" ==>
      r == MarkActive(w, path.value, now)
    ensures iface == CALL1 && "State" in changed && changed["State"] == "disconnected" && path.Some? && path.value != "" ==>
      r == CloseCall(w, path.value)
    ensures path.Some? ==> OthersUnchanged(w.calls, r.calls, path.value)
    ensures path.None? ==> r.calls == w.calls
    ensures Inv(w) ==> Inv(r)
  {
    if iface != CALL1 then w
    else if "State" !in changed || changed["State"] == "" then w
    else if path.None? || path.value == "" then w
    else
      var state := changed["State"];
      if state == "active" then
        MarkActiveInv(w, path.value, now);
        MarkActive(w, path.value, now)
      else if state == "disconnected" then
        CloseCallInv(w, path.value);
        CloseCall(w, path.value)
      else w
  }

  /** `answer_call`: ask the call object on the bus to answer; the registry waits for the bus to report it. */
  function AnswerCall(w: World, path: string): (r: World)
    ensures r.calls == w.calls && r.log == w.log + [RequestAnswer(path)]
    ensures Inv(w) ==> Inv(r)
  {
    NeutralEffect(w, RequestAnswer(path));
    w.(log := w.log + [RequestAnswer(path)])
  }

  /** `hangup_call`: ask the call object on the bus to hang up; the call ends when the bus says so. */
  function HangupCall(w: World, path: string): (r: World)
    ensures r.calls == w.calls && r.log == w.log + [RequestHangup(path)]
    ensures Inv(w) ==> Inv(r)
  {
    NeutralEffect(w, RequestHangup(path));
    w.(log := w.log + [RequestHangup(path)])
  }

  // ---------------------------------------------------------------------
  // Properties of the registry

  /** The live timers whose callbacks act on `p`. */
  ghost function TimersOf(w: World, p: string): set<nat> {
    var live := Resources(w.log).timers;
    set t | t in live && live[t] == p
  }

  /** The open windows belonging to `p`. */
  ghost function WindowsOf(w: World, p: string): set<nat> {
    var live := Resources(w.log).windows;
    set win | win in live && live[win] == p
  }

  /** Each active call has exactly one live timer, and no other path has any. */
  lemma OneTimerPerActiveCall(w: World, p: string)
    requires Inv(w)
    ensures TimersOf(w, p) == if p in w.calls && w.calls[p].state == Active then {w.calls[p].timerId.value} else {}
  {
  }

  /** Each tracked call has exactly one open window, and no other path has any. */
  lemma OneWindowPerCall(w: World, p: string)
    requires Inv(w)
    ensures WindowsOf(w, p) == if p in w.calls then {w.calls[p].window} else {}
  {
  }

  /**
    A tick of a live timer (`_update_timer` for the path the timer was started
    for) always finds its call active, so a live timer never stops itself; a
    tick for a path no longer tracked changes nothing and asks to stop.
  */
  lemma LiveTimerKeepsTicking(w: World, t: nat, now: int)
    requires Inv(w) && t in Resources(w.log).timers
    ensures UpdateTimer(w, Resources(w.log).timers[t], now).1
  {
  }

  /** The destroy handler's re-entrant `_close_call` finds nothing left to do. */
  lemma CloseCallTwice(w: World, path: string)
    ensures CloseCall(CloseCall(w, path), path) == CloseCall(w, path)
  {
  }

  /** After `_close_call` the path has no live timer and no open window left. */
  lemma ClosedCallReleased(w: World, path: string)
    requires Inv(w)
    ensures TimersOf(CloseCall(w, path), path) == {} && WindowsOf(CloseCall(w, path), path) == {}
  {
    CloseCallInv(w, path);
    OneTimerPerActiveCall(CloseCall(w, path), path);
    OneWindowPerCall(CloseCall(w, path), path);
  }

  /** An "active" reported twice still leaves the call one live timer, the newer one. */
  lemma ReactivationKeepsOneTimer(w: World, path: string, t1: int, t2: int)
    requires Inv(w) && path in w.calls
    ensures
      var w2 := MarkActive(MarkActive(w, path, t1), path, t2);
      && TimersOf(w2, path) == {w.nextTimer + 1}
      && w2.calls[path].startTime == Some(t2)
  {
    var w1 := MarkActive(w, path, t1);
    assert w1.nextTimer == w.nextTimer + 1 && path in w1.calls;
    MarkActiveInv(w, path, t1);
    var w2 := MarkActive(w1, path, t2);
    assert w2.calls[path].state == Active && w2.calls[path].timerId == Some(w.nextTimer + 1);
    MarkActiveInv(w1, path, t2);
    OneTimerPerActiveCall(w2, path);
  }

  /** The first stage of `CallLifecycle`: "/c1" rings for Alice. */
  lemma AliceRings()
    ensures
      var props := map["State" := "incoming", "LineIdentification" := "Alice"];
      var w1 := OnInterfacesAdded(Empty(), "/c1", map[CALL1 := props], 0);
      w1.calls == map["/c1" := CallRec("Alice", Incoming, None, None, 0)] && w1.nextTimer == 1 && Inv(w1)
  {
    var props := map["State" := "incoming", "LineIdentification" := "Alice"];
    assert Get(props, "State", "") == "incoming" && Get(props, "LineIdentification", "Unknown") == "Alice";
  }

  /** The second stage of `CallLifecycle`: the ringing call is answered at time 0. */
  lemma AliceAnswered(w1: World)
    requires w1.calls == map["/c1" := CallRec("Alice", Incoming, None, None, 0)] && w1.nextTimer == 1 && Inv(w1)
    ensures
      var w2 := OnPropertiesChanged(w1, CALL1, map["State" := "active"], Some("/c1"), 0);
      w2.calls == map["/c1" := CallRec("Alice", Active, Some(0), Some(1), 0)] && Inv(w2)
  {
    var w2 := OnPropertiesChanged(w1, CALL1, map["State" := "active"], Some("/c1"), 0);
    assert w2 == MarkActive(w1, "/c1", 0);
    MarkActiveInv(w1, "/c1", 0);
    MarkActiveCalls(w1, "/c1", 0);
  }

  /** The third stage of `CallLifecycle`: a tick at time 65 reports 65 seconds and keeps the timer. */
  lemma AliceTicks(w2: World)
    requires w2.calls == map["/c1" := CallRec("Alice", Active, Some(0), Some(1), 0)] && Inv(w2)
    ensures
      var (w3, keep) := UpdateTimer(w2, "/c1", 65);
      keep && w3.log[|w3.log| - 1] == ShowElapsed(0, 65) && w3.calls == w2.calls && Inv(w3)
  {
  }

  /** The last stage of `CallLifecycle`: the call object goes away and the call leaves nothing behind. */
  lemma AliceHangsUp(w3: World)
    requires w3.calls.Keys == {"/c1"} && Inv(w3)
    ensures
      var w4 := OnInterfacesRemoved(w3, "/c1", [CALL1]);
      w4.calls == map[] && TimersOf(w4, "/c1") == {} && WindowsOf(w4, "/c1") == {}
  {
    ClosedCallReleased(w3, "/c1");
    assert OnInterfacesRemoved(w3, "/c1", [CALL1]) == CloseCall(w3, "/c1");
  }

  /**
    A whole call: it rings from "/c1" for Alice, is answered at time 0, the
    timer reports 65 seconds at time 65, and the call object goes away, leaving
    no record, no live timer and no open window.
  */
  lemma CallLifecycle()
    ensures
      var props := map["State" := "incoming", "LineIdentification" := "Alice"];
      var w1 := OnInterfacesAdded(Empty(), "/c1", map[CALL1 := props], 0);
      var w2 := OnPropertiesChanged(w1, CALL1, map["State" := "active"], Some("/c1"), 0);
      var (w3, keep) := UpdateTimer(w2, "/c1", 65);
      var w4 := OnInterfacesRemoved(w3, "/c1", [CALL1]);
      && w1.calls == map["/c1" := CallRec("Alice", Incoming, None, None, 0)]
      && w2.calls == map["/c1" := CallRec("Alice", Active, Some(0), Some(1), 0)]
      && keep && w3.log[|w3.log| - 1] == ShowElapsed(0, 65)
      && w4.calls == map[]
      && TimersOf(w4, "/c1") == {} && WindowsOf(w4, "/c1") == {}
  {
    var props := map["State" := "incoming", "LineIdentification" := "Alice"];
    var w1 := OnInterfacesAdded(Empty(), "/c1", map[CALL1 := props], 0);
    AliceRings();
    var w2 := OnPropertiesChanged(w1, CALL1, map["State" := "active"], Some("/c1"), 0);
    AliceAnswered(w1);
    AliceTicks(w2);
    AliceHangsUp(UpdateTimer(w2, "/c1", 65).0);
  }
}
