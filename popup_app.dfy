/**
  `PopupApp`: the popup's call registry as the object the bus, the timer
  source and the windows call back into. Its fields are the registry
  (`self.calls`), the counters standing in for the fresh ids GTK and GLib
  hand out, and the log of effects requested from them.

  Every method changes the object in place as the handler does and is proved
  to leave it as the function of the same name in `Registry` says, so the
  properties proved there (the invariant, the frame, one timer and one window
  per call) hold of the object. The bus handlers require and keep `Valid()`;
  the helpers keep it whenever it held on entry.
*/
module Popup {
  import opened Wrappers
  import opened Registry

  class PopupApp {
    var calls: Calls
    var nextTimer: nat
    var nextWindow: nat
    var effects: seq<Effect>

    function Snapshot(): World
      reads this
    {
      World(calls, nextTimer, nextWindow, effects)
    }

    ghost predicate Valid()
      reads this
    {
      Inv(Snapshot())
    }

    constructor ()
      ensures Valid() && Snapshot() == Empty()
    {
      calls := map[];
      nextTimer := 1;
      nextWindow := 0;
      effects := [];
    }

    // ------------------------------------------------------------------
    // Signal handlers

    method OnInterfacesAdded(path: string, interfaces: map<string, map<string, string>>, now: int)
      requires Valid()
      modifies this
      ensures Valid()
      ensures Snapshot() == Registry.OnInterfacesAdded(old(Snapshot()), path, interfaces, now)
    {
      if CALL1 !in interfaces || interfaces[CALL1] == map[] {
        return;
      }
      var callProps := interfaces[CALL1];
      var state := if "State" in callProps then callProps["State"] else "";
      var callerId := if "LineIdentification" in callProps then callProps["LineIdentification"] else "Unknown";
      if state == "incoming" {
        ShowWindow(path, callerId, Incoming, now);
      }
    }

    method OnInterfacesRemoved(path: string, interfaces: seq<string>)
      requires Valid()
      modifies this
      ensures Valid()
      ensures Snapshot() == Registry.OnInterfacesRemoved(old(Snapshot()), path, interfaces)
    {
      if CALL1 !in interfaces {
        return;
      }
      CloseCall(path);
    }

    /** `invalidated` is received and ignored, as in the handler. */
    method OnPropertiesChanged(iface: string, changed: map<string, string>, invalidated: seq<string>,
                               path: Option<string>, now: int)
      requires Valid()
      modifies this
      ensures Valid()
      ensures Snapshot() == Registry.OnPropertiesChanged(old(Snapshot()), iface, changed, path, now)
    {
      if iface != CALL1 {
        return;
      }
      if "State" !in changed || changed["State"] == "" {
        return;
      }
      var state := changed["State"];
      if path.None? || path.value == "" {
        return;
      }
      var callPath := path.value;
      if state == "active" {
        MarkActive(callPath, now);
      } else if state == "disconnected" {
        CloseCall(callPath);
      }
    }

    // ------------------------------------------------------------------
    // UI helpers

    method ShowWindow(path: string, callerId: string, initial: CallState, now: int)
      modifies this
      ensures Snapshot() == Registry.ShowWindow(old(Snapshot()), path, callerId, initial, now)
      ensures old(Valid()) ==> Valid()
    {
      ShowWindowInv(Snapshot(), path, callerId, initial, now);
      if path in calls {
        effects := effects + [Present(calls[path].window)];
        return;
      }
      var window := nextWindow;
      nextWindow := nextWindow + 1;
      effects := effects + [OpenWindow(window, path, CallerText(callerId))];
      calls := calls[path := CallRec(CallerText(callerId), initial, None, None, window)];
      if initial == Active {
        MarkActive(path, now);
      } else {
        effects := effects + [ShowIncoming(window)];
      }
    }

    method MarkActive(path: string, now: int)
      modifies this
      ensures Snapshot() == Registry.MarkActive(old(Snapshot()), path, now)
      ensures old(Valid()) ==> Valid()
    {
      MarkActiveInv(Snapshot(), path, now);
      if path !in calls {
        return;
      }
      ghost var w0 := Snapshot();
      var call := calls[path];
      call := call.(state := Active, startTime := Some(now));
      calls := calls[path := call];
      effects := effects + [ShowActive(call.window)];
      if call.timerId.Some? {
        effects := effects + [CancelTimer(call.timerId.value)];
      }
      var timer := nextTimer;
      nextTimer := nextTimer + 1;
      effects := effects + [StartTimer(timer, path)];
      call := call.(timerId := Some(timer));
      calls := calls[path := call];
      assert Snapshot() == World(w0.calls[path := call], w0.nextTimer + 1, w0.nextWindow,
                                 w0.log + [ShowActive(call.window)] + CancelOf(w0.calls[path]) + [StartTimer(timer, path)]);
      var _ := UpdateTimer(path, now);
    }

    /** Also the callback of each one-second timer, with the path the timer was started for. */
    method UpdateTimer(path: string, now: int) returns (keep: bool)
      modifies this`effects
      ensures (Snapshot(), keep) == Registry.UpdateTimer(old(Snapshot()), path, now)
      ensures old(Valid()) ==> Valid()
    {
      if path !in calls || calls[path].state != Active || calls[path].startTime.None? {
        return false;
      }
      var call := calls[path];
      effects := effects + [ShowElapsed(call.window, now - call.startTime.value)];
      return true;
    }

    method CloseCall(path: string)
      modifies this
      ensures Snapshot() == Registry.CloseCall(old(Snapshot()), path)
      ensures old(Valid()) ==> Valid()
      decreases path in calls
    {
      CloseCallInv(Snapshot(), path);
      if path !in calls {
        return;
      }
      var call := calls[path];
      calls := calls - {path};
      if call.timerId.Some? {
        effects := effects + [CancelTimer(call.timerId.value)];
      }
      effects := effects + [DestroyWindow(call.window)];
      // Destroying the window fires its "destroy" handler, which closes the same path again.
      CloseCall(path);
    }

    // ------------------------------------------------------------------
    // Call control

    method AnswerCall(path: string)
      requires Valid()
      modifies this`effects
      ensures Valid()
      ensures Snapshot() == Registry.AnswerCall(old(Snapshot()), path)
    {
      effects := effects + [RequestAnswer(path)];
    }

    method HangupCall(path: string)
      requires Valid()
      modifies this`effects
      ensures Valid()
      ensures Snapshot() == Registry.HangupCall(old(Snapshot()), path)
    {
      effects := effects + [RequestHangup(path)];
    }
  }
}
