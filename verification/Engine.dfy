/** The engine actor, as far as the handover goes: the event handlers of
    crates/ud-engine/src/engine.rs updating the engine's fields in place. Each handler is proved
    to take exactly the step `Handover` gives for it. */
module EngineActor {
  import opened Wrappers
  import opened Geometry
  import opened Layout
  import opened Identity
  import opened Handover

  class Engine {
    const id: DeviceId
    const desktop: Rect
    var settings: InputSettings
    var links: seq<EdgeLink>
    var sessions: map<DeviceId, SessionInfo>
    var permissionMissing: bool
    var control: ControlState
    var captureActive: bool
    var lastCursor: Option<Point>
    var heldKeys: set<KeyCode>
    var heldButtons: set<MouseButton>
    var lastScrollLock: Option<Instant>
    var settleUntil: Option<Instant>
    var input: Option<Platform>
    var outbox: seq<(DeviceId, Wire)>

    function View(): State
      reads this
    {
      State(id, desktop, settings, links, sessions, permissionMissing, control, captureActive, lastCursor,
            heldKeys, heldButtons, lastScrollLock, settleUntil, input, outbox)
    }

    constructor (id: DeviceId, desktop: Rect, settings: InputSettings, links: seq<EdgeLink>, input: Option<Platform>)
      requires input.Some? ==>
        input.value.keysDown == {} && input.value.buttonsDown == {} && !input.value.grabbed
      ensures Initial(View())
      ensures this.id == id && this.desktop == desktop && this.settings == settings && this.links == links
      ensures this.input == input && sessions == map[] && outbox == []
    {
      this.id, this.desktop, this.settings, this.links, this.input := id, desktop, settings, links, input;
      sessions, permissionMissing, outbox := map[], false, [];
      control, captureActive, lastCursor := Local, false, None;
      heldKeys, heldButtons, lastScrollLock, settleUntil := {}, {}, None, None;
    }

    method SendTo(peer: DeviceId, wire: Wire)
      modifies this`outbox
      ensures View() == Send(old(View()), peer, wire)
    {
      if peer in sessions {
        outbox := outbox + [(peer, wire)];
      }
    }

    method DropCapture()
      modifies this`input, this`captureActive, this`lastCursor
      ensures View() == Handover.DropCapture(old(View()))
    {
      if input.Some? {
        input := Some(input.value.ReleaseCapture());
      }
      captureActive := false;
      lastCursor := None;
    }

    method EnforceCaptureInvariant(granted: bool)
      modifies this`input, this`captureActive, this`lastCursor
      ensures View() == EnforceCapture(old(View()), granted)
    {
      var shouldCapture := control.Controlling?;
      if captureActive == shouldCapture {
        return;
      }
      if shouldCapture {
        if input.Some? {
          input := Some(input.value.SetCapture(granted));
        }
      } else {
        DropCapture();
      }
      captureActive := shouldCapture;
    }

    /** Stops capturing and puts the cursor back where it left from. */
    method ReturnCursor(home: Point)
      modifies this`input
      ensures input == Warp(ReleaseCapture(old(input)), home)
    {
      if input.Some? {
        input := Some(input.value.ReleaseCapture());
        input := Some(input.value.Warp(home));
      }
    }

    method ReleaseControl(now: Instant)
      modifies this
      ensures View() == Handover.ReleaseControl(old(View()), now)
    {
      var previous := control;
      control := Local;
      if !previous.Controlling? {
        control := previous;
        return;
      }
      var home := ReturnPoint(previous.placed, previous.peerCursor);
      ReturnCursor(home);
      captureActive := false;
      lastCursor := None;
      settleUntil := Some(now + HANDOVER_SETTLE);
      assert View() == old(View()).(
        control := Local, input := Warp(ReleaseCapture(old(input)), home), captureActive := false,
        lastCursor := None, settleUntil := Some(now + HANDOVER_SETTLE));
      SendTo(previous.target, Control(Release(previous.peerCursor)));
    }

    method OnReturnHome(peer: DeviceId, at: Point, now: Instant)
      modifies this
      ensures View() == OnControl(old(View()), now, peer, ReturnHome(at))
    {
      if !control.Controlling? || control.target != peer {
        return;
      }
      var home := ReturnPoint(control.placed, at);
      control := Local;
      ReturnCursor(home);
      captureActive := false;
      lastCursor := None;
      settleUntil := Some(now + HANDOVER_SETTLE);
      SendTo(peer, Control(Release(at)));
    }

    /** Injects a release for everything held, in whatever order the sets yield it. */
    method ReleaseHeldInput()
      modifies this`heldKeys, this`heldButtons, this`input
      ensures View() == Handover.ReleaseHeldInput(old(View()))
    {
      var keys, buttons := heldKeys, heldButtons;
      heldKeys, heldButtons := {}, {};
      if input.None? {
        return;
      }
      var platform := input.value;
      ghost var before := platform;
      while keys != {}
        invariant keys <= old(heldKeys)
        invariant platform == before.(keysDown := platform.keysDown)
        invariant platform.keysDown == before.keysDown - (old(heldKeys) - keys) * before.mapped
        decreases keys
      {
        var code :| code in keys;
        platform := platform.Inject(Key(code, false, Modifiers(false, false, false)));
        keys := keys - {code};
      }
      assert old(heldKeys) - {} == old(heldKeys);
      ghost var keysUp := platform;
      while buttons != {}
        invariant buttons <= old(heldButtons)
        invariant platform == keysUp.(buttonsDown := platform.buttonsDown)
        invariant platform.buttonsDown == before.buttonsDown - (old(heldButtons) - buttons)
        decreases buttons
      {
        var button :| button in buttons;
        platform := platform.Inject(Button(button, false));
        buttons := buttons - {button};
      }
      assert old(heldButtons) - {} == old(heldButtons);
      input := Some(platform);
    }

    /** Scans the configured links in order and stops at the first one being pushed. */
    static method FindPushedLink(links: seq<EdgeLink>, desktop: Rect, position: Point, delta: Point, tolerance: real)
      returns (found: Option<EdgeLink>)
      ensures found == PushedLink(links, desktop, position, delta, tolerance)
      ensures found.Some? ==> found.value in links && Pushes(found.value, desktop, position, delta, tolerance)
      ensures found.None? ==> forall link :: link in links ==> !Pushes(link, desktop, position, delta, tolerance)
    {
      for i := 0 to |links|
        invariant forall link :: link in links[..i] ==> !Pushes(link, desktop, position, delta, tolerance)
        invariant PushedLink(links, desktop, position, delta, tolerance)
               == PushedLink(links[i..], desktop, position, delta, tolerance)
      {
        if Pushes(links[i], desktop, position, delta, tolerance) {
          return Some(links[i]);
        }
        assert links[i..][1..] == links[i + 1..];
      }
      return None;
    }

    method TryEngage(position: Point, delta: Point, granted: bool)
      modifies this
      ensures View() == Handover.TryEngage(old(View()), position, delta, granted)
    {
      var found := FindPushedLink(links, desktop, position, delta, Tolerance(settings));
      if found.None? {
        return;
      }
      var link := found.value;
      if link.peer !in sessions || !sessions[link.peer].connected {
        return;
      }
      var peerDesktop := FoldDesktop(sessions[link.peer].displays);
      var placed := PlacePeer(desktop, peerDesktop, link);
      var entry := EntryPoint(placed, position);
      if permissionMissing {
        return;
      }
      if input.Some? {
        if !granted {
          return;
        }
        input := Some(input.value.SetCapture(true));
      }
      captureActive := true;
      lastCursor := None;
      control := Controlling(link.peer, placed, entry);
      assert View() == old(View()).(
        control := control, input := Handover.SetCapture(old(input), true), captureActive := true, lastCursor := None);
      SendTo(link.peer, Control(Enter(entry, link.remoteSide, settings.relayKeyboard)));
    }

    method OnCursorTick(now: Instant, position: Option<Point>, granted: bool)
      modifies this
      ensures View() == Tick(old(View()), now, position, granted)
    {
      EnforceCaptureInvariant(granted);
      if input.None? || position.None? {
        return;
      }
      var at := position.value;
      var delta := Point(0.0, 0.0);
      if lastCursor.Some? {
        delta := Point(at.x - lastCursor.value.x, at.y - lastCursor.value.y);
      }
      lastCursor := position;
      match control
      case Local =>
        if settings.enabled && !Settling(settleUntil, now) {
          TryEngage(at, delta, granted);
        }
      case Controlling(_, _, _) =>
      case Controlled(owner, side, _) =>
        if Settling(settleUntil, now) {
          return;
        }
        if HitsEdge(desktop, side, at, Tolerance(settings)) && IsOutward(side, delta.x, delta.y) {
          SendTo(owner, Control(ReturnHome(at)));
          ReleaseHeldInput();
          control := Local;
        }
    }

    method CheckReleaseGesture(event: CapturedEvent, now: Instant) returns (completed: bool)
      modifies this`lastScrollLock
      ensures completed == IsReleaseGesture(old(View()), event, now)
      ensures View() == NoteScrollLock(old(View()), event, now)
    {
      if !event.Typed? || !event.typedDown {
        return false;
      }
      match settings.hotkey
      case Disabled => return false;
      case ScrollLockTwice =>
        if event.typed != SCROLL_LOCK {
          return false;
        }
        completed := lastScrollLock.Some? && now - lastScrollLock.value < DOUBLE_TAP_WINDOW;
        lastScrollLock := Some(now);
      case CtrlAltEscape =>
        return event.typed == ESCAPE && event.held.ctrl && event.held.alt && !event.held.meta;
      case CtrlAltCmdEscape =>
        return event.typed == ESCAPE && event.held.ctrl && event.held.alt && event.held.meta;
    }

    method OnCaptured(now: Instant, event: CapturedEvent, queued: bool)
      modifies this
      ensures View() == Handover.OnCaptured(old(View()), now, event, queued)
    {
      if event.CaptureLost? {
        if input.Some? {
          input := Some(input.value.ReleaseCapture());
        }
        ReleaseControl(now);
        return;
      }
      if !control.Controlling? {
        return;
      }
      var completed := CheckReleaseGesture(event, now);
      if completed {
        ReleaseControl(now);
        return;
      }
      var speed := Max(settings.mouseSpeed, 0.05);
      if event.Moved? {
        control := control.(peerCursor := DeadReckon(control.peerCursor, event, speed));
      }
      if queued {
        SendTo(control.target, Input(Relayed(event, speed)));
      }
    }

    method OnRemoteInput(event: InputEvent)
      modifies this
      ensures View() == Handover.OnRemoteInput(old(View()), event)
    {
      if !control.Controlled? || (!control.keyboard && event.Key?) {
        return;
      }
      match event {
        case Key(code, pressed, _) =>
          heldKeys := if pressed then heldKeys + {code} else heldKeys - {code};
        case Button(button, down) =>
          heldButtons := if down then heldButtons + {button} else heldButtons - {button};
        case _ =>
      }
      if input.Some? {
        input := Some(input.value.Inject(event));
      }
    }

    method OnControlMessage(now: Instant, from: DeviceId, op: InputControl)
      modifies this
      ensures View() == OnControl(old(View()), now, from, op)
    {
      match op
      case Enter(at, returnSide, keyboard) =>
        if control.Controlling? {
          if Before(id, from) {
            return;
          }
          DropCapture();
        }
        if input.Some? {
          input := Some(input.value.Warp(at));
        }
        control := Controlled(from, returnSide, keyboard);
        lastCursor := None;
        settleUntil := Some(now + HANDOVER_SETTLE);
      case Release(at) =>
        ReleaseHeldInput();
        if input.Some? {
          input := Some(input.value.Warp(at));
        }
        lastCursor := None;
        control := Local;
      case ReturnHome(at) =>
        OnReturnHome(from, at, now);
      case ResetKeys =>
        ReleaseHeldInput();
    }

    method EndSession(now: Instant, peer: DeviceId)
      modifies this
      ensures View() == OnSessionEnded(old(View()), now, peer)
    {
      if peer !in sessions {
        return;
      }
      sessions := sessions - {peer};
      if control.Controlling? && control.target == peer {
        ReleaseControl(now);
      } else if control.Controlled? && control.owner == peer {
        ReleaseHeldInput();
        control := Local;
      }
    }

    method DisconnectPeer(now: Instant, peer: DeviceId)
      modifies this
      ensures View() == OnDisconnect(old(View()), now, peer)
    {
      sessions := sessions - {peer};
      if control.Controlling? && control.target == peer {
        ReleaseControl(now);
      }
    }

    /** The engine's event loop body: one event, one step. */
    method Handle(e: Event)
      modifies this
      ensures View() == Step(old(View()), e)
    {
      match e
      case CursorTick(now, position, granted) => OnCursorTick(now, position, granted);
      case Captured(now, captured, queued) => OnCaptured(now, captured, queued);
      case Incoming(now, from, Control(op)) => OnControlMessage(now, from, op);
      case Incoming(_, _, Input(event)) => OnRemoteInput(event);
      case ReleaseRequested(now) => ReleaseControl(now);
      case SetSharing(now, on) =>
        settings := settings.(enabled := on);
        if !on {
          ReleaseControl(now);
        }
      case UpdateSettings(updated, newLinks) =>
        settings, links := updated, newLinks;
      case PermissionChecked(missing) =>
        permissionMissing := missing;
      case DisplaysChanged(peer, displays) =>
        if peer in sessions {
          sessions := sessions[peer := sessions[peer].(displays := displays)];
        }
      case SessionEstablished(peer, info) =>
        sessions := sessions[peer := info];
      case SessionEnded(now, peer) => EndSession(now, peer);
      case Disconnect(now, peer) => DisconnectPeer(now, peer);
    }

    /** The actor's loop over everything that reaches it. */
    method HandleAll(events: seq<Event>)
      modifies this
      ensures View() == Run(old(View()), events)
    {
      for i := 0 to |events|
        invariant Run(View(), events[i..]) == Run(old(View()), events)
      {
        assert events[i..][1..] == events[i + 1..];
        Handle(events[i]);
      }
      assert events[|events|..] == [];
    }
  }
}
