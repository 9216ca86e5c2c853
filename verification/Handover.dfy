/** The keyboard and mouse handover of one machine (crates/ud-engine/src/engine.rs).

    `State` holds the fields of the engine that take part, `Step` is what one event does to
    them, and the theorems are about every run of events. Class `Engine` (Engine.dfy) updates
    the same fields in place and is proved to perform these steps. */
module Handover {
  import opened Wrappers
  import opened Geometry
  import opened Layout
  import opened Identity

  type KeyCode = nat
  type MouseButton = nat
  type Instant = int

  const SCROLL_LOCK: KeyCode := 0x47
  const ESCAPE: KeyCode := 0x29
  const DOUBLE_TAP_WINDOW := 400
  const HANDOVER_SETTLE := 300

  datatype Modifiers = Modifiers(ctrl: bool, alt: bool, meta: bool)

  datatype InputControl =
    | Enter(at: Point, returnSide: Side, keyboard: bool)
    | Release(at: Point)
    | ReturnHome(at: Point)
    | ResetKeys

  datatype InputEvent =
    | MoveRel(dx: real, dy: real)
    | MoveAbs(x: real, y: real)
    | Button(button: MouseButton, down: bool)
    | Wheel(wx: real, wy: real)
    | Key(code: KeyCode, pressed: bool, modifiers: Modifiers)

  /** What travels on the urgent queue of a session. */
  datatype Wire = Control(op: InputControl) | Input(event: InputEvent)

  /** What the platform reports while it captures the local devices. */
  datatype CapturedEvent =
    | Moved(mx: real, my: real)
    | Clicked(clicked: MouseButton, clickedDown: bool)
    | Scrolled(sx: real, sy: real)
    | Typed(typed: KeyCode, typedDown: bool, held: Modifiers)
    | CaptureLost

  datatype ReleaseHotkey = ScrollLockTwice | CtrlAltEscape | CtrlAltCmdEscape | Disabled

  datatype InputSettings = InputSettings(
    enabled: bool, mouseSpeed: real, relayKeyboard: bool, hotkey: ReleaseHotkey, edgeArmedPixels: real)

  /** The platform's input devices as the engine acts on them. `keysDown` and `buttonsDown` are
      what injected events have left pressed; injecting a key fails exactly when the platform has
      no mapping for it. `grabbed` says whether local input is being swallowed. */
  datatype Platform = Platform(
    mapped: set<KeyCode>, keysDown: set<KeyCode>, buttonsDown: set<MouseButton>, grabbed: bool, cursor: Point)
  {
    function Inject(event: InputEvent): Platform {
      match event
      case Key(code, pressed, _) =>
        if code !in mapped then this
        else this.(keysDown := if pressed then keysDown + {code} else keysDown - {code})
      case Button(button, down) =>
        this.(buttonsDown := if down then buttonsDown + {button} else buttonsDown - {button})
      case MoveRel(dx, dy) => Warp(Point(cursor.x + dx, cursor.y + dy))
      case MoveAbs(x, y) => Warp(Point(x, y))
      case Wheel(_, _) => this
    }

    function Warp(to: Point): Platform {
      this.(cursor := to)
    }

    function ReleaseCapture(): Platform {
      this.(grabbed := false)
    }

    /** Asks for the capture, which the platform may refuse. */
    function SetCapture(granted: bool): Platform {
      if granted then this.(grabbed := true) else this
    }
  }

  datatype SessionInfo = SessionInfo(connected: bool, displays: seq<Rect>)

  datatype ControlState =
    | Local
    | Controlling(target: DeviceId, placed: PlacedPeer, peerCursor: Point)
    | Controlled(owner: DeviceId, returnSide: Side, keyboard: bool)

  datatype State = State(
    id: DeviceId,
    desktop: Rect,
    settings: InputSettings,
    links: seq<EdgeLink>,
    sessions: map<DeviceId, SessionInfo>,
    permissionMissing: bool,
    control: ControlState,
    captureActive: bool,
    lastCursor: Option<Point>,
    heldKeys: set<KeyCode>,
    heldButtons: set<MouseButton>,
    lastScrollLock: Option<Instant>,
    settleUntil: Option<Instant>,
    input: Option<Platform>,
    outbox: seq<(DeviceId, Wire)>)

  datatype Event =
    | CursorTick(now: Instant, position: Option<Point>, granted: bool)
    | Captured(now: Instant, captured: CapturedEvent, queued: bool)
    | Incoming(now: Instant, from: DeviceId, wire: Wire)
    | ReleaseRequested(now: Instant)
    | SetSharing(now: Instant, on: bool)
    | UpdateSettings(settings: InputSettings, links: seq<EdgeLink>)
    | PermissionChecked(missing: bool)
    | DisplaysChanged(peer: DeviceId, displays: seq<Rect>)
    | SessionEstablished(peer: DeviceId, info: SessionInfo)
    | SessionEnded(now: Instant, peer: DeviceId)
    | Disconnect(now: Instant, peer: DeviceId)

  // ---- The steps ----

  predicate Settling(settleUntil: Option<Instant>, now: Instant) {
    settleUntil.Some? && now < settleUntil.value
  }

  function Tolerance(settings: InputSettings): real {
    Max(settings.edgeArmedPixels, 1.0)
  }

  /** Messages to a machine without a session are dropped. */
  function Send(s: State, peer: DeviceId, wire: Wire): State {
    if peer in s.sessions then s.(outbox := s.outbox + [(peer, wire)]) else s
  }

  // The input backend may be missing, in which case these do nothing.

  function ReleaseCapture(input: Option<Platform>): Option<Platform> {
    if input.Some? then Some(input.value.ReleaseCapture()) else None
  }

  function SetCapture(input: Option<Platform>, granted: bool): Option<Platform> {
    if input.Some? then Some(input.value.SetCapture(granted)) else None
  }

  function Warp(input: Option<Platform>, to: Point): Option<Platform> {
    if input.Some? then Some(input.value.Warp(to)) else None
  }

  function Inject(input: Option<Platform>, event: InputEvent): Option<Platform> {
    if input.Some? then Some(input.value.Inject(event)) else None
  }

  /** Injects the release of every given key and button. */
  function LetGo(input: Option<Platform>, keys: set<KeyCode>, buttons: set<MouseButton>): Option<Platform> {
    if input.Some? then
      var p := input.value;
      Some(p.(keysDown := p.keysDown - keys * p.mapped, buttonsDown := p.buttonsDown - buttons))
    else None
  }

  function DropCapture(s: State): State {
    s.(input := ReleaseCapture(s.input), captureActive := false, lastCursor := None)
  }

  /** Capturing is only ever correct while this machine owns the handover; reconcile the two. */
  function EnforceCapture(s: State, granted: bool): State {
    if s.captureActive == s.control.Controlling? then s
    else if s.control.Controlling? then
      s.(input := SetCapture(s.input, granted), captureActive := true)
    else DropCapture(s)
  }

  /** Releases the capture and parks the cursor where it left from. */
  function ComeHome(s: State, at: Point, now: Instant): State
    requires s.control.Controlling?
  {
    var home := ReturnPoint(s.control.placed, at);
    var quiet := s.(
      control := Local,
      input := Warp(ReleaseCapture(s.input), home),
      captureActive := false,
      lastCursor := None,
      settleUntil := Some(now + HANDOVER_SETTLE));
    Send(quiet, s.control.target, Control(Release(at)))
  }

  function ReleaseControl(s: State, now: Instant): State {
    if s.control.Controlling? then ComeHome(s, s.control.peerCursor, now) else s
  }

  /** Lets go of everything the peer might have left pressed. */
  function ReleaseHeldInput(s: State): State {
    s.(heldKeys := {}, heldButtons := {}, input := LetGo(s.input, s.heldKeys, s.heldButtons))
  }

  predicate Pushes(link: EdgeLink, desktop: Rect, position: Point, delta: Point, tolerance: real) {
    link.enabled && HitsEdge(desktop, link.localSide, position, tolerance) && IsOutward(link.localSide, delta.x, delta.y)
  }

  /** The first enabled link whose edge the cursor is being pushed at. */
  function PushedLink(links: seq<EdgeLink>, desktop: Rect, position: Point, delta: Point, tolerance: real): Option<EdgeLink> {
    if links == [] then None
    else if Pushes(links[0], desktop, position, delta, tolerance) then Some(links[0])
    else PushedLink(links[1..], desktop, position, delta, tolerance)
  }

  function TryEngage(s: State, position: Point, delta: Point, granted: bool): State {
    match PushedLink(s.links, s.desktop, position, delta, Tolerance(s.settings))
    case None => s
    case Some(link) =>
      if link.peer !in s.sessions || !s.sessions[link.peer].connected then s
      else if s.permissionMissing || (s.input.Some? && !granted) then s
      else
        var placed := PlacePeer(s.desktop, DesktopBounds(s.sessions[link.peer].displays), link);
        var entry := EntryPoint(placed, position);
        Send(
          s.(
            control := Controlling(link.peer, placed, entry),
            captureActive := true,
            lastCursor := None,
            input := SetCapture(s.input, true)),
          link.peer,
          Control(Enter(entry, link.remoteSide, s.settings.relayKeyboard)))
  }

  /** The cursor of a controlled machine reached the edge it is to return through. */
  function HandBack(s: State, position: Point): State
    requires s.control.Controlled?
  {
    ReleaseHeldInput(Send(s, s.control.owner, Control(ReturnHome(position)))).(control := Local)
  }

  function Tick(s: State, now: Instant, position: Option<Point>, granted: bool): State {
    var s := EnforceCapture(s, granted);
    if s.input.None? || position.None? then s
    else
      var at := position.value;
      var delta := if s.lastCursor.Some? then Point(at.x - s.lastCursor.value.x, at.y - s.lastCursor.value.y)
                   else Point(0.0, 0.0);
      var seen := s.(lastCursor := position);
      match s.control
      case Local =>
        if s.settings.enabled && !Settling(s.settleUntil, now) then TryEngage(seen, at, delta, granted) else seen
      case Controlling(_, _, _) => seen
      case Controlled(_, side, _) =>
        if !Settling(s.settleUntil, now)
           && HitsEdge(s.desktop, side, at, Tolerance(s.settings)) && IsOutward(side, delta.x, delta.y)
        then HandBack(seen, at)
        else seen
  }

  /** Whether a captured event completes the release shortcut. */
  predicate IsReleaseGesture(s: State, event: CapturedEvent, now: Instant) {
    event.Typed? && event.typedDown &&
    match s.settings.hotkey
    case Disabled => false
    case ScrollLockTwice =>
      event.typed == SCROLL_LOCK && s.lastScrollLock.Some? && now - s.lastScrollLock.value < DOUBLE_TAP_WINDOW
    case CtrlAltEscape => event.typed == ESCAPE && event.held.ctrl && event.held.alt && !event.held.meta
    case CtrlAltCmdEscape => event.typed == ESCAPE && event.held.ctrl && event.held.alt && event.held.meta
  }

  function NoteScrollLock(s: State, event: CapturedEvent, now: Instant): State {
    if event.Typed? && event.typedDown && s.settings.hotkey.ScrollLockTwice? && event.typed == SCROLL_LOCK
    then s.(lastScrollLock := Some(now)) else s
  }

  function Relayed(event: CapturedEvent, speed: real): InputEvent
    requires !event.CaptureLost?
  {
    match event
    case Moved(dx, dy) => MoveRel(dx * speed, dy * speed)
    case Clicked(button, down) => Button(button, down)
    case Scrolled(dx, dy) => Wheel(dx, dy)
    case Typed(code, down, modifiers) => Key(code, down, modifiers)
  }

  /** Where the peer's cursor is believed to be after a captured event. */
  function DeadReckon(cursor: Point, event: CapturedEvent, speed: real): Point {
    if event.Moved? then Point(cursor.x + event.mx * speed, cursor.y + event.my * speed) else cursor
  }

  function OnCaptured(s: State, now: Instant, event: CapturedEvent, queued: bool): State {
    if event.CaptureLost? then
      ReleaseControl(s.(input := ReleaseCapture(s.input)), now)
    else if !s.control.Controlling? then s
    else
      var noted := NoteScrollLock(s, event, now);
      if IsReleaseGesture(s, event, now) then ReleaseControl(noted, now)
      else
        var speed := Max(s.settings.mouseSpeed, 0.05);
        var moved := noted.(control := s.control.(peerCursor := DeadReckon(s.control.peerCursor, event, speed)));
        if queued then Send(moved, s.control.target, Input(Relayed(event, speed))) else moved
  }

  function OnRemoteInput(s: State, event: InputEvent): State {
    if !s.control.Controlled? || (!s.control.keyboard && event.Key?) then s
    else
      var tracked := match event
        case Key(code, pressed, _) =>
          s.(heldKeys := if pressed then s.heldKeys + {code} else s.heldKeys - {code})
        case Button(button, down) =>
          s.(heldButtons := if down then s.heldButtons + {button} else s.heldButtons - {button})
        case _ => s;
      tracked.(input := Inject(s.input, event))
  }

  function OnControl(s: State, now: Instant, from: DeviceId, op: InputControl): State {
    match op
    case Enter(at, returnSide, keyboard) =>
      if s.control.Controlling? && Before(s.id, from) then s
      else
        var yielded := if s.control.Controlling? then DropCapture(s) else s;
        yielded.(
          input := Warp(yielded.input, at),
          control := Controlled(from, returnSide, keyboard),
          lastCursor := None,
          settleUntil := Some(now + HANDOVER_SETTLE))
    case Release(at) =>
      var released := ReleaseHeldInput(s);
      released.(
        input := Warp(released.input, at),
        lastCursor := None,
        control := Local)
    case ReturnHome(at) =>
      if s.control.Controlling? && s.control.target == from then ComeHome(s, at, now) else s
    case ResetKeys => ReleaseHeldInput(s)
  }

  function OnSessionEnded(s: State, now: Instant, peer: DeviceId): State {
    if peer !in s.sessions then s
    else
      var gone := s.(sessions := s.sessions - {peer});
      if s.control.Controlling? && s.control.target == peer then ReleaseControl(gone, now)
      else if s.control.Controlled? && s.control.owner == peer then ReleaseHeldInput(gone).(control := Local)
      else gone
  }

  /** A local disconnect gives control back but leaves a controlled machine as it is. */
  function OnDisconnect(s: State, now: Instant, peer: DeviceId): State {
    var gone := s.(sessions := s.sessions - {peer});
    if s.control.Controlling? && s.control.target == peer then ReleaseControl(gone, now) else gone
  }

  function Step(s: State, e: Event): State {
    match e
    case CursorTick(now, position, granted) => Tick(s, now, position, granted)
    case Captured(now, captured, queued) => OnCaptured(s, now, captured, queued)
    case Incoming(now, from, Control(op)) => OnControl(s, now, from, op)
    case Incoming(_, _, Input(event)) => OnRemoteInput(s, event)
    case ReleaseRequested(now) => ReleaseControl(s, now)
    case SetSharing(now, on) =>
      var switched := s.(settings := s.settings.(enabled := on));
      if on then switched else ReleaseControl(switched, now)
    case UpdateSettings(settings, links) => s.(settings := settings, links := links)
    case PermissionChecked(missing) => s.(permissionMissing := missing)
    case DisplaysChanged(peer, displays) =>
      if peer in s.sessions then s.(sessions := s.sessions[peer := s.sessions[peer].(displays := displays)]) else s
    case SessionEstablished(peer, info) => s.(sessions := s.sessions[peer := info])
    case SessionEnded(now, peer) => OnSessionEnded(s, now, peer)
    case Disconnect(now, peer) => OnDisconnect(s, now, peer)
  }

  function Run(s: State, events: seq<Event>): State
    decreases events
  {
    if events == [] then s else Run(Step(s, events[0]), events[1..])
  }

  // ---- What every run keeps ----

  predicate Initial(s: State) {
    && s.control.Local? && !s.captureActive && s.heldKeys == {} && s.heldButtons == {}
    && (s.input.Some? ==> s.input.value.keysDown == {} && s.input.value.buttonsDown == {} && !s.input.value.grabbed)
  }

  predicate Sound(s: State) {
    && (s.control.Controlling? ==> s.captureActive)
    && (!s.control.Controlled? ==> s.heldKeys == {} && s.heldButtons == {})
    && (s.input.Some? ==>
          && s.input.value.keysDown <= s.heldKeys * s.input.value.mapped
          && s.input.value.buttonsDown <= s.heldButtons
          && (s.input.value.grabbed ==> s.captureActive))
  }

  lemma TickKeepsSound(s: State, now: Instant, position: Option<Point>, granted: bool)
    requires Sound(s)
    ensures Sound(Tick(s, now, position, granted))
  {
  }

  lemma CapturedKeepsSound(s: State, now: Instant, event: CapturedEvent, queued: bool)
    requires Sound(s)
    ensures Sound(OnCaptured(s, now, event, queued))
  {
    if event.CaptureLost? {
      ReleaseKeepsSound(s.(input := ReleaseCapture(s.input)), now);
    } else if s.control.Controlling? && IsReleaseGesture(s, event, now) {
      ReleaseKeepsSound(NoteScrollLock(s, event, now), now);
    }
  }

  lemma ReleaseKeepsSound(s: State, now: Instant)
    requires Sound(s)
    ensures Sound(ReleaseControl(s, now))
  {
  }

  lemma ControlKeepsSound(s: State, now: Instant, from: DeviceId, op: InputControl)
    requires Sound(s)
    ensures Sound(OnControl(s, now, from, op))
  {
  }

  lemma RemoteInputKeepsSound(s: State, event: InputEvent)
    requires Sound(s)
    ensures Sound(OnRemoteInput(s, event))
  {
  }

  lemma SessionEventsKeepSound(s: State, now: Instant, peer: DeviceId)
    requires Sound(s)
    ensures Sound(OnSessionEnded(s, now, peer)) && Sound(OnDisconnect(s, now, peer))
  {
    ReleaseKeepsSound(s.(sessions := s.sessions - {peer}), now);
  }

  lemma StepKeepsSound(s: State, e: Event)
    requires Sound(s)
    ensures Sound(Step(s, e))
  {
    match e
    case CursorTick(now, position, granted) => TickKeepsSound(s, now, position, granted);
    case Captured(now, captured, queued) => CapturedKeepsSound(s, now, captured, queued);
    case Incoming(now, from, Control(op)) => ControlKeepsSound(s, now, from, op);
    case Incoming(_, _, Input(event)) => RemoteInputKeepsSound(s, event);
    case ReleaseRequested(now) => ReleaseKeepsSound(s, now);
    case SetSharing(now, on) => ReleaseKeepsSound(s.(settings := s.settings.(enabled := on)), now);
    case SessionEnded(now, peer) => SessionEventsKeepSound(s, now, peer);
    case Disconnect(now, peer) => SessionEventsKeepSound(s, now, peer);
    case _ =>
  }

  lemma {:induction false} RunKeepsSound(s: State, events: seq<Event>)
    requires Sound(s)
    ensures Sound(Run(s, events))
    decreases events
  {
    if events != [] {
      StepKeepsSound(s, events[0]);
      RunKeepsSound(Step(s, events[0]), events[1..]);
    }
  }

  /** Nothing a peer pressed stays down once this machine is no longer controlled, whatever
      happened before; and everything still down is on record to be released. */
  lemma NoStuckKeys(s: State, events: seq<Event>)
    requires Initial(s)
    ensures var end := Run(s, events);
            end.input.Some? ==>
              && end.input.value.keysDown <= end.heldKeys
              && end.input.value.buttonsDown <= end.heldButtons
              && (!end.control.Controlled? ==> end.input.value.keysDown == {} && end.input.value.buttonsDown == {})
  {
    RunKeepsSound(s, events);
  }

  /** A controlling machine always has its capture; so the branch that takes a lost capture back
      never runs, and reconciling can only ever let go of one. */
  lemma ControllingMeansCapturing(s: State, events: seq<Event>, granted: bool)
    requires Initial(s)
    ensures var end := Run(s, events);
            && (end.control.Controlling? ==> end.captureActive)
            && (EnforceCapture(end, granted) == end
                || (end.captureActive && EnforceCapture(end, granted) == DropCapture(end)))
  {
    RunKeepsSound(s, events);
  }

  predicate Reconciled(s: State) {
    s.captureActive <==> s.control.Controlling?
  }

  lemma EngagingKeepsReconciled(s: State, position: Point, delta: Point, granted: bool)
    requires Reconciled(s) && s.control.Local?
    ensures Reconciled(TryEngage(s, position, delta, granted))
  {
  }

  lemma TickReconciles(s: State, now: Instant, position: Option<Point>, granted: bool)
    ensures Reconciled(Tick(s, now, position, granted))
  {
    var enforced := EnforceCapture(s, granted);
    assert Reconciled(enforced);
    if s.control.Local? && position.Some? {
      var at, last := position.value, enforced.lastCursor;
      var delta := if last.Some? then Point(at.x - last.value.x, at.y - last.value.y) else Point(0.0, 0.0);
      EngagingKeepsReconciled(enforced.(lastCursor := position), at, delta, granted);
    }
  }

  /** After a cursor tick the capture and the handover agree again: a capture left behind by a
      stray release is gone, and local input is swallowed only while controlling a peer. */
  lemma TickReconcilesCapture(s: State, events: seq<Event>, now: Instant, position: Option<Point>, granted: bool)
    requires Initial(s)
    ensures var end := Tick(Run(s, events), now, position, granted);
            && (end.captureActive <==> end.control.Controlling?)
            && (end.input.Some? && end.input.value.grabbed ==> end.control.Controlling?)
  {
    RunKeepsSound(s, events);
    TickKeepsSound(Run(s, events), now, position, granted);
    TickReconciles(Run(s, events), now, position, granted);
  }
}
