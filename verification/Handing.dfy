/** When a handover begins and when it ends, and what is left behind
    (crates/ud-engine/src/engine.rs:663-690, 965-983, 1298-1588, 1645-1678 and 1747-1828). */
module Handing {
  import opened Wrappers
  import opened Geometry
  import opened Layout
  import opened Identity
  import opened Handover

  function Drift(s: State, at: Point): Point {
    if s.lastCursor.Some? then Point(at.x - s.lastCursor.value.x, at.y - s.lastCursor.value.y) else Point(0.0, 0.0)
  }

  /** The first link that is pushed. */
  predicate FirstPushed(s: State, at: Point, k: nat) {
    && k < |s.links| && Pushes(s.links[k], s.desktop, at, Drift(s, at), Tolerance(s.settings))
    && forall j :: 0 <= j < k ==> !Pushes(s.links[j], s.desktop, at, Drift(s, at), Tolerance(s.settings))
  }

  lemma {:induction false} PushedLinkIsTheFirst(links: seq<EdgeLink>, desktop: Rect, at: Point, delta: Point, tolerance: real)
    ensures var found := PushedLink(links, desktop, at, delta, tolerance);
            && (found.None? ==> forall j :: 0 <= j < |links| ==> !Pushes(links[j], desktop, at, delta, tolerance))
            && (found.Some? ==> exists k ::
                  && 0 <= k < |links| && links[k] == found.value && Pushes(links[k], desktop, at, delta, tolerance)
                  && forall j :: 0 <= j < k ==> !Pushes(links[j], desktop, at, delta, tolerance))
  {
    if links != [] && !Pushes(links[0], desktop, at, delta, tolerance) {
      PushedLinkIsTheFirst(links[1..], desktop, at, delta, tolerance);
      var found := PushedLink(links[1..], desktop, at, delta, tolerance);
      assert forall j :: 1 <= j < |links| ==> links[j] == links[1..][j - 1];
      if found.Some? {
        var k :| 0 <= k < |links[1..]| && links[1..][k] == found.value && Pushes(links[1..][k], desktop, at, delta, tolerance)
                 && forall j :: 0 <= j < k ==> !Pushes(links[1..][j], desktop, at, delta, tolerance);
        assert links[k + 1] == found.value;
      }
    }
  }

  /** A machine may engage at all: it has a backend that may capture, sharing is on, and it is not settling. */
  predicate MayEngage(s: State, now: Instant, granted: bool) {
    s.input.Some? && granted && !s.permissionMissing && s.settings.enabled && !Settling(s.settleUntil, now)
  }

  predicate Reachable(s: State, peer: DeviceId) {
    peer in s.sessions && s.sessions[peer].connected
  }

  /** When a tick takes control of another machine, exactly: at home with no capture left over, allowed to, and with
      the first link that is pushed leading to a connected machine. */
  lemma TickEngagesIff(s: State, now: Instant, at: Point, granted: bool)
    requires !s.control.Controlling?
    ensures Tick(s, now, Some(at), granted).control.Controlling?
       <==> s.control.Local? && !s.captureActive && MayEngage(s, now, granted)
            && exists k :: 0 <= k < |s.links| && FirstPushed(s, at, k) && Reachable(s, s.links[k].peer)
  {
    PushedLinkIsTheFirst(s.links, s.desktop, at, Drift(s, at), Tolerance(s.settings));
    PushedLinkIsTheFirst(s.links, s.desktop, at, Point(0.0, 0.0), Tolerance(s.settings));
  }

  lemma NoPositionNoHandover(s: State, now: Instant, granted: bool)
    ensures Tick(s, now, None, granted).control == s.control && Tick(s, now, None, granted).outbox == s.outbox
  {
  }

  /** When a tick hands control back, exactly. */
  lemma TickHandsBackIff(s: State, now: Instant, at: Point, granted: bool)
    requires s.control.Controlled?
    ensures Tick(s, now, Some(at), granted).control.Local?
       <==> !s.captureActive && s.input.Some? && !Settling(s.settleUntil, now)
            && HitsEdge(s.desktop, s.control.returnSide, at, Tolerance(s.settings))
            && IsOutward(s.control.returnSide, Drift(s, at).x, Drift(s, at).y)
    ensures Tick(s, now, Some(at), granted).control.Local? || Tick(s, now, Some(at), granted).control == s.control
  {
  }

  /** How an engaging tick places the other machine: by the displays its session last reported. */
  lemma EngagingPlacesThePeer(s: State, now: Instant, at: Point, granted: bool)
    requires s.control.Local? && Tick(s, now, Some(at), granted).control.Controlling?
    ensures var control := Tick(s, now, Some(at), granted).control;
            && Reachable(s, control.target) && control.placed.link in s.links && control.placed.link.peer == control.target
            && control.placed == PlacePeer(s.desktop, DesktopBounds(s.sessions[control.target].displays), control.placed.link)
            && control.peerCursor == EntryPoint(control.placed, at)
  {
    PushedLinkIsTheFirst(s.links, s.desktop, at, Drift(s, at), Tolerance(s.settings));
    PushedLinkIsTheFirst(s.links, s.desktop, at, Point(0.0, 0.0), Tolerance(s.settings));
  }

  /** What a tick goes by is the latest it was told: settings and links, permission, sessions, and their displays. */
  lemma TheLatestCounts(s: State, peer: DeviceId, info: SessionInfo, displays: seq<Rect>, settings: InputSettings,
                        links: seq<EdgeLink>, missing: bool)
    ensures var told := Run(s, [SessionEstablished(peer, info), DisplaysChanged(peer, displays),
                                UpdateSettings(settings, links), PermissionChecked(missing)]);
            && told.settings == settings && told.links == links && told.permissionMissing == missing
            && (Reachable(told, peer) <==> info.connected)
            && peer in told.sessions && told.sessions[peer].displays == displays
            && (forall other :: other != peer ==> (other in told.sessions <==> other in s.sessions))
            && told.control == s.control && told.outbox == s.outbox
  {
    var e1, e2, e3, e4 := SessionEstablished(peer, info), DisplaysChanged(peer, displays),
                          UpdateSettings(settings, links), PermissionChecked(missing);
    assert [e1, e2, e3, e4] == [e1] + ([e2] + ([e3] + ([e4] + [])));
    RunFirst(s, e1, [e2] + ([e3] + ([e4] + [])));
    RunFirst(Step(s, e1), e2, [e3] + ([e4] + []));
    RunFirst(Step(Step(s, e1), e2), e3, [e4] + []);
    RunFirst(Step(Step(Step(s, e1), e2), e3), e4, []);
  }

  lemma RunFirst(s: State, e: Event, rest: seq<Event>)
    ensures Run(s, [e] + rest) == Run(Step(s, e), rest)
  {
    assert ([e] + rest)[1..] == rest;
  }

  /** A tick that finds a machine controlling without its capture asks for it again. No run leads there, but the code is
      ready for it. */
  lemma LostCaptureIsTakenBack(s: State, now: Instant, position: Option<Point>, granted: bool)
    requires s.control.Controlling? && !s.captureActive
    ensures var after := Tick(s, now, position, granted);
            after.control == s.control && after.captureActive
            && (s.input.Some? ==> after.input == Some(s.input.value.(grabbed := granted || s.input.value.grabbed)))
  {
  }

  // ---- Sharing off ----

  /** Nothing turns sharing on. */
  predicate StaysOff(events: seq<Event>) {
    forall e :: e in events ==> (e.SetSharing? ==> !e.on) && (e.UpdateSettings? ==> !e.settings.enabled)
  }

  lemma OffStepStaysHome(s: State, e: Event)
    requires !s.settings.enabled && !s.control.Controlling?
    requires (e.SetSharing? ==> !e.on) && (e.UpdateSettings? ==> !e.settings.enabled)
    ensures !Step(s, e).settings.enabled && !Step(s, e).control.Controlling?
  {
  }

  /** Turning sharing off gives control back, and until it is turned on again this machine controls no other. */
  lemma {:induction false} OffStaysHome(s: State, events: seq<Event>)
    requires !s.settings.enabled && !s.control.Controlling? && StaysOff(events)
    ensures !Run(s, events).control.Controlling?
    decreases events
  {
    if events != [] {
      assert events[0] in events;
      OffStepStaysHome(s, events[0]);
      OffStaysHome(Step(s, events[0]), events[1..]);
    }
  }

  lemma SharingOffEndsControl(s: State, now: Instant, events: seq<Event>)
    requires StaysOff(events)
    ensures !Run(Step(s, SetSharing(now, false)), events).control.Controlling?
  {
    OffStaysHome(Step(s, SetSharing(now, false)), events);
  }

  // ---- Sessions that end ----

  predicate Names(s: State, peer: DeviceId) {
    (s.control.Controlling? && s.control.target == peer) || (s.control.Controlled? && s.control.owner == peer)
  }

  /** Nothing is recorded as held, and nothing is down. */
  predicate HandsOff(s: State) {
    s.heldKeys == {} && s.heldButtons == {}
    && (s.input.Some? ==> s.input.value.keysDown == {} && s.input.value.buttonsDown == {})
  }

  /** When the session with a machine ends, no handover with it is left, and nothing it pressed; a handover with
      another machine goes on. */
  lemma SessionEndFreesTheMachine(s: State, now: Instant, peer: DeviceId)
    requires peer in s.sessions
    ensures var after := Step(s, SessionEnded(now, peer));
            && peer !in after.sessions && !Names(after, peer)
            && (if Names(s, peer) then after.control.Local? else after.control == s.control)
            && (Sound(s) && s.control.Controlled? && s.control.owner == peer ==> HandsOff(after))
            && (Sound(s) && s.control.Controlling? && s.control.target == peer ==>
                  !after.captureActive && after.settleUntil == Some(now + HANDOVER_SETTLE)
                  && (s.input.Some? ==> after.input.value.cursor == ReturnPoint(s.control.placed, s.control.peerCursor)))
            && (forall other :: other != peer ==> (other in after.sessions <==> other in s.sessions))
  {
  }

  lemma EndOfNoSessionChangesNothing(s: State, now: Instant, peer: DeviceId)
    requires peer !in s.sessions
    ensures Step(s, SessionEnded(now, peer)) == s
  {
  }

  /** Controlled by a machine there is no session with. */
  predicate OwnerGone(s: State, owner: DeviceId) {
    s.control.Controlled? && s.control.owner == owner && owner !in s.sessions
  }

  /** A takeover that is obeyed. */
  predicate Obeys(s: State, e: Event, from: DeviceId) {
    e.Incoming? && e.from == from && e.wire.Control? && e.wire.op.Enter? && !(s.control.Controlling? && Before(s.id, from))
  }

  /** What brings that about: disconnecting from the machine in control, or obeying one without a session. */
  predicate LosesItsOwner(s: State, e: Event, owner: DeviceId) {
    || (e.Disconnect? && e.peer == owner && s.control.Controlled? && s.control.owner == owner)
    || (Obeys(s, e, owner) && owner !in s.sessions)
  }

  lemma TickNamesNoNewOwner(s: State, now: Instant, position: Option<Point>, granted: bool)
    ensures var after := Tick(s, now, position, granted);
            after.sessions == s.sessions && (after.control.Controlled? ==> after.control == s.control)
            && (s.control.Controlled? ==> after.control == s.control || after.control.Local?)
  {
  }

  lemma ReleaseNamesNoOwner(s: State, now: Instant)
    ensures var after := ReleaseControl(s, now);
            after.sessions == s.sessions && !(after.control.Controlled? && s.control.Controlling?)
            && (!s.control.Controlling? ==> after.control == s.control)
  {
  }

  lemma CapturedNamesNoOwner(s: State, now: Instant, event: CapturedEvent, queued: bool)
    ensures var after := OnCaptured(s, now, event, queued);
            after.sessions == s.sessions && (after.control.Controlled? <==> s.control.Controlled?)
            && (s.control.Controlled? ==> after.control == s.control)
  {
    ReleaseNamesNoOwner(s.(input := ReleaseCapture(s.input)), now);
    ReleaseNamesNoOwner(NoteScrollLock(s, event, now), now);
  }

  lemma ArrivalNamesAnOwnerIff(s: State, now: Instant, from: DeviceId, wire: Wire, owner: DeviceId)
    ensures var e := Incoming(now, from, wire);
            var after := Step(s, e);
            && after.sessions == s.sessions
            && (Obeys(s, e, from) ==> after.control.Controlled? && after.control.owner == from)
            && (!Obeys(s, e, from) && after.control.Controlled? ==> after.control == s.control)
  {
  }

  lemma OwnerGoneIff(s: State, e: Event, owner: DeviceId)
    requires !OwnerGone(s, owner)
    ensures OwnerGone(Step(s, e), owner) <==> LosesItsOwner(s, e, owner)
  {
    if e.CursorTick? { TickNamesNoNewOwner(s, e.now, e.position, e.granted); }
    if e.Incoming? { ArrivalNamesAnOwnerIff(s, e.now, e.from, e.wire, owner); }
    if e.Captured? { CapturedNamesNoOwner(s, e.now, e.captured, e.queued); }
  }

  /** Over every run: a machine is left controlled by one it has no session with in these two ways only. */
  lemma {:induction false} OwnerGoneOnlyBy(s: State, events: seq<Event>, owner: DeviceId) returns (at: nat)
    requires !OwnerGone(s, owner) && OwnerGone(Run(s, events), owner)
    ensures at < |events| && LosesItsOwner(Run(s, events[..at]), events[at], owner)
    decreases events
  {
    if LosesItsOwner(s, events[0], owner) {
      at := 0;
      assert events[..0] == [];
    } else {
      OwnerGoneIff(s, events[0], owner);
      var rest := OwnerGoneOnlyBy(Step(s, events[0]), events[1..], owner);
      at := rest + 1;
      assert events[..at][0] == events[0] && events[..at][1..] == events[1..][..rest];
    }
  }

  /** Disconnecting gives back control that was taken, and nothing else. */
  lemma DisconnectEndsControlling(s: State, now: Instant, peer: DeviceId)
    ensures var after := Step(s, Disconnect(now, peer));
            && peer !in after.sessions && !(after.control.Controlling? && after.control.target == peer)
            && (!(s.control.Controlling? && s.control.target == peer) ==> after.control == s.control)
  {
  }

  // ---- Letting go ----

  /** Events after which a machine has let go of everything. */
  predicate LetsGo(s: State, e: Event) {
    || (e.Incoming? && e.wire.Control? && (e.wire.op.Release? || e.wire.op.ResetKeys?))
    || (e.SessionEnded? && e.peer in s.sessions && s.control.Controlled? && s.control.owner == e.peer)
    || (e.CursorTick? && s.control.Controlled? && Tick(s, e.now, e.position, e.granted).control.Local?)
  }

  lemma NothingStaysDown(s: State, e: Event)
    requires Sound(s) && LetsGo(s, e)
    ensures HandsOff(Step(s, e))
  {
  }

  // ---- Settling ----

  /** Events at `now` that put a cursor somewhere on behalf of a handover. */
  predicate Lands(s: State, e: Event, now: Instant) {
    || (e.Incoming? && e.now == now && Obeys(s, e, e.from))
    || (e.Incoming? && e.now == now && e.wire.Control? && e.wire.op.ReturnHome? && s.control.Controlling? && s.control.target == e.from)
    || (e.ReleaseRequested? && e.now == now && s.control.Controlling?)
  }

  /** For 300 milliseconds after that no tick begins or ends a handover, wherever it finds the cursor. */
  lemma QuietAfterLanding(s: State, e: Event, now: Instant, tick: Instant, position: Option<Point>, granted: bool)
    requires Lands(s, e, now) && tick < now + 300
    ensures var after := Tick(Step(s, e), tick, position, granted);
            after.control == Step(s, e).control && after.outbox == Step(s, e).outbox
  {
  }

  // ---- The release shortcut ----

  predicate Pressed(event: CapturedEvent, code: KeyCode) {
    event.Typed? && event.typedDown && event.typed == code
  }

  /** Control is back, the other machine is told where its cursor is, and this one's is where it left. */
  predicate CameHome(s: State, after: State) {
    && s.control.Controlling? && after.control.Local? && !after.captureActive
    && (s.input.Some? ==> after.input.Some? && !after.input.value.grabbed && after.input.value.cursor == ReturnPoint(s.control.placed, s.control.peerCursor))
    && (s.control.target in s.sessions ==> after.outbox == s.outbox + [(s.control.target, Control(Release(s.control.peerCursor)))])
  }

  /** Escape with the modifiers of the setting comes home, and with any others does not. */
  lemma EscapeComesHomeIff(s: State, now: Instant, event: CapturedEvent, queued: bool)
    requires s.control.Controlling? && (s.settings.hotkey.CtrlAltEscape? || s.settings.hotkey.CtrlAltCmdEscape?)
    requires !event.CaptureLost?
    ensures var after := Step(s, Captured(now, event, queued));
            var shortcut := Pressed(event, ESCAPE) && event.held.ctrl && event.held.alt
                            && (event.held.meta <==> s.settings.hotkey.CtrlAltCmdEscape?);
            if shortcut then CameHome(s, after) else after.control.Controlling? && after.control.target == s.control.target
  {
  }

  /** Scroll lock twice within 400 milliseconds comes home; a first tap only starts the count. */
  lemma TwoTapsComeHomeIff(s: State, first: Instant, second: Instant, one: CapturedEvent, two: CapturedEvent, queued: bool)
    requires s.control.Controlling? && s.settings.hotkey.ScrollLockTwice? && Pressed(one, SCROLL_LOCK) && Pressed(two, SCROLL_LOCK)
    requires s.lastScrollLock.None? && first <= second
    ensures var tapped := Step(s, Captured(first, one, queued));
            && tapped.control.Controlling?
            && (Step(tapped, Captured(second, two, queued)).control.Local? <==> second - first < 400)
  {
  }

  lemma OtherKeysDoNotComeHome(s: State, now: Instant, event: CapturedEvent, queued: bool)
    requires s.control.Controlling? && !event.CaptureLost?
    requires s.settings.hotkey.Disabled? || (s.settings.hotkey.ScrollLockTwice? && !Pressed(event, SCROLL_LOCK))
    ensures var after := Step(s, Captured(now, event, queued));
            after.control.Controlling? && after.control.target == s.control.target
  {
  }

  /** So does being asked to, or turning sharing off; neither ends being controlled. */
  lemma AskedToComeHome(s: State, now: Instant)
    ensures var asked, off := Step(s, ReleaseRequested(now)), Step(s, SetSharing(now, false));
            if s.control.Controlling? then CameHome(s, asked) && CameHome(s, off)
            else asked.control == s.control && off.control == s.control
  {
  }

  /** Losing the capture comes home too. */
  lemma LostCaptureComesHome(s: State, now: Instant, queued: bool)
    requires s.control.Controlling?
    ensures CameHome(s, Step(s, Captured(now, CaptureLost, queued)))
  {
  }
}
