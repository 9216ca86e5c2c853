/** A visit of one machine's cursor to the other, step by step and message by message: where both cursors
    land, and that neither landing starts the next handover by itself. */
module Visit {
  import opened Wrappers
  import opened Geometry
  import opened Layout
  import opened Identity
  import H = Handover
  import P = Protocol
  import N = Pair

  /** Nothing is on its way, and both machines can move their cursors. */
  predicate Quiet(p: N.Pair) {
    N.Joined(p) && p.toA == [] && p.toB == [] && p.a.input.Some? && p.b.input.Some?
  }

  /** Machine `m` has handed its input over, and the other one takes it. */
  predicate Away(p: N.Pair, m: P.Machine) {
    && Quiet(p) && N.MachineState(p, m).control.Controlling? && N.MachineState(p, P.Other(m)).control.Controlled?
    && N.MachineState(p, P.Other(m)).captureActive == false
  }

  predicate AtHome(s: H.State) {
    s.control.Local? && !s.captureActive
  }

  function Cursor(p: N.Pair, m: P.Machine): Point
    requires N.MachineState(p, m).input.Some?
  {
    N.MachineState(p, m).input.value.cursor
  }

  /** Nothing is swallowed and nothing is pressed on behalf of the other machine. */
  predicate HandsOff(s: H.State) {
    s.input.Some? && !s.input.value.grabbed && s.heldKeys == {} && s.heldButtons == {}
  }

  // ---- One machine at a time ----

  lemma Departure(s: H.State, other: DeviceId, now: H.Instant, at: Point, granted: bool)
      returns (after: H.State, link: EdgeLink, placed: PlacedPeer)
    requires N.OneMachine(s, other) && AtHome(s) && s.input.Some?
    requires H.Tick(s, now, Some(at), granted).control.Controlling?
    ensures after == H.Tick(s, now, Some(at), granted)
    ensures H.PushedLink(s.links, s.desktop, at, Drift(s, at), H.Tolerance(s.settings)) == Some(link) && link.peer == other
    ensures placed == PlacePeer(s.desktop, DesktopBounds(s.sessions[other].displays), link)
    ensures after.control == H.Controlling(other, placed, EntryPoint(placed, at)) && after.captureActive
    ensures after.input == Some(s.input.value.(grabbed := true))
    ensures after.outbox == [(other, H.Control(H.Enter(EntryPoint(placed, at), link.remoteSide, s.settings.relayKeyboard)))]
  {
    after := H.Tick(s, now, Some(at), granted);
    link := H.PushedLink(s.links, s.desktop, at, Drift(s, at), H.Tolerance(s.settings)).value;
    placed := PlacePeer(s.desktop, DesktopBounds(s.sessions[other].displays), link);
  }

  /** How far the cursor has moved since it was last seen. */
  function Drift(s: H.State, at: Point): Point {
    if s.lastCursor.Some? then Point(at.x - s.lastCursor.value.x, at.y - s.lastCursor.value.y) else Point(0.0, 0.0)
  }

  lemma HandingBack(s: H.State, other: DeviceId, now: H.Instant, exit: Point, granted: bool) returns (after: H.State)
    requires N.OneMachine(s, other) && s.control.Controlled? && !s.captureActive && s.input.Some?
    requires H.Tick(s, now, Some(exit), granted).control.Local?
    ensures after == H.Tick(s, now, Some(exit), granted) && AtHome(after)
    ensures after.outbox == [(other, H.Control(H.ReturnHome(exit)))]
    ensures after.heldKeys == {} && after.heldButtons == {} && after.input.Some?
    ensures after.input.value.grabbed == s.input.value.grabbed
  {
    after := H.Tick(s, now, Some(exit), granted);
  }

  // ---- The system ----

  /** Something happens at `m` that makes it send one message. */
  lemma Emits(p: N.Pair, m: P.Machine, e: H.Event, after: H.State, wire: H.Wire) returns (next: N.Pair)
    requires N.Joined(p) && N.InScope(e) && N.ComingTo(p, P.Other(m)) == []
    requires after == H.Step(N.MachineState(p, m).(outbox := []), e)
    requires after.outbox == [(N.MachineState(p, P.Other(m)).id, wire)]
    ensures next == N.Take(p, N.Happens(m, e)) && N.Joined(next)
    ensures N.MachineState(next, m) == after && N.MachineState(next, P.Other(m)) == N.MachineState(p, P.Other(m))
    ensures N.ComingTo(next, P.Other(m)) == [wire] && N.ComingTo(next, m) == N.ComingTo(p, m)
  {
    N.TakeRefines(p, N.Happens(m, e));
    next := N.Take(p, N.Happens(m, e));
    N.WiresOfOne(after.outbox);
  }

  /** The one message on its way to `m` arrives, and `m` answers with at most one. */
  lemma Reaches(p: N.Pair, m: P.Machine, now: H.Instant, wire: H.Wire, after: H.State) returns (next: N.Pair)
    requires N.Joined(p) && N.ComingTo(p, m) == [wire] && N.ComingTo(p, P.Other(m)) == []
    requires after == H.Step(N.MachineState(p, m).(outbox := []), H.Incoming(now, N.MachineState(p, P.Other(m)).id, wire))
    requires |after.outbox| <= 1
    ensures next == N.Take(p, N.Arrives(m, now)) && N.Joined(next)
    ensures N.MachineState(next, m) == after && N.MachineState(next, P.Other(m)) == N.MachineState(p, P.Other(m))
    ensures N.ComingTo(next, m) == []
    ensures N.ComingTo(next, P.Other(m)) == if after.outbox == [] then [] else [after.outbox[0].1]
  {
    N.TakeRefines(p, N.Arrives(m, now));
    next := N.Take(p, N.Arrives(m, now));
    N.WiresOfOne(after.outbox);
  }

  /** What the two machines tell each other in a visit, and where that puts their cursors. */
  lemma Entered(t: H.State, from: DeviceId, now: H.Instant, entry: Point, side: Side, keyboard: bool) returns (after: H.State)
    requires AtHome(t) && t.input.Some?
    ensures after == H.Step(t.(outbox := []), H.Incoming(now, from, H.Control(H.Enter(entry, side, keyboard))))
    ensures after.control == H.Controlled(from, side, keyboard) && !after.captureActive && after.outbox == []
    ensures after.input == Some(t.input.value.(cursor := entry))
  {
    after := H.Step(t.(outbox := []), H.Incoming(now, from, H.Control(H.Enter(entry, side, keyboard))));
  }

  lemma CalledHome(s: H.State, other: DeviceId, now: H.Instant, exit: Point) returns (after: H.State)
    requires s.control.Controlling? && s.control.target == other && other in s.sessions && s.input.Some?
    ensures after == H.Step(s.(outbox := []), H.Incoming(now, other, H.Control(H.ReturnHome(exit))))
    ensures AtHome(after) && after.outbox == [(other, H.Control(H.Release(exit)))]
    ensures after.input == Some(s.input.value.(grabbed := false, cursor := ReturnPoint(s.control.placed, exit)))
    ensures after.heldKeys == s.heldKeys && after.heldButtons == s.heldButtons
  {
    after := H.Step(s.(outbox := []), H.Incoming(now, other, H.Control(H.ReturnHome(exit))));
  }

  lemma LetGo(t: H.State, other: DeviceId, now: H.Instant, at: Point) returns (after: H.State)
    requires AtHome(t) && t.input.Some?
    ensures after == H.Step(t.(outbox := []), H.Incoming(now, other, H.Control(H.Release(at))))
    ensures AtHome(after) && after.outbox == [] && after.heldKeys == {} && after.heldButtons == {}
    ensures after.input.Some? && after.input.value.cursor == at && after.input.value.grabbed == t.input.value.grabbed
  {
    after := H.Step(t.(outbox := []), H.Incoming(now, other, H.Control(H.Release(at))));
  }

  lemma EntersThere(p: N.Pair, m: P.Machine, later: H.Instant, entry: Point, side: Side, keyboard: bool) returns (end: N.Pair)
    requires N.Joined(p) && N.ComingTo(p, m) == [] && N.ComingTo(p, P.Other(m)) == [H.Control(H.Enter(entry, side, keyboard))]
    requires N.MachineState(p, m).control.Controlling? && N.MachineState(p, m).input.Some?
    requires AtHome(N.MachineState(p, P.Other(m))) && N.MachineState(p, P.Other(m)).input.Some?
    ensures end == N.Take(p, N.Arrives(P.Other(m), later)) && Away(end, m)
    ensures N.MachineState(end, m) == N.MachineState(p, m) && Cursor(end, P.Other(m)) == entry
    ensures N.MachineState(end, P.Other(m)).control == H.Controlled(N.MachineState(p, m).id, side, keyboard)
  {
    var entered := Entered(N.MachineState(p, P.Other(m)), N.MachineState(p, m).id, later, entry, side, keyboard);
    end := Reaches(p, P.Other(m), later, H.Control(H.Enter(entry, side, keyboard)), entered);
  }

  /** From rest, pushing the cursor over an edge takes it to the other machine: to the entry point of the
      link that was pushed, as this machine has placed the other. */
  lemma Takeover(p: N.Pair, m: P.Machine, now: H.Instant, at: Point, granted: bool, later: H.Instant)
      returns (sent: N.Pair, end: N.Pair, link: EdgeLink, placed: PlacedPeer)
    requires Quiet(p) && AtHome(N.MachineState(p, m)) && AtHome(N.MachineState(p, P.Other(m)))
    requires H.Tick(N.MachineState(p, m).(outbox := []), now, Some(at), granted).control.Controlling?
    ensures sent == N.Take(p, N.Happens(m, H.CursorTick(now, Some(at), granted)))
    ensures N.ComingTo(sent, P.Other(m)) != [] && end == N.Take(sent, N.Arrives(P.Other(m), later)) && Away(end, m)
    ensures var s, t := N.MachineState(p, m), N.MachineState(p, P.Other(m));
            && t.id in s.sessions && placed == PlacePeer(s.desktop, DesktopBounds(s.sessions[t.id].displays), link)
            && H.PushedLink(s.links, s.desktop, at, Drift(s, at), H.Tolerance(s.settings)) == Some(link)
            && N.MachineState(end, m).control == H.Controlling(t.id, placed, EntryPoint(placed, at))
            && N.MachineState(end, P.Other(m)).control == H.Controlled(s.id, link.remoteSide, s.settings.relayKeyboard)
    ensures Cursor(end, P.Other(m)) == EntryPoint(placed, at) && Cursor(end, m) == Cursor(p, m)
  {
    var s, t := N.MachineState(p, m), N.MachineState(p, P.Other(m));
    var after;
    after, link, placed := Departure(s.(outbox := []), t.id, now, at, granted);
    var entry, side, keyboard := EntryPoint(placed, at), link.remoteSide, s.settings.relayKeyboard;
    sent := Emits(p, m, H.CursorTick(now, Some(at), granted), after, H.Control(H.Enter(entry, side, keyboard)));
    end := EntersThere(sent, m, later, entry, side, keyboard);
  }

  /** Everything about `m` is as it should be after a visit; the other machine has yet to hear so. */
  predicate Ending(p: N.Pair, m: P.Machine, home: Point, exit: Point) {
    var s, t := N.MachineState(p, m), N.MachineState(p, P.Other(m));
    && N.Joined(p) && N.ComingTo(p, m) == [] && N.ComingTo(p, P.Other(m)) == [H.Control(H.Release(exit))]
    && AtHome(s) && HandsOff(s) && s.input.value.cursor == home
    && AtHome(t) && t.input.Some? && !t.input.value.grabbed
  }

  lemma HandedHome(p: N.Pair, m: P.Machine, back: H.State, exit: Point, t1: H.Instant) returns (answered: N.Pair)
    requires N.Joined(p) && N.ComingTo(p, m) == [H.Control(H.ReturnHome(exit))] && N.ComingTo(p, P.Other(m)) == []
    requires back == N.MachineState(p, P.Other(m)) && AtHome(back) && back.input.Some? && !back.input.value.grabbed
    requires var s := N.MachineState(p, m);
             s.control.Controlling? && s.input.Some? && s.heldKeys == {} && s.heldButtons == {}
    ensures answered == N.Take(p, N.Arrives(m, t1))
    ensures Ending(answered, m, ReturnPoint(N.MachineState(p, m).control.placed, exit), exit)
  {
    var home := CalledHome(N.MachineState(p, m), back.id, t1, exit);
    answered := Reaches(p, m, t1, H.Control(H.ReturnHome(exit)), home);
  }

  lemma LastRelease(p: N.Pair, m: P.Machine, home: Point, exit: Point, t2: H.Instant) returns (end: N.Pair)
    requires Ending(p, m, home, exit)
    ensures end == N.Take(p, N.Arrives(P.Other(m), t2)) && Over(end, m, home, exit)
  {
    var over := LetGo(N.MachineState(p, P.Other(m)), N.MachineState(p, m).id, t2, exit);
    end := Reaches(p, P.Other(m), t2, H.Control(H.Release(exit)), over);
  }

  /** Both machines are at rest, with nothing pressed, swallowed or on its way, and their cursors put. */
  predicate Over(p: N.Pair, m: P.Machine, home: Point, exit: Point) {
    && Quiet(p) && AtHome(p.a) && AtHome(p.b) && HandsOff(p.a) && HandsOff(p.b)
    && Cursor(p, m) == home && Cursor(p, P.Other(m)) == exit
  }

  /** The other machine hands back at `exit`: the visitor's cursor comes home, level with where it left, and the
      other machine's cursor stays there. */
  lemma Homecoming(p: N.Pair, m: P.Machine, now: H.Instant, exit: Point, granted: bool, t1: H.Instant, t2: H.Instant)
      returns (handed: N.Pair, answered: N.Pair, end: N.Pair)
    requires Away(p, m) && !N.MachineState(p, P.Other(m)).input.value.grabbed
    requires N.MachineState(p, m).heldKeys == {} && N.MachineState(p, m).heldButtons == {}
    requires H.Tick(N.MachineState(p, P.Other(m)).(outbox := []), now, Some(exit), granted).control.Local?
    ensures handed == N.Take(p, N.Happens(P.Other(m), H.CursorTick(now, Some(exit), granted)))
    ensures N.ComingTo(handed, m) != [] && answered == N.Take(handed, N.Arrives(m, t1))
    ensures N.ComingTo(answered, P.Other(m)) != [] && end == N.Take(answered, N.Arrives(P.Other(m), t2))
    ensures Over(end, m, ReturnPoint(N.MachineState(p, m).control.placed, exit), exit)
  {
    var s, t := N.MachineState(p, m), N.MachineState(p, P.Other(m));
    var back := HandingBack(t.(outbox := []), s.id, now, exit, granted);
    handed := Emits(p, P.Other(m), H.CursorTick(now, Some(exit), granted), back, H.Control(H.ReturnHome(exit)));
    answered := HandedHome(handed, m, back, exit, t1);
    end := LastRelease(answered, m, ReturnPoint(s.control.placed, exit), exit, t2);
  }

  // ---- Neither landing starts a handover ----

  /** A tick that finds the cursor where it entered hands it back only if the edge tolerance set on that
      machine reaches the inset, and even then not while settling or without an outward push. */
  lemma EnteringStaysIff(t: H.State, here: Rect, link: EdgeLink, from: Point, now: H.Instant, granted: bool)
    requires t.control.Controlled? && t.control.returnSide == link.remoteSide && t.input.Some? && !t.captureActive
    requires 0.0 <= t.desktop.width && 0.0 <= t.desktop.height && UsableRange(link.remoteRange)
    ensures var entry := EntryPoint(PlacePeer(here, t.desktop, link), from);
            var push := Drift(t, entry);
            H.Tick(t, now, Some(entry), granted) == t.(lastCursor := Some(entry))
            <==> t.settings.edgeArmedPixels < INSET || H.Settling(t.settleUntil, now) || !IsOutward(link.remoteSide, push.x, push.y)
  {
    EntryIsInset(here, t.desktop, link, from);
    InsetAgainstItsEdge(t.desktop, link.remoteSide, EntryPoint(PlacePeer(here, t.desktop, link), from), H.Tolerance(t.settings));
  }

  lemma {:induction false} PushedLinkIsPushed(links: seq<EdgeLink>, desktop: Rect, at: Point, delta: Point, tolerance: real)
    ensures var found := H.PushedLink(links, desktop, at, delta, tolerance);
            found.Some? ==> found.value in links && H.Pushes(found.value, desktop, at, delta, tolerance)
  {
    if links != [] { PushedLinkIsPushed(links[1..], desktop, at, delta, tolerance); }
  }

  /** A cursor that has just come home over an edge does not leave again over that edge, whenever the next tick
      comes: if any link is pushed it lies on another edge, and if none is the machine stays at rest. */
  lemma ComingHomeStays(s: H.State, there: Rect, link: EdgeLink, exit: Point, now: H.Instant, granted: bool)
    requires AtHome(s) && s.input.Some?
    requires 0.0 <= s.desktop.width && 0.0 <= s.desktop.height && UsableRange(link.localRange)
    requires s.settings.edgeArmedPixels < INSET
    ensures var home := ReturnPoint(PlacePeer(s.desktop, there, link), exit);
            var found := H.PushedLink(s.links, s.desktop, home, Drift(s, home), H.Tolerance(s.settings));
            && (found.Some? ==> found.value in s.links && found.value.localSide != link.localSide)
            && (found.None? ==> H.Tick(s, now, Some(home), granted) == s.(lastCursor := Some(home)))
  {
    var home := ReturnPoint(PlacePeer(s.desktop, there, link), exit);
    ReturnIsInset(s.desktop, there, link, exit);
    InsetAgainstItsEdge(s.desktop, link.localSide, home, H.Tolerance(s.settings));
    PushedLinkIsPushed(s.links, s.desktop, home, Drift(s, home), H.Tolerance(s.settings));
  }
}
