/** Two engines that reach what Protocol.dfy shows to be possible: one is controlled, and nobody controls it
    (crates/ud-engine/src/engine.rs:1323-1352 and 1747-1807). */
module Orphan {
  import opened Wrappers
  import opened Geometry
  import opened Layout
  import opened Identity
  import H = Handover
  import P = Protocol
  import N = Pair

  const DESKTOP := Rect(0.0, 0.0, 1920.0, 1080.0)
  const SETTINGS := H.InputSettings(true, 1.0, true, H.Disabled, 2.0)

  function LinkTo(other: DeviceId, side: Side): EdgeLink {
    EdgeLink(other, side, side.Opposite(), (0.0, 1.0), (0.0, 1.0), true)
  }

  /** A machine with one link, to the other machine, and everything granted. */
  predicate Ready(s: H.State, id: DeviceId, other: DeviceId, side: Side) {
    && s.id == id && s.desktop == DESKTOP && s.settings == SETTINGS && s.links == [LinkTo(other, side)]
    && s.sessions == map[other := H.SessionInfo(true, [DESKTOP])] && !s.permissionMissing && s.input.Some?
    && (!s.control.Controlling? ==> !s.captureActive)
  }

  function Machine(id: DeviceId, other: DeviceId, side: Side, cursor: Point): H.State {
    H.State(id, DESKTOP, SETTINGS, [LinkTo(other, side)], map[other := H.SessionInfo(true, [DESKTOP])], false,
            H.Local, false, Some(cursor), {}, {}, None, None, Some(H.Platform({}, {}, {}, false, cursor)), [])
  }

  /** The cursor was `from` and is pushed outward to `at`, at the edge. */
  predicate Pushed(s: H.State, side: Side, now: H.Instant, from: Point, at: Point) {
    && s.lastCursor == Some(from) && !H.Settling(s.settleUntil, now)
    && HitsEdge(DESKTOP, side, at, 2.0) && IsOutward(side, at.x - from.x, at.y - from.y)
  }

  // ---- What the engines do on the way ----

  lemma Engages(s: H.State, id: DeviceId, other: DeviceId, side: Side, now: H.Instant, from: Point, at: Point)
      returns (after: H.State, wire: H.Wire)
    requires Ready(s, id, other, side) && s.control.Local? && s.outbox == [] && Pushed(s, side, now, from, at)
    ensures after == H.Tick(s, now, Some(at), true) && Ready(after, id, other, side)
    ensures after.control.Controlling? && after.control.target == other
    ensures after.outbox == [(other, wire)] && wire.Control? && wire.op.Enter? && wire.op.returnSide == side.Opposite()
    ensures after.settleUntil == s.settleUntil
  {
    assert H.Pushes(s.links[0], s.desktop, at, Point(at.x - from.x, at.y - from.y), 2.0);
    after := H.Tick(s, now, Some(at), true);
    wire := after.outbox[0].1;
  }

  lemma OnlyLooks(s: H.State, id: DeviceId, other: DeviceId, side: Side, now: H.Instant, at: Point) returns (after: H.State)
    requires Ready(s, id, other, side) && s.control.Controlled? && s.outbox == [] && s.lastCursor.None?
    ensures after == H.Tick(s, now, Some(at), true) && after == s.(lastCursor := Some(at)) && Ready(after, id, other, side)
  {
    after := H.Tick(s, now, Some(at), true);
  }

  lemma HandsBack(s: H.State, id: DeviceId, other: DeviceId, side: Side, now: H.Instant, from: Point, at: Point)
      returns (after: H.State)
    requires Ready(s, id, other, side) && s.control == H.Controlled(other, side, true) && s.outbox == []
    requires Pushed(s, side, now, from, at)
    ensures after == H.Tick(s, now, Some(at), true) && Ready(after, id, other, side) && after.control.Local?
    ensures after.outbox == [(other, H.Control(H.ReturnHome(at)))]
    ensures after.lastCursor == Some(at) && after.settleUntil == s.settleUntil
  {
    after := H.Tick(s, now, Some(at), true);
  }

  lemma Hears(s: H.State, id: DeviceId, other: DeviceId, side: Side, now: H.Instant, op: H.InputControl)
      returns (after: H.State)
    requires Ready(s, id, other, side) && s.outbox == [] && !op.ResetKeys?
    requires op.Enter? ==> s.control.Local?
    requires op.ReturnHome? ==> s.control.Controlling? && s.control.target == other
    ensures after == H.OnControl(s, now, other, op)
    ensures op.Enter? ==>
              Ready(after, id, other, side) && after.control == H.Controlled(other, op.returnSide, op.keyboard)
              && after.outbox == [] && after.lastCursor.None? && after.settleUntil == Some(now + H.HANDOVER_SETTLE)
    ensures op.ReturnHome? ==>
              Ready(after, id, other, side) && after.control.Local? && after.outbox == [(other, H.Control(H.Release(op.at)))]
    ensures op.Release? ==> after.control.Local? && after.outbox == []
  {
    after := H.OnControl(s, now, other, op);
  }

  // ---- Runs, one step at a time ----

  lemma {:induction false} RunOneMore(p: N.Pair, steps: seq<N.Step>, step: N.Step)
    requires N.Enabled(N.Run(p, steps), step)
    ensures N.Run(p, steps + [step]) == N.Take(N.Run(p, steps), step)
    decreases steps
  {
    if steps == [] {
      assert [] + [step] == [step] && [step][1..] == [];
    } else {
      assert (steps + [step])[1..] == steps[1..] + [step];
      RunOneMore(if N.Enabled(p, steps[0]) then N.Take(p, steps[0]) else p, steps[1..], step);
    }
  }

  /** A tick at `m`, and what it sends. */
  lemma Ticks(p: N.Pair, m: P.Machine, now: H.Instant, at: Point, after: H.State, sent: seq<H.Wire>) returns (next: N.Pair)
    requires after == H.Tick(N.MachineState(p, m).(outbox := []), now, Some(at), true) && N.Wires(after.outbox) == sent
    ensures next == N.Take(p, N.Happens(m, H.CursorTick(now, Some(at), true)))
    ensures N.MachineState(next, m) == after && N.MachineState(next, P.Other(m)) == N.MachineState(p, P.Other(m))
    ensures N.ComingTo(next, P.Other(m)) == N.ComingTo(p, P.Other(m)) + sent && N.ComingTo(next, m) == N.ComingTo(p, m)
  {
    next := N.Take(p, N.Happens(m, H.CursorTick(now, Some(at), true)));
  }

  /** A message that reaches `m`, and what is sent in answer. */
  lemma Gets(p: N.Pair, m: P.Machine, now: H.Instant, op: H.InputControl, more: seq<H.Wire>, after: H.State, sent: seq<H.Wire>)
      returns (next: N.Pair)
    requires N.ComingTo(p, m) == [H.Control(op)] + more && N.Wires(after.outbox) == sent
    requires after == H.OnControl(N.MachineState(p, m).(outbox := []), now, N.MachineState(p, P.Other(m)).id, op)
    ensures next == N.Take(p, N.Arrives(m, now))
    ensures N.MachineState(next, m) == after && N.MachineState(next, P.Other(m)) == N.MachineState(p, P.Other(m))
    ensures N.ComingTo(next, m) == more && N.ComingTo(next, P.Other(m)) == N.ComingTo(p, P.Other(m)) + sent
  {
    assert ([H.Control(op)] + more)[1..] == more;
    next := N.Take(p, N.Arrives(m, now));
  }

  // ---- The run ----

  predicate BothReady(p: N.Pair) {
    Ready(p.a, "a", "b", Right) && Ready(p.b, "b", "a", Left)
  }

  function Start(): N.Pair {
    N.Pair(Machine("a", "b", Right, Point(1900.0, 500.0)), Machine("b", "a", Left, Point(900.0, 500.0)), [], [])
  }

  function TickOf(m: P.Machine, now: H.Instant, x: real): N.Step {
    N.Happens(m, H.CursorTick(now, Some(Point(x, 500.0)), true))
  }

  /** `a` takes over, and `b` hears of it. */
  lemma FirstTakeover(p: N.Pair) returns (q: N.Pair, r: N.Pair)
    requires p == Start()
    ensures q == N.Take(p, TickOf(P.A, 0, 1919.0)) && q.toB != [] && r == N.Take(q, N.Arrives(P.B, 0))
    ensures BothReady(r) && r.toA == [] && r.toB == [] && r.a.control.Controlling? && r.a.control.target == "b"
    ensures r.b.control == H.Controlled("a", Left, true) && r.b.lastCursor.None? && r.b.settleUntil == Some(300)
  {
    var engaged, wire := Engages(p.a, "a", "b", Right, 0, Point(1900.0, 500.0), Point(1919.0, 500.0));
    N.WiresOfOne(engaged.outbox);
    q := Ticks(p, P.A, 0, Point(1919.0, 500.0), engaged, [wire]);
    var heard := Hears(q.b.(outbox := []), "b", "a", Left, 0, wire.op);
    N.WiresOfOne(heard.outbox);
    r := Gets(q, P.B, 0, wire.op, [], heard, []);
  }

  /** `b` hands back at the edge it was entered through, and is pushed on over that edge. */
  lemma CrossedTakeover(p: N.Pair) returns (q: N.Pair, r: N.Pair, t: N.Pair, enter: H.Wire)
    requires BothReady(p) && p.toA == [] && p.toB == []
    requires p.b.control == H.Controlled("a", Left, true) && p.b.lastCursor.None? && p.b.settleUntil == Some(300)
    ensures q == N.Take(p, TickOf(P.B, 400, 10.0)) && r == N.Take(q, TickOf(P.B, 400, 1.0))
    ensures t == N.Take(r, TickOf(P.B, 400, 0.0))
    ensures t.a == p.a && Ready(t.b, "b", "a", Left) && t.toB == []
    ensures enter.Control? && enter.op.Enter? && t.toA == [H.Control(H.ReturnHome(Point(1.0, 500.0))), enter]
  {
    var looked := OnlyLooks(p.b.(outbox := []), "b", "a", Left, 400, Point(10.0, 500.0));
    q := Ticks(p, P.B, 400, Point(10.0, 500.0), looked, []);
    var back := HandsBack(looked, "b", "a", Left, 400, Point(10.0, 500.0), Point(1.0, 500.0));
    N.WiresOfOne(back.outbox);
    r := Ticks(q, P.B, 400, Point(1.0, 500.0), back, [H.Control(H.ReturnHome(Point(1.0, 500.0)))]);
    var engaged;
    engaged, enter := Engages(back.(outbox := []), "b", "a", Left, 400, Point(1.0, 500.0), Point(0.0, 500.0));
    N.WiresOfOne(engaged.outbox);
    t := Ticks(r, P.B, 400, Point(0.0, 500.0), engaged, [enter]);
  }

  /** `a` comes home and is taken over; its release reaches `b`, which is in control by then. */
  lemma CrossedRelease(p: N.Pair, enter: H.Wire) returns (q: N.Pair, r: N.Pair, t: N.Pair)
    requires BothReady(p) && p.a.control.Controlling? && p.a.control.target == "b" && p.toB == []
    requires enter.Control? && enter.op.Enter? && p.toA == [H.Control(H.ReturnHome(Point(1.0, 500.0))), enter]
    ensures q == N.Take(p, N.Arrives(P.A, 500)) && q.toA != []
    ensures r == N.Take(q, N.Arrives(P.A, 500)) && r.toB != [] && t == N.Take(r, N.Arrives(P.B, 500))
    ensures t.a.control.Controlled? && t.b.control.Local? && t.toA == [] && t.toB == []
  {
    var home, exit := H.ReturnHome(Point(1.0, 500.0)), Point(1.0, 500.0);
    var released := Hears(p.a.(outbox := []), "a", "b", Right, 500, home);
    N.WiresOfOne(released.outbox);
    assert p.toA == [H.Control(home)] + [enter];
    q := Gets(p, P.A, 500, home, [enter], released, [H.Control(H.Release(exit))]);
    var entered := Hears(released.(outbox := []), "a", "b", Right, 500, enter.op);
    N.WiresOfOne(entered.outbox);
    r := Gets(q, P.A, 500, enter.op, [], entered, []);
    var over := Hears(r.b.(outbox := []), "b", "a", Left, 500, H.Release(exit));
    N.WiresOfOne(over.outbox);
    t := Gets(r, P.B, 500, H.Release(exit), [], over, []);
  }

  lemma RunTwo(p: N.Pair, done: seq<N.Step>, first: N.Step, second: N.Step)
    requires N.Enabled(N.Run(p, done), first) && N.Enabled(N.Take(N.Run(p, done), first), second)
    ensures N.Run(p, done + [first, second]) == N.Take(N.Take(N.Run(p, done), first), second)
  {
    RunOneMore(p, done, first);
    RunOneMore(p, done + [first], second);
    assert done + [first, second] == (done + [first]) + [second];
  }

  lemma RunThree(p: N.Pair, done: seq<N.Step>, first: N.Step, second: N.Step, third: N.Step)
    requires N.Enabled(N.Run(p, done), first) && N.Enabled(N.Take(N.Run(p, done), first), second)
    requires N.Enabled(N.Take(N.Take(N.Run(p, done), first), second), third)
    ensures N.Run(p, done + [first, second, third]) == N.Take(N.Take(N.Take(N.Run(p, done), first), second), third)
  {
    RunTwo(p, done, first, second);
    RunOneMore(p, done + [first, second], third);
    assert done + [first, second, third] == (done + [first, second]) + [third];
  }

  function Takeover(): seq<N.Step> {
    [TickOf(P.A, 0, 1919.0), N.Arrives(P.B, 0)]
  }

  function HandBackAndTakeover(): seq<N.Step> {
    [TickOf(P.B, 400, 10.0), TickOf(P.B, 400, 1.0), TickOf(P.B, 400, 0.0)]
  }

  function Deliveries(): seq<N.Step> {
    [N.Arrives(P.A, 500), N.Arrives(P.A, 500), N.Arrives(P.B, 500)]
  }

  lemma UpToTheCrossing() returns (p: N.Pair, enter: H.Wire)
    ensures p == N.Run(Start(), Takeover() + HandBackAndTakeover())
    ensures BothReady(p) && p.a.control.Controlling? && p.a.control.target == "b" && p.toB == []
    ensures enter.Control? && enter.op.Enter? && p.toA == [H.Control(H.ReturnHome(Point(1.0, 500.0))), enter]
  {
    var sent, taken := FirstTakeover(Start());
    RunTwo(Start(), [], TickOf(P.A, 0, 1919.0), N.Arrives(P.B, 0));
    assert [] + Takeover() == Takeover();
    var looked, back;
    looked, back, p, enter := CrossedTakeover(taken);
    RunThree(Start(), Takeover(), TickOf(P.B, 400, 10.0), TickOf(P.B, 400, 1.0), TickOf(P.B, 400, 0.0));
  }

  lemma StartIsInitial()
    ensures N.Initial(Start()) && H.Initial(Start().a) && H.Initial(Start().b)
  {
  }

  /** Two engines at rest, eight steps, and one of them is controlled by nobody: nothing is on its way, and the
      other one is in control of itself. */
  lemma ControlledCanBeOrphaned()
    ensures N.Initial(Start()) && H.Initial(Start().a) && H.Initial(Start().b)
    ensures var end := N.Run(Start(), Takeover() + HandBackAndTakeover() + Deliveries());
            end.a.control.Controlled? && end.b.control.Local? && end.toA == [] && end.toB == []
  {
    StartIsInitial();
    var p, enter := UpToTheCrossing();
    var home, taken, end := CrossedRelease(p, enter);
    RunThree(Start(), Takeover() + HandBackAndTakeover(), N.Arrives(P.A, 500), N.Arrives(P.A, 500), N.Arrives(P.B, 500));
  }
}
