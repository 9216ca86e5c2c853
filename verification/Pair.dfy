/** Two engines joined by one live session: each handler is the one of Handover.dfy, and what an
    engine sends travels to the other in order. The results of Protocol.dfy carry over because
    every step of this system is a step of that protocol, or none.

    Scope: one session for the whole run, and control messages never find the urgent queue full,
    so they stay in order (crates/ud-engine/src/engine.rs:1065-1071). Relayed input may be dropped. */
module Pair {
  import opened Wrappers
  import opened Geometry
  import opened Identity
  import H = Handover
  import P = Protocol

  datatype Pair = Pair(a: H.State, b: H.State, toA: seq<H.Wire>, toB: seq<H.Wire>)

  /** A step of the system: something happens at one machine, or a message reaches it. */
  datatype Step =
    | Happens(m: P.Machine, e: H.Event)
    | Arrives(m: P.Machine, now: H.Instant)

  /** Events within the scope: no session begins or ends, and messages arrive only through `Arrives`. */
  predicate InScope(e: H.Event) {
    e.CursorTick? || e.Captured? || e.ReleaseRequested? || e.SetSharing? || e.UpdateSettings?
    || e.PermissionChecked? || e.DisplaysChanged?
  }

  function MachineState(p: Pair, m: P.Machine): H.State {
    if m.A? then p.a else p.b
  }

  function ComingTo(p: Pair, m: P.Machine): seq<H.Wire> {
    if m.A? then p.toA else p.toB
  }

  predicate Enabled(p: Pair, step: Step) {
    match step
    case Happens(_, e) => InScope(e)
    case Arrives(m, _) => ComingTo(p, m) != []
  }

  function Wires(outbox: seq<(DeviceId, H.Wire)>): seq<H.Wire> {
    if outbox == [] then [] else [outbox[0].1] + Wires(outbox[1..])
  }

  /** Machine `m` handles an event and hands its outbox to the session. */
  function Handled(p: Pair, m: P.Machine, e: H.Event): Pair {
    var s := H.Step(MachineState(p, m).(outbox := []), e);
    if m.A? then p.(a := s, toB := p.toB + Wires(s.outbox)) else p.(b := s, toA := p.toA + Wires(s.outbox))
  }

  /** The system with the next message for `m` taken off its way. */
  function Taken(p: Pair, m: P.Machine): Pair
    requires ComingTo(p, m) != []
  {
    if m.A? then p.(toA := p.toA[1..]) else p.(toB := p.toB[1..])
  }

  function Take(p: Pair, step: Step): Pair
    requires Enabled(p, step)
  {
    match step
    case Happens(m, e) => Handled(p, m, e)
    case Arrives(m, now) =>
      var wire := ComingTo(p, m)[0];
      Handled(Taken(p, m), m, H.Incoming(now, MachineState(p, P.Other(m)).id, wire))
  }

  function Run(p: Pair, steps: seq<Step>): Pair
    decreases steps
  {
    if steps == [] then p
    else Run(if Enabled(p, steps[0]) then Take(p, steps[0]) else p, steps[1..])
  }

  /** Each machine has a session with the other and with nobody else; `a` has the smaller id. */
  predicate Joined(p: Pair) {
    && Before(p.a.id, p.b.id) && !Before(p.b.id, p.a.id)
    && p.a.sessions.Keys == {p.b.id} && p.b.sessions.Keys == {p.a.id}
    && PointsAt(p.a, p.b.id) && PointsAt(p.b, p.a.id)
    && Ordinary(p.toA) && Ordinary(p.toB)
  }

  /** A handover in either direction is with `other`. */
  predicate PointsAt(s: H.State, other: DeviceId) {
    && (s.control.Controlling? ==> s.control.target == other)
    && (s.control.Controlled? ==> s.control.owner == other)
  }

  /** No engine ever asks for `ResetKeys`. */
  predicate Ordinary(wires: seq<H.Wire>) {
    forall wire :: wire in wires ==> wire != H.Control(H.ResetKeys)
  }

  // ---- The abstraction ----

  function ModeOf(s: H.State): P.Mode {
    match s.control
    case Local => P.Local
    case Controlling(_, _, _) => P.Controlling
    case Controlled(_, _, _) => P.Controlled
  }

  function OpsOf(wire: H.Wire): seq<P.Op> {
    match wire
    case Control(Enter(_, _, _)) => [P.Enter]
    case Control(Release(_)) => [P.Release]
    case Control(ReturnHome(_)) => [P.ReturnHome]
    case Control(ResetKeys) => []
    case Input(_) => []
  }

  /** The control messages among what is in flight. */
  function Ops(wires: seq<H.Wire>): seq<P.Op> {
    if wires == [] then [] else OpsOf(wires[0]) + Ops(wires[1..])
  }

  function Abstract(p: Pair): P.Net {
    P.Net(ModeOf(p.a), ModeOf(p.b), Ops(p.toA), Ops(p.toB))
  }

  lemma {:induction false} OpsOfAppend(wires: seq<H.Wire>, more: seq<H.Wire>)
    ensures Ops(wires + more) == Ops(wires) + Ops(more)
  {
    if wires == [] {
      assert wires + more == more;
    } else {
      assert (wires + more)[1..] == wires[1..] + more;
      OpsOfAppend(wires[1..], more);
    }
  }

  lemma WiresOfOne(outbox: seq<(DeviceId, H.Wire)>)
    ensures outbox == [] ==> Wires(outbox) == []
    ensures |outbox| == 1 ==> Wires(outbox) == [outbox[0].1] && Ops(Wires(outbox)) == OpsOf(outbox[0].1)
  {
    if |outbox| == 1 {
      assert outbox[1..] == [] && Wires(outbox[1..]) == [];
      assert Wires(outbox)[1..] == [];
    }
  }

  predicate OneMachine(s: H.State, other: DeviceId) {
    s.sessions.Keys == {other} && PointsAt(s, other) && s.outbox == []
  }

  /** The same machine with the same session, and at most one message sent. */
  predicate Tidy(before: H.State, after: H.State, other: DeviceId) {
    && after.id == before.id && after.sessions.Keys == {other} && PointsAt(after, other)
    && |after.outbox| <= 1 && Ordinary(Wires(after.outbox))
  }

  /** The same, with the mode and the messages it ends up with. */
  predicate Becomes(before: H.State, after: H.State, other: DeviceId, mode: P.Mode, sent: seq<P.Op>) {
    Tidy(before, after, other) && ModeOf(after) == mode && Ops(Wires(after.outbox)) == sent
  }

  /** What an event within the scope can do to a machine: one move of the protocol, or none. */
  predicate LocalMove(before: H.State, after: H.State, other: DeviceId) {
    || Becomes(before, after, other, ModeOf(before), [])
    || (before.control.Local? && Becomes(before, after, other, P.Controlling, [P.Enter]))
    || (before.control.Controlling? && Becomes(before, after, other, P.Local, [P.Release]))
    || (before.control.Controlled? && Becomes(before, after, other, P.Local, [P.ReturnHome]))
  }

  lemma TryEngageRefines(s: H.State, other: DeviceId, position: Point, delta: Point, granted: bool)
    requires OneMachine(s, other) && s.control.Local?
    ensures LocalMove(s, H.TryEngage(s, position, delta, granted), other)
  {
    WiresOfOne(H.TryEngage(s, position, delta, granted).outbox);
  }

  lemma HandBackRefines(s: H.State, other: DeviceId, position: Point)
    requires OneMachine(s, other) && s.control.Controlled?
    ensures LocalMove(s, H.HandBack(s, position), other)
  {
    WiresOfOne(H.HandBack(s, position).outbox);
  }

  predicate SameButForInput(s: H.State, seen: H.State) {
    seen.id == s.id && seen.control == s.control && seen.sessions == s.sessions && seen.outbox == s.outbox
  }

  /** What a tick comes to. */
  lemma TickCases(s: H.State, now: H.Instant, position: Option<Point>, granted: bool)
      returns (seen: H.State, delta: Point)
    ensures SameButForInput(s, seen)
    ensures var after := H.Tick(s, now, position, granted);
            || after == seen
            || (s.control.Local? && position.Some? && after == H.TryEngage(seen, position.value, delta, granted))
            || (s.control.Controlled? && position.Some? && after == H.HandBack(seen, position.value))
  {
    var enforced := H.EnforceCapture(s, granted);
    seen, delta := if s.input.None? || position.None? then enforced else enforced.(lastCursor := position), Point(0.0, 0.0);
    if position.Some? && enforced.lastCursor.Some? {
      delta := Point(position.value.x - enforced.lastCursor.value.x, position.value.y - enforced.lastCursor.value.y);
    }
  }

  lemma TickRefines(s: H.State, other: DeviceId, now: H.Instant, position: Option<Point>, granted: bool)
    requires OneMachine(s, other)
    ensures LocalMove(s, H.Tick(s, now, position, granted), other)
  {
    var seen, delta := TickCases(s, now, position, granted);
    WiresOfOne(s.outbox);
    if position.Some? {
      if s.control.Local? { TryEngageRefines(seen, other, position.value, delta, granted); }
      if s.control.Controlled? { HandBackRefines(seen, other, position.value); }
    }
  }

  lemma ReleaseRefines(s: H.State, other: DeviceId, now: H.Instant)
    requires OneMachine(s, other)
    ensures LocalMove(s, H.ReleaseControl(s, now), other)
  {
    WiresOfOne(H.ReleaseControl(s, now).outbox);
  }

  lemma CapturedRefines(s: H.State, other: DeviceId, now: H.Instant, event: H.CapturedEvent, queued: bool)
    requires OneMachine(s, other)
    ensures LocalMove(s, H.OnCaptured(s, now, event, queued), other)
  {
    if event.CaptureLost? {
      ReleaseRefines(s.(input := H.ReleaseCapture(s.input)), other, now);
    } else if s.control.Controlling? {
      if H.IsReleaseGesture(s, event, now) {
        ReleaseRefines(H.NoteScrollLock(s, event, now), other, now);
      } else {
        WiresOfOne(H.OnCaptured(s, now, event, queued).outbox);
      }
    } else {
      WiresOfOne(s.outbox);
    }
  }

  lemma LocalEventRefines(s: H.State, other: DeviceId, e: H.Event)
    requires OneMachine(s, other) && InScope(e)
    ensures LocalMove(s, H.Step(s, e), other)
  {
    match e
    case CursorTick(now, position, granted) => TickRefines(s, other, now, position, granted);
    case Captured(now, captured, queued) => CapturedRefines(s, other, now, captured, queued);
    case _ => WiresOfOne(H.Step(s, e).outbox);
  }

  lemma ControlRefines(s: H.State, other: DeviceId, now: H.Instant, op: H.InputControl)
    requires OneMachine(s, other) && !op.ResetKeys?
    ensures var after := H.OnControl(s, now, other, op);
            var (mode, answer) := P.Receive(ModeOf(s), Before(s.id, other), OpsOf(H.Control(op))[0]);
            Becomes(s, after, other, mode, answer) && (answer == [] ==> after.outbox == [])
  {
    WiresOfOne(H.OnControl(s, now, other, op).outbox);
  }

  /** An arriving message does what the protocol says, and relayed input changes no mode. */
  lemma ArrivalRefines(s: H.State, other: DeviceId, now: H.Instant, wire: H.Wire)
    requires OneMachine(s, other) && wire != H.Control(H.ResetKeys)
    ensures var after := H.Step(s, H.Incoming(now, other, wire));
            var (mode, answer) := if OpsOf(wire) == [] then (ModeOf(s), [])
                                  else P.Receive(ModeOf(s), Before(s.id, other), OpsOf(wire)[0]);
            Becomes(s, after, other, mode, answer) && (answer == [] ==> after.outbox == [])
  {
    if wire.Control? {
      ControlRefines(s, other, now, wire.op);
    } else {
      WiresOfOne(s.outbox);
    }
  }

  /** The protocol action a step of the system amounts to, if any. */
  function ActionOf(p: Pair, step: Step): Option<P.Action>
    requires Enabled(p, step)
  {
    match step
    case Arrives(m, _) => if OpsOf(ComingTo(p, m)[0]) == [] then None else Some(P.Deliver(m))
    case Happens(m, _) =>
      var sent := Ops(Wires(MachineState(Take(p, step), m).outbox));
      if sent == [P.Enter] then Some(P.Engage(m))
      else if sent == [P.Release] then Some(P.LetGo(m))
      else if sent == [P.ReturnHome] then Some(P.HandBack(m))
      else None
  }

  /** A tidy event at one machine is a move of that machine in the protocol. */
  lemma HandledIsAMove(p: Pair, m: P.Machine, e: H.Event)
    requires Joined(p)
    requires var s := MachineState(p, m).(outbox := []);
             Tidy(s, H.Step(s, e), MachineState(p, P.Other(m)).id)
    ensures var after := H.Step(MachineState(p, m).(outbox := []), e);
            Abstract(Handled(p, m, e)) == P.Moved(Abstract(p), m, ModeOf(after), Ops(Wires(after.outbox)))
    ensures Joined(Handled(p, m, e))
  {
    var after := H.Step(MachineState(p, m).(outbox := []), e);
    OpsOfAppend(ComingTo(p, P.Other(m)), Wires(after.outbox));
  }

  /** What happens at a machine is a move of its own, with what it sent. */
  lemma HappenedIsAMove(p: Pair, m: P.Machine, e: H.Event) returns (next: Pair, mode: P.Mode, sent: seq<P.Op>)
    requires Joined(p) && InScope(e)
    ensures next == Handled(p, m, e) && Joined(next) && sent == Ops(Wires(MachineState(next, m).outbox))
    ensures Abstract(next) == P.Moved(Abstract(p), m, mode, sent)
    ensures var was := ModeOf(MachineState(p, m));
            || (mode == was && sent == [])
            || (was.Local? && mode.Controlling? && sent == [P.Enter])
            || (was.Controlling? && mode.Local? && sent == [P.Release])
            || (was.Controlled? && mode.Local? && sent == [P.ReturnHome])
  {
    var s := MachineState(p, m).(outbox := []);
    LocalEventRefines(s, MachineState(p, P.Other(m)).id, e);
    HandledIsAMove(p, m, e);
    next := Handled(p, m, e);
    mode, sent := ModeOf(MachineState(next, m)), Ops(Wires(MachineState(next, m).outbox));
  }

  lemma HappensRefines(p: Pair, m: P.Machine, e: H.Event)
    requires Joined(p) && InScope(e)
    ensures Joined(Handled(p, m, e))
    ensures match ActionOf(p, Happens(m, e))
            case None => Abstract(Handled(p, m, e)) == Abstract(p)
            case Some(act) => P.Enabled(Abstract(p), act) && Abstract(Handled(p, m, e)) == P.Act(Abstract(p), act)
  {
    var next, mode, sent := HappenedIsAMove(p, m, e);
    assert P.InFlightTo(Abstract(p), P.Other(m)) + [] == P.InFlightTo(Abstract(p), P.Other(m));
  }

  lemma TakenRefines(p: Pair, m: P.Machine)
    requires Joined(p) && ComingTo(p, m) != []
    ensures Joined(Taken(p, m)) && ComingTo(p, m)[0] != H.Control(H.ResetKeys)
    ensures var first, n := OpsOf(ComingTo(p, m)[0]), Abstract(p);
            if first == [] then Abstract(Taken(p, m)) == n
            else
              && P.InFlightTo(n, m) != [] && P.InFlightTo(n, m)[0] == first[0]
              && Abstract(Taken(p, m)) == if m.A? then n.(toA := n.toA[1..]) else n.(toB := n.toB[1..])
  {
    var coming := ComingTo(p, m);
    assert coming[0] in coming && forall wire :: wire in coming[1..] ==> wire in coming;
    assert Ops(coming) == OpsOf(coming[0]) + Ops(coming[1..]);
    if OpsOf(coming[0]) != [] { assert Ops(coming)[1..] == Ops(coming[1..]); }
  }

  /** An arrival is a move of the machine it reaches. */
  lemma ArrivedIsAMove(p: Pair, m: P.Machine, now: H.Instant) returns (next: Pair, mode: P.Mode, answer: seq<P.Op>)
    requires Joined(p) && ComingTo(p, m) != [] && Joined(Taken(p, m)) && ComingTo(p, m)[0] != H.Control(H.ResetKeys)
    ensures next == Take(p, Arrives(m, now)) && Joined(next)
    ensures Abstract(next) == P.Moved(Abstract(Taken(p, m)), m, mode, answer)
    ensures var first, was := OpsOf(ComingTo(p, m)[0]), ModeOf(MachineState(p, m));
            (mode, answer) == if first == [] then (was, []) else P.Receive(was, m.A?, first[0])
  {
    var wire, taken := ComingTo(p, m)[0], Taken(p, m);
    var s, other := MachineState(p, m).(outbox := []), MachineState(p, P.Other(m)).id;
    ArrivalRefines(s, other, now, wire);
    HandledIsAMove(taken, m, H.Incoming(now, other, wire));
    next := Take(p, Arrives(m, now));
    var after := H.Step(s, H.Incoming(now, other, wire));
    mode, answer := ModeOf(after), Ops(Wires(after.outbox));
  }

  lemma ArrivesRefines(p: Pair, m: P.Machine, now: H.Instant)
    requires Joined(p) && ComingTo(p, m) != []
    ensures var next := Take(p, Arrives(m, now));
            && Joined(next)
            && if OpsOf(ComingTo(p, m)[0]) == [] then Abstract(next) == Abstract(p)
               else P.InFlightTo(Abstract(p), m) != [] && Abstract(next) == P.DeliverTo(Abstract(p), m)
  {
    TakenRefines(p, m);
    var next, mode, answer := ArrivedIsAMove(p, m, now);
    var taken := Abstract(Taken(p, m));
    assert P.InFlightTo(taken, P.Other(m)) + [] == P.InFlightTo(taken, P.Other(m));
  }

  /** Every step of the two engines is one action of the protocol, or none at all. */
  lemma TakeRefines(p: Pair, step: Step)
    requires Joined(p) && Enabled(p, step)
    ensures Joined(Take(p, step))
    ensures match ActionOf(p, step)
            case None => Abstract(Take(p, step)) == Abstract(p)
            case Some(act) => P.Enabled(Abstract(p), act) && Abstract(Take(p, step)) == P.Act(Abstract(p), act)
  {
    match step
    case Happens(m, e) => HappensRefines(p, m, e);
    case Arrives(m, now) => ArrivesRefines(p, m, now);
  }

  /** The protocol actions a run of the system amounts to. */
  function Trace(p: Pair, steps: seq<Step>): seq<P.Action>
    decreases steps
  {
    if steps == [] then []
    else if !Enabled(p, steps[0]) then Trace(p, steps[1..])
    else
      var rest := Trace(Take(p, steps[0]), steps[1..]);
      match ActionOf(p, steps[0])
      case None => rest
      case Some(act) => [act] + rest
  }

  /** Every run of the two engines is a run of the protocol. */
  lemma {:induction false} RunRefines(p: Pair, steps: seq<Step>)
    requires Joined(p)
    ensures Joined(Run(p, steps)) && Abstract(Run(p, steps)) == P.Run(Abstract(p), Trace(p, steps))
    decreases steps
  {
    if steps != [] {
      if Enabled(p, steps[0]) {
        var next := Take(p, steps[0]);
        TakeRefines(p, steps[0]);
        RunRefines(next, steps[1..]);
        var act := ActionOf(p, steps[0]);
        if act.Some? { P.RunOne(Abstract(p), act.value, Trace(next, steps[1..]), Abstract(next)); }
      } else {
        RunRefines(p, steps[1..]);
      }
    }
  }

  predicate Initial(p: Pair) {
    Joined(p) && !p.a.control.Controlling? && !p.b.control.Controlling? && p.toA == [] && p.toB == []
  }

  /** No control message is on its way; relayed input may be. */
  predicate NoControlInFlight(p: Pair) {
    Ops(p.toA) == [] && Ops(p.toB) == []
  }

  /** No orphaned controller, for the engines themselves: whatever the two users do and however the
      messages cross, with no control message in flight a controlling machine's partner is controlled. */
  lemma NoOrphanedController(p: Pair, steps: seq<Step>)
    requires Initial(p) && NoControlInFlight(Run(p, steps))
    ensures var end := Run(p, steps);
            && (end.a.control.Controlling? ==> end.b.control.Controlled?)
            && (end.b.control.Controlling? ==> end.a.control.Controlled?)
  {
    RunRefines(p, steps);
    P.NoOrphanedController(Abstract(p), Trace(p, steps));
  }

  /** With no control message in flight a machine is controlled exactly when the other one controls it,
      but for one that is controlled although the other's last spell of control ended silently. */
  lemma ControlledIffControlling(p: Pair, steps: seq<Step>, m: P.Machine)
    requires Initial(p) && p.a.control.Local? && p.b.control.Local? && NoControlInFlight(Run(p, steps))
    ensures var here, there := MachineState(Run(p, steps), m).control, MachineState(Run(p, steps), P.Other(m)).control;
            ((there.Controlled? <==> here.Controlling?)
             <==> !(there.Controlled? && P.EndedSilently(Abstract(p), Trace(p, steps), m, false)))
  {
    RunRefines(p, steps);
    P.ControlledIffControlling(Abstract(p), Trace(p, steps), m);
  }

  predicate OnlyArrivals(steps: seq<Step>) {
    forall step :: step in steps ==> step.Arrives?
  }

  /** In every reachable state a controlling machine is backed, whatever is on its way. */
  lemma ReachableIsBacked(p: Pair, steps: seq<Step>)
    requires Initial(p)
    ensures Joined(Run(p, steps)) && P.Inv(Abstract(Run(p, steps)))
  {
    RunRefines(p, steps);
    P.RunKeepsInv(Abstract(p), Trace(p, steps));
  }

  /** Letting everything in flight arrive ends in the same two modes in whatever order and at
      whatever times the messages come, from any state of the pair at all. */
  lemma {:induction false} ArrivalsConverge(p: Pair, steps: seq<Step>)
    requires Joined(p) && OnlyArrivals(steps)
    ensures Joined(Run(p, steps)) && P.Drain(Abstract(Run(p, steps))) == P.Drain(Abstract(p))
    ensures NoControlInFlight(Run(p, steps)) ==> Abstract(Run(p, steps)) == P.Drain(Abstract(p))
    decreases steps
  {
    if steps != [] {
      assert steps[0] in steps;
      var next := if Enabled(p, steps[0]) then Take(p, steps[0]) else p;
      if Enabled(p, steps[0]) {
        TakeRefines(p, steps[0]);
        if ActionOf(p, steps[0]).Some? { P.DeliveryDoesNotChangeTheOutcome(Abstract(p), steps[0].m); }
      }
      ArrivalsConverge(next, steps[1..]);
    }
  }

  /** From any reachable state, letting everything in flight arrive leads to one pair of modes, in whatever order
      and at whatever times the messages come; and in it at most one machine controls, and the other is
      controlled by it. */
  lemma DrainingConverges(p: Pair, steps: seq<Step>, arrivals: seq<Step>)
    requires Initial(p) && OnlyArrivals(arrivals) && NoControlInFlight(Run(Run(p, steps), arrivals))
    ensures var reached, end := Run(p, steps), Run(Run(p, steps), arrivals);
            && Abstract(end) == P.Drain(Abstract(reached))
            && !(end.a.control.Controlling? && end.b.control.Controlling?)
            && (end.a.control.Controlling? ==> end.b.control.Controlled?)
            && (end.b.control.Controlling? ==> end.a.control.Controlled?)
  {
    ReachableIsBacked(p, steps);
    ArrivalsConverge(Run(p, steps), arrivals);
  }

  /** Everything in flight, a return counted with what it may be answered with. */
  function Backlog(p: Pair): nat {
    |p.toA| + |p.toB| + P.Backlog(Abstract(p))
  }

  lemma ArrivingShrinksTheBacklog(p: Pair, m: P.Machine, now: H.Instant)
    requires Joined(p) && ComingTo(p, m) != []
    ensures Backlog(Take(p, Arrives(m, now))) < Backlog(p)
  {
    var step := Arrives(m, now);
    TakeRefines(p, step);
    if ActionOf(p, step).Some? { P.DeliveringShrinksTheBacklog(Abstract(p), m); }
    var wire, s, other := ComingTo(p, m)[0], MachineState(p, m).(outbox := []), MachineState(p, P.Other(m)).id;
    assert wire in ComingTo(p, m);
    ArrivalRefines(s, other, now, wire);
    WiresOfOne(H.Step(s, H.Incoming(now, other, wire)).outbox);
  }

  predicate AllEnabled(p: Pair, steps: seq<Step>)
    decreases steps
  {
    steps == [] || (Enabled(p, steps[0]) && AllEnabled(Take(p, steps[0]), steps[1..]))
  }

  /** Letting messages arrive comes to an end: no more can than the backlog counts. */
  lemma {:induction false} DrainingTerminates(p: Pair, steps: seq<Step>)
    requires Joined(p) && OnlyArrivals(steps) && AllEnabled(p, steps)
    ensures |steps| + Backlog(Run(p, steps)) <= Backlog(p)
    decreases steps
  {
    if steps != [] {
      assert steps[0] in steps;
      TakeRefines(p, steps[0]);
      ArrivingShrinksTheBacklog(p, steps[0].m, steps[0].now);
      DrainingTerminates(Take(p, steps[0]), steps[1..]);
    }
  }
}
