/** The handover protocol of two machines, reduced to who drives whom.

    `a` is the machine with the smaller device id, the one that keeps control when two takeovers
    cross. Pair.dfy proves that two engines joined by their queues never do anything this protocol
    does not (crates/ud-engine/src/engine.rs:1298-1355, 1357-1543, 1747-1807). */
module Protocol {

  datatype Mode = Local | Controlling | Controlled

  datatype Op = Enter | Release | ReturnHome

  /** Modes, and the control messages in flight in each direction, oldest first. */
  datatype Net = Net(a: Mode, b: Mode, toA: seq<Op>, toB: seq<Op>)

  datatype Machine = A | B

  datatype Action =
    | Engage(m: Machine)    // the cursor is pushed over a linked edge
    | LetGo(m: Machine)     // the user, or a lost capture, ends the handover
    | HandBack(m: Machine)  // the cursor reaches the returning edge
    | Deliver(m: Machine)   // the oldest message to this machine arrives

  /** What a message does to the machine it reaches, and what that machine answers. */
  function Receive(mode: Mode, winsTies: bool, op: Op): (Mode, seq<Op>) {
    match op
    case Enter => if mode.Controlling? && winsTies then (mode, []) else (Controlled, [])
    case Release => (Local, [])
    case ReturnHome => if mode.Controlling? then (Local, [Release]) else (mode, [])
  }

  function ModeOf(n: Net, m: Machine): Mode {
    if m.A? then n.a else n.b
  }

  /** Messages on their way to a machine. */
  function InFlightTo(n: Net, m: Machine): seq<Op> {
    if m.A? then n.toA else n.toB
  }

  function Other(m: Machine): Machine {
    if m.A? then B else A
  }

  /** Machine `m` changes mode and sends `ops`. */
  function Moved(n: Net, m: Machine, mode: Mode, ops: seq<Op>): Net {
    if m.A? then n.(a := mode, toB := n.toB + ops) else n.(b := mode, toA := n.toA + ops)
  }

  function DeliverTo(n: Net, m: Machine): Net
    requires InFlightTo(n, m) != []
  {
    var (mode, answer) := Receive(ModeOf(n, m), m.A?, InFlightTo(n, m)[0]);
    var taken := if m.A? then n.(toA := n.toA[1..]) else n.(toB := n.toB[1..]);
    Moved(taken, m, mode, answer)
  }

  predicate Enabled(n: Net, act: Action) {
    match act
    case Engage(m) => ModeOf(n, m).Local?
    case LetGo(m) => ModeOf(n, m).Controlling?
    case HandBack(m) => ModeOf(n, m).Controlled?
    case Deliver(m) => InFlightTo(n, m) != []
  }

  function Act(n: Net, act: Action): Net
    requires Enabled(n, act)
  {
    match act
    case Engage(m) => Moved(n, m, Controlling, [Enter])
    case LetGo(m) => Moved(n, m, Local, [Release])
    case HandBack(m) => Moved(n, m, Local, [ReturnHome])
    case Deliver(m) => DeliverTo(n, m)
  }

  /** A run is any sequence of actions; one that is not enabled does nothing. */
  function Run(n: Net, acts: seq<Action>): Net
    decreases acts
  {
    if acts == [] then n
    else Run(if Enabled(n, acts[0]) then Act(n, acts[0]) else n, acts[1..])
  }

  predicate Quiet(n: Net) {
    n.toA == [] && n.toB == []
  }

  predicate Initial(n: Net) {
    Quiet(n) && !n.a.Controlling? && !n.b.Controlling?
  }

  // ---- A controller always has someone to control ----

  /** While `m` controls, either the last thing it sent is the takeover and that is still on its way,
      or the other machine is controlled, or something on its way to `m` is bound to end it. */
  predicate Backed(n: Net, m: Machine) {
    ModeOf(n, m).Controlling? ==>
      var sent, coming := InFlightTo(n, Other(m)), InFlightTo(n, m);
      if sent != [] then sent[|sent| - 1].Enter?
      else ModeOf(n, Other(m)).Controlled? || (if m.A? then ReturnHome in coming else coming != [])
  }

  predicate Inv(n: Net) {
    Backed(n, A) && Backed(n, B)
  }

  lemma ActKeepsInv(n: Net, act: Action)
    requires Inv(n) && Enabled(n, act)
    ensures Inv(Act(n, act))
  {
  }

  lemma {:induction false} RunKeepsInv(n: Net, acts: seq<Action>)
    requires Inv(n)
    ensures Inv(Run(n, acts))
    decreases acts
  {
    if acts != [] {
      var next := if Enabled(n, acts[0]) then Act(n, acts[0]) else n;
      if Enabled(n, acts[0]) { ActKeepsInv(n, acts[0]); }
      RunKeepsInv(next, acts[1..]);
    }
  }

  predicate ControllerHasPartner(n: Net) {
    && (n.a.Controlling? ==> n.b.Controlled?)
    && (n.b.Controlling? ==> n.a.Controlled?)
  }

  /** Whatever takeovers, releases and returns cross on the way: with nothing in flight, a machine
      that controls has a partner that is controlled, and the two never both control. */
  lemma NoOrphanedController(n: Net, acts: seq<Action>)
    requires Initial(n) && Quiet(Run(n, acts))
    ensures ControllerHasPartner(Run(n, acts))
  {
    RunKeepsInv(n, acts);
  }

  // ---- Draining ----

  function Weight(ops: seq<Op>): nat {
    if ops == [] then 0 else (if ops[0].ReturnHome? then 2 else 1) + Weight(ops[1..])
  }

  /** A return counts twice, because it may be answered with a release. */
  function Backlog(n: Net): nat {
    Weight(n.toA) + Weight(n.toB)
  }

  lemma {:induction false} WeightOfAppend(ops: seq<Op>, more: seq<Op>)
    ensures Weight(ops + more) == Weight(ops) + Weight(more)
  {
    if ops == [] {
      assert ops + more == more;
    } else {
      assert (ops + more)[1..] == ops[1..] + more;
      WeightOfAppend(ops[1..], more);
    }
  }

  lemma DeliveringShrinksTheBacklog(n: Net, m: Machine)
    requires InFlightTo(n, m) != []
    ensures Backlog(DeliverTo(n, m)) < Backlog(n)
  {
    var (_, answer) := Receive(ModeOf(n, m), m.A?, InFlightTo(n, m)[0]);
    WeightOfAppend(InFlightTo(n, Other(m)), answer);
    assert Weight([Release]) == 1;
  }

  /** Delivers what is in flight, and whatever that gives rise to, until nothing is left. */
  function Drain(n: Net): (end: Net)
    ensures Quiet(end)
    ensures Inv(n) ==> ControllerHasPartner(end)
    decreases Backlog(n)
  {
    if n.toA != [] then
      DeliveringShrinksTheBacklog(n, A);
      assert Inv(n) ==> Inv(Act(n, Deliver(A))) by { if Inv(n) { ActKeepsInv(n, Deliver(A)); } }
      Drain(DeliverTo(n, A))
    else if n.toB != [] then
      DeliveringShrinksTheBacklog(n, B);
      assert Inv(n) ==> Inv(Act(n, Deliver(B))) by { if Inv(n) { ActKeepsInv(n, Deliver(B)); } }
      Drain(DeliverTo(n, B))
    else n
  }

  /** Deliveries at the two machines commute, so the order they happen in cannot matter. */
  lemma DeliveriesCommute(n: Net)
    requires n.toA != [] && n.toB != []
    ensures DeliverTo(n, A).toB != [] && DeliverTo(n, B).toA != []
    ensures DeliverTo(DeliverTo(n, A), B) == DeliverTo(DeliverTo(n, B), A)
  {
    var (_, fromA) := Receive(n.a, true, n.toA[0]);
    var (_, fromB) := Receive(n.b, false, n.toB[0]);
    assert (n.toB + fromA)[1..] == n.toB[1..] + fromA;
    assert (n.toA + fromB)[1..] == n.toA[1..] + fromB;
  }

  lemma {:induction false} DeliveryDoesNotChangeTheOutcome(n: Net, m: Machine)
    requires InFlightTo(n, m) != []
    ensures Drain(DeliverTo(n, m)) == Drain(n)
    decreases Backlog(n)
  {
    if m.B? && n.toA != [] {
      DeliveriesCommute(n);
      DeliveringShrinksTheBacklog(n, A);
      DeliveryDoesNotChangeTheOutcome(DeliverTo(n, A), B);
    }
  }

  predicate OnlyDeliveries(acts: seq<Action>) {
    forall act :: act in acts ==> act.Deliver?
  }

  /** From any state, every order of deliveries that empties the queues ends in the same state; it
      takes at most `Backlog` deliveries, and every shorter one can be continued to that state. */
  lemma {:induction false} DrainingConverges(n: Net, acts: seq<Action>)
    requires OnlyDeliveries(acts)
    ensures Drain(Run(n, acts)) == Drain(n)
    ensures Quiet(Run(n, acts)) ==> Run(n, acts) == Drain(n)
    decreases acts
  {
    if acts != [] {
      assert acts[0] in acts;
      var next := if Enabled(n, acts[0]) then Act(n, acts[0]) else n;
      if Enabled(n, acts[0]) { DeliveryDoesNotChangeTheOutcome(n, acts[0].m); }
      DrainingConverges(next, acts[1..]);
    }
  }

  /** Deliveries that each carry a message: there can be no more of them than the backlog. */
  predicate AllEnabled(n: Net, acts: seq<Action>)
    decreases acts
  {
    acts == [] || (Enabled(n, acts[0]) && AllEnabled(Act(n, acts[0]), acts[1..]))
  }

  lemma {:induction false} DrainingTerminates(n: Net, acts: seq<Action>)
    requires OnlyDeliveries(acts) && AllEnabled(n, acts)
    ensures |acts| + Backlog(Run(n, acts)) <= Backlog(n)
    decreases acts
  {
    if acts != [] {
      assert acts[0] in acts;
      DeliveringShrinksTheBacklog(n, acts[0].m);
      DrainingTerminates(Act(n, acts[0]), acts[1..]);
    }
  }

  /** Two takeovers that cross leave the machine with the smaller id in control. */
  lemma SimultaneousTakeover(n: Net)
    requires Quiet(n) && n.a.Local? && n.b.Local?
    ensures Drain(Run(n, [Engage(A), Engage(B)])) == Net(Controlling, Controlled, [], [])
    ensures Drain(Run(n, [Engage(B), Engage(A)])) == Net(Controlling, Controlled, [], [])
  {
    var crossed := Net(Controlling, Controlling, [Enter], [Enter]);
    assert Run(n, [Engage(A), Engage(B)]) == crossed by {
      assert [Engage(A), Engage(B)][1..] == [Engage(B)] && [Engage(B)][1..] == [];
    }
    assert Run(n, [Engage(B), Engage(A)]) == crossed by {
      assert [Engage(B), Engage(A)][1..] == [Engage(A)] && [Engage(A)][1..] == [];
    }
    assert DeliverTo(crossed, A) == Net(Controlling, Controlling, [], [Enter]);
    assert DeliverTo(DeliverTo(crossed, A), B) == Net(Controlling, Controlled, [], []);
  }

  // ---- The controlled side can be orphaned ----

  /** A release is obeyed even by a machine that has since taken control itself, so after
      `ReturnHome; Enter` crosses a `Release` one machine is controlled by nobody. */
  lemma ControlledCanBeOrphaned()
    ensures var acts := [Engage(A), Deliver(B), HandBack(B), Engage(B), Deliver(A), Deliver(A), Deliver(B)];
            Run(Net(Local, Local, [], []), acts) == Net(Controlled, Local, [], [])
  {
    var n0 := Net(Local, Local, [], []);
    var n1 := Net(Controlling, Local, [], [Enter]);
    var n2 := Net(Controlling, Controlled, [], []);
    var n3 := Net(Controlling, Local, [ReturnHome], []);
    var n4 := Net(Controlling, Controlling, [ReturnHome, Enter], []);
    var n5 := Net(Local, Controlling, [Enter], [Release]);
    var n6 := Net(Controlled, Controlling, [], [Release]);
    var n7 := Net(Controlled, Local, [], []);
    RunOne(n0, Engage(A), [Deliver(B), HandBack(B), Engage(B), Deliver(A), Deliver(A), Deliver(B)], n1);
    RunOne(n1, Deliver(B), [HandBack(B), Engage(B), Deliver(A), Deliver(A), Deliver(B)], n2);
    RunOne(n2, HandBack(B), [Engage(B), Deliver(A), Deliver(A), Deliver(B)], n3);
    RunOne(n3, Engage(B), [Deliver(A), Deliver(A), Deliver(B)], n4);
    RunOne(n4, Deliver(A), [Deliver(A), Deliver(B)], n5);
    RunOne(n5, Deliver(A), [Deliver(B)], n6);
    RunOne(n6, Deliver(B), [], n7);
  }

  lemma RunOne(n: Net, act: Action, rest: seq<Action>, next: Net)
    requires Enabled(n, act) && Act(n, act) == next
    ensures Run(n, [act] + rest) == Run(next, rest)
  {
    assert ([act] + rest)[1..] == rest;
  }

  /** Control is lost silently when a message ends it and no release is sent in turn: a stray
      release, or yielding a simultaneous takeover. */
  predicate LosesControlSilently(n: Net, act: Action)
    requires Enabled(n, act)
  {
    act.Deliver? && ModeOf(n, act.m).Controlling? && !ModeOf(Act(n, act), act.m).Controlling?
    && !InFlightTo(n, act.m)[0].ReturnHome?
  }

  /** Whether the last spell of control at `m` has ended silently, given whether it had before `act`. */
  predicate SilentAfter(n: Net, act: Action, m: Machine, before: bool)
    requires Enabled(n, act)
  {
    act != Engage(m) && (before || (act.m == m && LosesControlSilently(n, act)))
  }

  predicate EndedSilently(n: Net, acts: seq<Action>, m: Machine, before: bool)
    decreases acts
  {
    if acts == [] then before
    else if Enabled(n, acts[0])
    then EndedSilently(Act(n, acts[0]), acts[1..], m, SilentAfter(n, acts[0], m, before))
    else EndedSilently(n, acts[1..], m, before)
  }

  /** Every takeover in flight is followed by its release. */
  predicate EveryEnterIsUndone(ops: seq<Op>) {
    forall i :: 0 <= i < |ops| && ops[i].Enter? ==> exists j :: i < j < |ops| && ops[j].Release?
  }

  /** Unless `m` is still in control, whatever it took over it has also let go of. */
  predicate Paired(n: Net, m: Machine) {
    !ModeOf(n, m).Controlling? ==>
      && EveryEnterIsUndone(InFlightTo(n, Other(m)))
      && (ModeOf(n, Other(m)).Controlled? ==> Release in InFlightTo(n, Other(m)))
  }

  lemma TailStaysUndone(ops: seq<Op>)
    requires ops != [] && EveryEnterIsUndone(ops)
    ensures EveryEnterIsUndone(ops[1..])
    ensures ops[0].Enter? ==> Release in ops[1..]
  {
    forall i | 0 <= i < |ops[1..]| && ops[1..][i].Enter?
      ensures exists j :: i < j < |ops[1..]| && ops[1..][j].Release?
    {
      assert ops[i + 1].Enter?;
      var j :| i + 1 < j < |ops| && ops[j].Release?;
      assert ops[1..][j - 1].Release?;
    }
    if ops[0].Enter? {
      var j :| 0 < j < |ops| && ops[j].Release?;
      assert ops[1..][j - 1] == Release;
    }
  }

  lemma AppendedRelease(ops: seq<Op>)
    ensures EveryEnterIsUndone(ops + [Release])
  {
    assert (ops + [Release])[|ops|].Release?;
  }

  lemma AppendedReturn(ops: seq<Op>)
    requires EveryEnterIsUndone(ops)
    ensures EveryEnterIsUndone(ops + [ReturnHome])
  {
    forall i | 0 <= i < |ops| && ops[i].Enter?
      ensures exists j :: i < j < |ops| + 1 && (ops + [ReturnHome])[j].Release?
    {
      var j :| i < j < |ops| && ops[j].Release?;
      assert (ops + [ReturnHome])[j].Release?;
    }
  }

  lemma ActKeepsPaired(n: Net, act: Action, m: Machine, silent: bool)
    requires Enabled(n, act) && if silent then !ModeOf(n, m).Controlling? else Paired(n, m)
    ensures if SilentAfter(n, act, m, silent) then !ModeOf(Act(n, act), m).Controlling? else Paired(Act(n, act), m)
  {
    var sent := InFlightTo(n, Other(m));
    match act
    case Engage(_) =>
    case LetGo(_) => AppendedRelease(sent);
    case HandBack(_) => if EveryEnterIsUndone(sent) { AppendedReturn(sent); }
    case Deliver(to) =>
      if to == m {
        AppendedRelease(sent);
        assert sent + [] == sent;
      } else if EveryEnterIsUndone(sent) {
        TailStaysUndone(sent);
      }
  }

  lemma {:induction false} RunKeepsPaired(n: Net, acts: seq<Action>, m: Machine, silent: bool)
    requires if silent then !ModeOf(n, m).Controlling? else Paired(n, m)
    ensures if EndedSilently(n, acts, m, silent) then !ModeOf(Run(n, acts), m).Controlling? else Paired(Run(n, acts), m)
    decreases acts
  {
    if acts != [] {
      if Enabled(n, acts[0]) {
        ActKeepsPaired(n, acts[0], m, silent);
        RunKeepsPaired(Act(n, acts[0]), acts[1..], m, SilentAfter(n, acts[0], m, silent));
      } else {
        RunKeepsPaired(n, acts[1..], m, silent);
      }
    }
  }

  /** At rest a machine is controlled exactly when the other one controls it, with one exception and no
      other: it is controlled, and the other one's last spell of control ended silently. */
  lemma ControlledIffControlling(n: Net, acts: seq<Action>, m: Machine)
    requires n == Net(Local, Local, [], []) && Quiet(Run(n, acts))
    ensures var here, there := ModeOf(Run(n, acts), m), ModeOf(Run(n, acts), Other(m));
            ((there.Controlled? <==> here.Controlling?)
             <==> !(there.Controlled? && EndedSilently(n, acts, m, false)))
  {
    RunKeepsPaired(n, acts, m, false);
    NoOrphanedController(n, acts);
  }
}
