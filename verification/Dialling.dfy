/** Two machines that dial each other, and connections whose end is noticed late
    (crates/ud-engine/src/engine.rs:880-938, 965-975 and 185-188, crates/ud-net/src/session.rs:82-97). */
module Dialling {
  import opened Wrappers
  import opened Identity
  import opened Trust

  /** The engine's sessions, and the closed connections whose end has yet to be reported. A report names only
      the machine, and so ends whatever session there is with it by then. */
  datatype Table = Table(s: State, ending: multiset<DeviceId>)

  /** `Handled` is anything of Trust.dfy, with `Gone` for a session this machine gives up. `Lost` is the end of
      the connection in use, `Late` the report of one that was closed before. */
  datatype Act = Handled(e: Event) | Lost(peer: DeviceId) | Late(peer: DeviceId)

  function Peer(act: Act): DeviceId {
    if act.Handled? then act.e.peer else act.peer
  }

  predicate Accepts(s: State, e: Event) {
    e.Established? && Dialled(s, e.peer, e) && !Redundant(s, e)
  }

  /** Whether an event closes a connection that was in use: its session is replaced, or given up. */
  predicate ClosesOne(s: State, e: Event) {
    e.peer in s.sessions && (Accepts(s, e) || e.peer !in Step(s, e).sessions)
  }

  function End(s: State, peer: DeviceId): State {
    s.(sessions := s.sessions - {peer})
  }

  /** A late report that ends a session closes that one's connection in turn, which will be reported too. */
  function Do(t: Table, act: Act): Table {
    match act
    case Handled(e) => Table(Step(t.s, e), if ClosesOne(t.s, e) then t.ending + multiset{e.peer} else t.ending)
    case Lost(peer) => Table(End(t.s, peer), t.ending)
    case Late(peer) =>
      if peer !in t.ending then t
      else if peer in t.s.sessions then Table(End(t.s, peer), t.ending)
      else Table(t.s, t.ending - multiset{peer})
  }

  function DoAll(t: Table, acts: seq<Act>): Table
    decreases acts
  {
    if acts == [] then t else DoAll(Do(t, acts[0]), acts[1..])
  }

  /** Nothing happens about `peer` but reports of connections closed before. */
  predicate OnlyLate(acts: seq<Act>, peer: DeviceId) {
    forall act :: act in acts && Peer(act) == peer ==> act.Late?
  }

  /** Two tables hold the same about a machine. */
  predicate SameAbout(t: Table, u: Table, peer: DeviceId) {
    && t.s.self == u.s.self && t.ending[peer] == u.ending[peer] && (peer in t.s.sessions <==> peer in u.s.sessions)
    && (peer in t.s.sessions ==> t.s.sessions[peer] == u.s.sessions[peer])
    && KeyOf(t.s.peers, peer) == KeyOf(u.s.peers, peer)
  }

  lemma OthersDoNothing(t: Table, act: Act, peer: DeviceId)
    requires Peer(act) != peer
    ensures SameAbout(t, Do(t, act), peer)
  {
    if act.Handled? { OthersStay(t.s, act.e, peer); }
  }

  /** With nothing left to report, nothing changes. */
  lemma {:induction false} QuietStays(t: Table, acts: seq<Act>, peer: DeviceId)
    requires peer !in t.ending && OnlyLate(acts, peer)
    ensures SameAbout(t, DoAll(t, acts), peer)
    decreases acts
  {
    if acts != [] {
      if Peer(acts[0]) != peer { OthersDoNothing(t, acts[0], peer); } else { assert acts[0] in acts; }
      QuietStays(Do(t, acts[0]), acts[1..], peer);
    }
  }

  /** With something left to report, no session is there when it all has been. */
  lemma {:induction false} LateReportsEndTheSession(t: Table, acts: seq<Act>, peer: DeviceId)
    requires peer in t.ending && OnlyLate(acts, peer) && peer !in DoAll(t, acts).ending
    ensures peer !in DoAll(t, acts).s.sessions
    decreases acts
  {
    var next := Do(t, acts[0]);
    if Peer(acts[0]) != peer { OthersDoNothing(t, acts[0], peer); } else { assert acts[0] in acts; }
    if peer in next.ending {
      LateReportsEndTheSession(next, acts[1..], peer);
    } else {
      QuietStays(next, acts[1..], peer);
    }
  }

  /** Whether a machine has a session in the end is settled when its last connection comes up: it has, if no
      closed connection is still to be reported and the new one replaces none, and it has not otherwise.
      The session is then the new one, or the one for whose sake that was dropped. */
  lemma SessionSurvivesIff(t: Table, e: Event, acts: seq<Act>, peer: DeviceId)
    requires Dialled(t.s, peer, e) && OnlyLate(acts, peer)
    requires peer !in DoAll(Do(t, Handled(e)), acts).ending
    ensures var up, end := Do(t, Handled(e)), DoAll(Do(t, Handled(e)), acts);
            && (peer in end.s.sessions <==> peer !in t.ending && (peer in t.s.sessions ==> Redundant(t.s, e)))
            && (peer in end.s.sessions ==> peer in up.s.sessions && end.s.sessions[peer] == up.s.sessions[peer])
  {
    var up := Do(t, Handled(e));
    if peer in up.ending { LateReportsEndTheSession(up, acts, peer); } else { QuietStays(up, acts, peer); }
  }

  /** Both connections between two machines have come up at one of them, `first` before `second`, and every
      late report is in. */
  predicate BothCameUp(t: Table, peer: DeviceId, first: Event, between: seq<Act>, second: Event, after: seq<Act>) {
    var mid := DoAll(Do(t, Handled(first)), between);
    && peer !in t.s.sessions && peer !in t.ending
    && Dialled(t.s, peer, first) && Dialled(mid.s, peer, second) && first.initiator != second.initiator
    && OnlyLate(between, peer) && OnlyLate(after, peer)
    && peer !in DoAll(Do(mid, Handled(second)), after).ending
  }

  function AfterBoth(t: Table, first: Event, between: seq<Act>, second: Event, after: seq<Act>): Table {
    DoAll(Do(DoAll(Do(t, Handled(first)), between), Handled(second)), after)
  }

  /** The connection to keep is kept exactly if it came up first. If it came up second it replaced the other,
      whose end is then taken for its own, and no session is left. */
  lemma KeptIffFirst(t: Table, peer: DeviceId, first: Event, between: seq<Act>, second: Event, after: seq<Act>)
    requires BothCameUp(t, peer, first, between, second, after)
    ensures var end := AfterBoth(t, first, between, second, after).s;
            && (peer in end.sessions <==> Preferred(t.s.self, peer, first.initiator))
            && (peer in end.sessions ==> Preferred(t.s.self, peer, end.sessions[peer].initiator))
  {
    var up := Do(t, Handled(first));
    QuietStays(up, between, peer);
    SessionSurvivesIff(DoAll(up, between), second, after, peer);
  }

  /** Two machines that dial each other end up with a session each exactly if the connection dialled by the
      machine whose id comes first came up first at both, and then it is that one connection. */
  lemma BothKeepTheSameIff(
      a: Table, firstA: Event, betweenA: seq<Act>, secondA: Event, afterA: seq<Act>,
      b: Table, firstB: Event, betweenB: seq<Act>, secondB: Event, afterB: seq<Act>)
    requires a.s.self != b.s.self
    requires BothCameUp(a, b.s.self, firstA, betweenA, secondA, afterA)
    requires BothCameUp(b, a.s.self, firstB, betweenB, secondB, afterB)
    ensures var endA := AfterBoth(a, firstA, betweenA, secondA, afterA).s;
            var endB := AfterBoth(b, firstB, betweenB, secondB, afterB).s;
            var dials := Before(a.s.self, b.s.self);
            && (b.s.self in endA.sessions && a.s.self in endB.sessions
                <==> firstA.initiator == dials && firstB.initiator != dials)
            && (b.s.self in endA.sessions && a.s.self in endB.sessions ==>
                  endA.sessions[b.s.self].initiator == dials && endB.sessions[a.s.self].initiator != dials)
  {
    ExactlyOneComesFirst(a.s.self, b.s.self);
    KeptIffFirst(a, b.s.self, firstA, betweenA, secondA, afterA);
    KeptIffFirst(b, a.s.self, firstB, betweenB, secondB, afterB);
  }

  /** The connection to keep comes up second. */
  lemma Replacing(s: State, peer: DeviceId, e: Event, f: Event) returns (t: Table)
    requires peer !in s.sessions && KeyOf(s.peers, peer).None?
    requires e.Established? && e.peer == peer && f.Established? && f.peer == peer && f.initiator == Before(s.self, peer)
    ensures t == Do(Do(Table(s, multiset{}), Handled(e)), Handled(f))
    ensures peer in t.s.sessions && t.s.sessions[peer].initiator == f.initiator && peer in t.ending
  {
    RenameKeepsKeys(s.peers, peer, e.name, peer);
    t := Do(Do(Table(s, multiset{}), Handled(e)), Handled(f));
  }

  /** A run in which the connection to keep is lost: it comes up second, and the end of the one it replaced
      is reported. */
  lemma KeptConnectionIsLost(s: State, peer: DeviceId, name: string, key: Key, code: string)
    requires peer !in s.sessions && KeyOf(s.peers, peer).None?
    ensures var b := Before(s.self, peer);
            var acts := [Handled(Established(peer, name, key, !b, code)), Handled(Established(peer, name, key, b, code)), Late(peer)];
            peer !in DoAll(Table(s, multiset{}), acts).s.sessions
  {
    var b := Before(s.self, peer);
    var e, f := Established(peer, name, key, !b, code), Established(peer, name, key, b, code);
    var t := Replacing(s, peer, e, f);
    DoThree(Table(s, multiset{}), Handled(e), Handled(f), Late(peer));
  }

  lemma DoThree(t: Table, first: Act, second: Act, third: Act)
    ensures DoAll(t, [first, second, third]) == Do(Do(Do(t, first), second), third)
  {
    assert [first, second, third] == [first] + ([second] + ([third] + []));
    DoFirst(t, first, [second] + ([third] + []));
    DoFirst(Do(t, first), second, [third] + []);
    DoFirst(Do(Do(t, first), second), third, []);
  }

  lemma DoFirst(t: Table, act: Act, rest: seq<Act>)
    ensures DoAll(t, [act] + rest) == DoAll(Do(t, act), rest)
  {
    assert ([act] + rest)[1..] == rest;
  }

  // ---- Until a report comes in ----

  predicate CameUp(e: Event, initiator: bool) {
    e.Established? && e.initiator == initiator
  }

  predicate Seen(events: seq<Event>, initiator: bool) {
    exists e :: e in events && CameUp(e, initiator)
  }

  /** As long as connections only come up and no end is reported, the one to keep holds its place once it is there,
      however many others come up before and after. */
  lemma {:induction false} PreferredHoldsItsPlace(s: State, peer: DeviceId, events: seq<Event>)
    requires forall e :: e in events ==> Dialled(s, peer, e)
    requires (peer in s.sessions && Preferred(s.self, peer, s.sessions[peer].initiator))
             || Seen(events, Before(s.self, peer))
    ensures var end := Run(s, events);
            end.self == s.self && peer in end.sessions && Preferred(s.self, peer, end.sessions[peer].initiator)
    decreases events
  {
    if events != [] {
      var next := Step(s, events[0]);
      assert events[0] in events;
      RenameKeepsKeys(s.peers, peer, events[0].name, peer);
      forall e | e in events[1..] ensures Dialled(next, peer, e) { assert e in events; }
      PreferredHoldsItsPlace(next, peer, events[1..]);
    }
  }
}
