/** How a machine comes to be trusted (crates/ud-engine/src/engine.rs:849-963 and 1082-1254). */
module Pairing {
  import opened Wrappers
  import opened Identity
  import opened Trust

  predicate TrustedNow(s: State, peer: DeviceId) {
    peer in s.sessions && s.sessions[peer].trusted
  }

  /** A connection comes up under the key that is stored for its machine. */
  predicate ComesBack(s: State, e: Event, peer: DeviceId) {
    Dialled(s, peer, e) && KeyOf(s.peers, peer).Some? && !Redundant(s, e)
  }

  /** A connection comes up with a machine that is not stored. */
  predicate ComesAsStranger(s: State, e: Event, peer: DeviceId) {
    Dialled(s, peer, e) && KeyOf(s.peers, peer).None? && !Redundant(s, e)
  }

  /** The code shown to a machine is typed, or it says that it accepts. */
  predicate Pairs(s: State, e: Event, peer: DeviceId) {
    e.peer == peer && Stores(s, e).Some?
  }

  /** A trusted session shows no code, and waits for none. */
  predicate TrustedAreDone(s: State) {
    forall d :: d in s.sessions && s.sessions[d].trusted ==> s.sessions[d].pairing.None?
  }

  /** Trust in a machine after an event, given whether there was any before. */
  predicate TrustAfter(s: State, e: Event, peer: DeviceId, before: bool) {
    Pairs(s, e, peer) || ComesBack(s, e, peer) || (before && e != Gone(peer) && !ComesAsStranger(s, e, peer))
  }

  /** What one event does to the trust in a machine: it gains it by pairing or by coming back under its stored
      key, loses it by going or by coming as a stranger, and there is no other way. */
  lemma TrustInOneStep(s: State, e: Event, peer: DeviceId)
    requires TrustedAreDone(s)
    ensures TrustedNow(Step(s, e), peer) <==> TrustAfter(s, e, peer, TrustedNow(s, peer))
  {
    if e.peer != peer { OthersStay(s, e, peer); }
  }

  lemma TrustedStayDone(s: State, e: Event)
    requires TrustedAreDone(s)
    ensures TrustedAreDone(Step(s, e))
  {
  }

  predicate TrustAtTheEnd(s: State, events: seq<Event>, peer: DeviceId, before: bool)
    decreases events
  {
    if events == [] then before
    else TrustAtTheEnd(Step(s, events[0]), events[1..], peer, TrustAfter(s, events[0], peer, before))
  }

  /** The same over any run. */
  lemma {:induction false} TrustOverRuns(s: State, events: seq<Event>, peer: DeviceId)
    requires TrustedAreDone(s)
    ensures TrustedNow(Run(s, events), peer) <==> TrustAtTheEnd(s, events, peer, TrustedNow(s, peer))
    decreases events
  {
    if events != [] {
      TrustInOneStep(s, events[0], peer);
      TrustedStayDone(s, events[0]);
      TrustOverRuns(Step(s, events[0]), events[1..], peer);
    }
  }

  /** A machine that is neither stored nor trusted becomes trusted only by pairing: somewhere in the run its
      code was typed here, or it said that it accepts. */
  lemma {:induction false} StrangersHaveToPair(s: State, events: seq<Event>, peer: DeviceId) returns (at: nat)
    requires Agrees(s) && TrustedAreDone(s) && KeyOf(s.peers, peer).None? && !TrustedNow(s, peer)
    requires TrustedNow(Run(s, events), peer)
    ensures at < |events| && Pairs(Run(s, events[..at]), events[at], peer)
    decreases events
  {
    var next := Step(s, events[0]);
    if Pairs(s, events[0], peer) {
      at := 0;
      assert events[..0] == [];
    } else {
      TrustInOneStep(s, events[0], peer);
      TrustedStayDone(s, events[0]);
      StepKeepsAgreement(s, events[0]);
      StoredKeyAfter(s, events[0], peer);
      var rest := StrangersHaveToPair(next, events[1..], peer);
      at := rest + 1;
      assert events[..at][0] == events[0] && events[..at][1..] == events[1..][..rest];
    }
  }

  // ---- Pairing codes ----

  /** The codes typed for one machine. */
  function CodesFor(events: seq<Event>, peer: DeviceId): seq<string> {
    if events == [] then []
    else (if events[0].CodeTyped? && events[0].peer == peer then [events[0].typed] else []) + CodesFor(events[1..], peer)
  }

  /** Nothing else happens to the session with a machine. */
  predicate OnlyCodes(events: seq<Event>, peer: DeviceId) {
    forall e :: e in events && e.peer == peer ==> e.CodeTyped? || e.Forget?
  }

  /** A code among the first `n` has the digits of the one shown. */
  predicate GuessedWithin(shown: string, codes: seq<string>, n: nat) {
    exists i :: 0 <= i < n && i < |codes| && Digits(codes[i]) == Digits(shown)
  }

  /** Digits are all that counts in a code, in their order; whatever else is typed between them is ignored. */
  lemma {:induction false} OnlyDigitsCount(a: string, c: char, b: string)
    ensures Digits(a + [c] + b) == Digits(a) + (if '0' <= c <= '9' then [c] else []) + Digits(b)
  {
    if a == "" {
      assert a + [c] + b == [c] + b && ([c] + b)[1..] == b;
    } else {
      assert (a + [c] + b)[1..] == a[1..] + [c] + b;
      OnlyDigitsCount(a[1..], c, b);
    }
  }

  lemma OneGuess(shown: string, codes: seq<string>, n: nat)
    requires codes != [] && n > 0
    ensures GuessedWithin(shown, codes, n) <==> Digits(codes[0]) == Digits(shown) || GuessedWithin(shown, codes[1..], n - 1)
  {
    if GuessedWithin(shown, codes, n) && Digits(codes[0]) != Digits(shown) {
      var i :| 0 <= i < n && i < |codes| && Digits(codes[i]) == Digits(shown);
      assert codes[1..][i - 1] == codes[i];
    }
    if GuessedWithin(shown, codes[1..], n - 1) {
      var i :| 0 <= i < n - 1 && i < |codes[1..]| && Digits(codes[1..][i]) == Digits(shown);
      assert codes[i + 1] == codes[1..][i];
    }
  }

  /** As long as nothing but codes concerns it, a session that shows a code becomes trusted exactly if the
      code is typed within what is left of three attempts, and is gone exactly if they are used up. */
  lemma {:induction false} CodesAreCounted(s: State, events: seq<Event>, peer: DeviceId)
    requires Shown(s, peer).Some? && !s.sessions[peer].trusted && OnlyCodes(events, peer)
    requires s.sessions[peer].pairing.value.attempts < MAX_ATTEMPTS
    ensures var left, end := 3 - s.sessions[peer].pairing.value.attempts, Run(s, events);
            var codes := CodesFor(events, peer);
            && (TrustedNow(end, peer) <==> GuessedWithin(Shown(s, peer).value, codes, left))
            && (peer !in end.sessions <==> |codes| >= left && !GuessedWithin(Shown(s, peer).value, codes, left))
    decreases events
  {
    if events != [] {
      var e, next, rest := events[0], Step(s, events[0]), events[1..];
      assert OnlyCodes(rest, peer) by { assert e in events; }
      if e.CodeTyped? && e.peer == peer {
        var codes := CodesFor(events, peer);
        assert codes[0] == e.typed && codes[1..] == CodesFor(rest, peer);
        OneGuess(Shown(s, peer).value, codes, MAX_ATTEMPTS - s.sessions[peer].pairing.value.attempts);
        if Shown(next, peer).None? { NoCodeNoEffect(next, rest, peer); } else { CodesAreCounted(next, rest, peer); }
      } else {
        if e.peer != peer { OthersStay(s, e, peer); }
        assert CodesFor(events, peer) == CodesFor(rest, peer);
        CodesAreCounted(next, rest, peer);
      }
    }
  }

  lemma {:induction false} NoCodeNoEffect(s: State, events: seq<Event>, peer: DeviceId)
    requires Shown(s, peer).None? && OnlyCodes(events, peer)
    ensures peer in Run(s, events).sessions <==> peer in s.sessions
    ensures peer in s.sessions ==> Run(s, events).sessions[peer] == s.sessions[peer]
    decreases events
  {
    if events != [] {
      if events[0].peer != peer { OthersStay(s, events[0], peer); } else { assert events[0] in events; }
      NoCodeNoEffect(Step(s, events[0]), events[1..], peer);
    }
  }

  /** What else can happen. A machine that is being shown a code is trusted, and its key stored, as soon as it
      says that it accepts; no code need be typed. */
  lemma AcceptanceNeedsNoCode(s: State, peer: DeviceId)
    requires Agrees(s) && Shown(s, peer).Some? && !TrustedNow(s, peer)
    ensures var end := Run(s, [PairResult(peer, true)]);
            TrustedNow(end, peer) && KeyOf(end.peers, peer) == Some(s.sessions[peer].key)
  {
    assert [PairResult(peer, true)][1..] == [];
    StoredKeyAfter(s, PairResult(peer, true), peer);
  }

  /** A session waits for the code that the other machine shows. */
  predicate Awaits(s: State, peer: DeviceId) {
    peer in s.sessions && s.sessions[peer].pairing.Some? && s.sessions[peer].pairing.value.awaitingCode
  }

  /** A handoff draws a code, with no attempt counted, exactly for a session that is not trusted and does not wait for the
      other's code: whether it shows nothing yet, or a code already, of which the attempts then start again. */
  lemma HandoffShowsACodeIff(s: State, peer: DeviceId, code: string)
    ensures var after := Step(s, Handoff(peer, code));
            if peer in s.sessions && !s.sessions[peer].trusted && !Awaits(s, peer)
            then peer in after.sessions && after.sessions[peer].pairing == Some(Pairing(Some(code), false, 0))
            else after == s
  {
  }

  /** Once the other machine has announced its code, none is shown here, by a handoff neither. */
  lemma AnnouncedCodeIsAwaited(s: State, peer: DeviceId, code: string)
    requires peer in s.sessions && !s.sessions[peer].trusted
    ensures var after := Run(s, [CodeAnnounced(peer), Handoff(peer, code)]);
            Awaits(after, peer) && Shown(after, peer).None? && after == Step(s, CodeAnnounced(peer))
  {
    var told := Step(s, CodeAnnounced(peer));
    assert [CodeAnnounced(peer), Handoff(peer, code)][1..] == [Handoff(peer, code)];
    assert [Handoff(peer, code)][1..] == [];
    HandoffShowsACodeIff(told, peer, code);
    assert Run(told, [Handoff(peer, code)]) == Run(Step(told, Handoff(peer, code)), []);
  }

  /** A connection with a stranger shows a code at once exactly on the machine whose id comes second; one with a machine
      that is stored shows none, and neither does one that is dropped or refused. */
  lemma ConnectionShowsACodeIff(s: State, e: Event, peer: DeviceId)
    requires e.Established? && e.peer == peer && Shown(s, peer).None?
    ensures Shown(Step(s, e), peer)
         == if ComesAsStranger(s, e, peer) && Before(peer, s.self) then Some(e.code) else None
  {
  }

  /** Of two strangers one shows a code at first and the other does not. */
  lemma AtFirstOneShowsTheCode(a: State, b: State, e: Event, f: Event)
    requires a.self != b.self && b.self !in a.sessions && a.self !in b.sessions
    requires ComesAsStranger(a, e, b.self) && ComesAsStranger(b, f, a.self)
    ensures Shown(Step(a, e), b.self).Some? <==> Shown(Step(b, f), a.self).None?
  {
    ExactlyOneComesFirst(a.self, b.self);
    ConnectionShowsACodeIff(a, e, b.self);
    ConnectionShowsACodeIff(b, f, a.self);
  }

  /** Counting starts again with a new connection. */
  lemma CountingStartsAgain(s: State, peer: DeviceId, e: Event)
    requires Shown(s, peer).Some? && !s.sessions[peer].trusted
    requires ComesAsStranger(s, e, peer) && Before(peer, s.self)
    ensures Step(s, e).sessions[peer].pairing == Some(Pairing(Some(e.code), false, 0))
  {
  }

  // ---- What pairing leaves behind ----

  /** The record of a machine. */
  function RecordOf(peers: seq<Record>, device: DeviceId): Option<Record> {
    match Find(peers, device)
    case None => None
    case Some(k) => Some(peers[k])
  }

  /** The machine is on record under the name and key of its session, which is connected, trusted, and done with
      pairing. */
  predicate Paired(s: State, peer: DeviceId) {
    && peer in s.sessions
    && RecordOf(s.peers, peer) == Some(Record(peer, s.sessions[peer].name, s.sessions[peer].key))
    && s.sessions[peer].trusted && s.sessions[peer].phase.Connected? && s.sessions[peer].pairing.None?
  }

  lemma StoredRecord(peers: seq<Record>, record: Record)
    ensures RecordOf(Upserted(peers, record), record.device) == Some(record)
  {
    var at := Find(peers, record.device);
    FirstOf(Upserted(peers, record), record.device);
    assert IsFirst(Upserted(peers, record), record.device, if at.Some? then at.value else |peers|);
  }

  lemma PairingLeaves(s: State, e: Event, peer: DeviceId)
    requires Pairs(s, e, peer)
    ensures Paired(Step(s, e), peer)
  {
    StoredRecord(s.peers, Stores(s, e).value);
  }

  /** Two machines pair: the code one shows is typed on the other and reaches it, and its answer reaches the other. Then
      each has the other on record, under the key it proved to hold. */
  lemma PairingWorksBothWays(a: State, b: State, typed: string)
    requires b.self in a.sessions && Shown(b, a.self).Some? && Digits(typed) == Digits(Shown(b, a.self).value)
    ensures Paired(Step(b, CodeTyped(a.self, typed)), a.self) && Paired(Step(a, PairResult(b.self, true)), b.self)
  {
    PairingLeaves(b, CodeTyped(a.self, typed), a.self);
    PairingLeaves(a, PairResult(b.self, true), b.self);
  }

  /** A session that is connected is trusted. */
  predicate ConnectedAreTrusted(s: State) {
    forall d :: d in s.sessions && s.sessions[d].phase.Connected? ==> s.sessions[d].trusted
  }

  lemma {:induction false} ConnectedStayTrusted(s: State, events: seq<Event>)
    requires ConnectedAreTrusted(s)
    ensures ConnectedAreTrusted(Run(s, events))
    decreases events
  {
    if events != [] { ConnectedStayTrusted(Step(s, events[0]), events[1..]); }
  }

  /** Refusing, by the one machine or by the other, ends the pairing and stores nothing. */
  lemma RefusalStoresNothing(s: State, peer: DeviceId)
    requires peer in s.sessions
    ensures var refused, declined := Step(s, PairResult(peer, false)), Step(s, Gone(peer));
            && refused.peers == s.peers && declined.peers == s.peers && peer !in declined.sessions
            && peer in refused.sessions && refused.sessions[peer].phase.Refused? && refused.sessions[peer].pairing.None?
            && refused.sessions[peer].trusted == s.sessions[peer].trusted
  {
  }

  /** Coming back updates the name on record and nothing else about it. */
  lemma ComingBackUpdatesTheName(s: State, e: Event, peer: DeviceId)
    requires ComesBack(s, e, peer)
    ensures var was, now := RecordOf(s.peers, peer), RecordOf(Step(s, e).peers, peer);
            was.Some? && now == Some(was.value.(name := e.name))
  {
    var k := Find(s.peers, peer).value;
    FirstOf(Step(s, e).peers, peer);
    assert IsFirst(Step(s, e).peers, peer, k);
  }
}
