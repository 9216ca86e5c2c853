/** Which machine is who: sessions, pairing, and the keys pinned in the peer store
    (crates/ud-engine/src/engine.rs:849-983 and 1082-1268, crates/ud-core/src/config.rs:208-281). */
module Trust {
  import opened Wrappers
  import opened Identity

  type Key = string

  datatype Record = Record(device: DeviceId, name: string, key: Key)

  datatype KeyChange = New | Unchanged | Replaced

  // ---- The peer store ----

  /** Where the record of a device is: the first one under its id. */
  function Find(peers: seq<Record>, device: DeviceId): (at: Option<nat>)
    ensures at.Some? ==> at.value < |peers| && peers[at.value].device == device
                         && forall k :: 0 <= k < at.value ==> peers[k].device != device
    ensures at.None? ==> forall k :: 0 <= k < |peers| ==> peers[k].device != device
  {
    if peers == [] then None
    else if peers[0].device == device then Some(0)
    else
      match Find(peers[1..], device)
      case None => None
      case Some(k) => Some(k + 1)
  }

  function KeyOf(peers: seq<Record>, device: DeviceId): Option<Key> {
    match Find(peers, device)
    case None => None
    case Some(k) => Some(peers[k].key)
  }

  function Upserted(peers: seq<Record>, record: Record): seq<Record> {
    match Find(peers, record.device)
    case None => peers + [record]
    case Some(k) => peers[k := record]
  }

  function ChangeOf(peers: seq<Record>, record: Record): KeyChange {
    match KeyOf(peers, record.device)
    case None => New
    case Some(key) => if key == record.key then Unchanged else Replaced
  }

  function Removed(peers: seq<Record>, device: DeviceId): seq<Record> {
    if peers == [] then []
    else (if peers[0].device == device then [] else [peers[0]]) + Removed(peers[1..], device)
  }

  function Renamed(peers: seq<Record>, device: DeviceId, name: string): seq<Record> {
    match Find(peers, device)
    case None => peers
    case Some(k) => peers[k := peers[k].(name := name)]
  }

  class PeerStore {
    var peers: seq<Record>

    constructor (peers: seq<Record>)
      ensures this.peers == peers
    {
      this.peers := peers;
    }

    method Locate(device: DeviceId) returns (at: Option<nat>)
      ensures at == Find(peers, device)
    {
      for i := 0 to |peers|
        invariant forall k :: 0 <= k < i ==> peers[k].device != device
      {
        if peers[i].device == device {
          return Some(i);
        }
      }
      return None;
    }

    method Get(device: DeviceId) returns (record: Option<Record>)
      ensures record.Some? <==> KeyOf(peers, device).Some?
      ensures record.Some? ==> record.value in peers && record.value.device == device
                               && KeyOf(peers, device) == Some(record.value.key)
    {
      var at := Locate(device);
      return if at.Some? then Some(peers[at.value]) else None;
    }

    /** Stores a record in place of the one under the same id and says what became of the key. */
    method Upsert(record: Record) returns (change: KeyChange)
      modifies this
      ensures peers == Upserted(old(peers), record) && change == ChangeOf(old(peers), record)
    {
      var at := Locate(record.device);
      if at.None? {
        peers := peers + [record];
        return New;
      }
      change := if peers[at.value].key != record.key then Replaced else Unchanged;
      peers := peers[at.value := record];
    }

    method Rename(device: DeviceId, name: string)
      modifies this
      ensures peers == Renamed(old(peers), device, name)
    {
      var at := Locate(device);
      if at.Some? {
        peers := peers[at.value := peers[at.value].(name := name)];
      }
    }

    method Remove(device: DeviceId) returns (changed: bool)
      modifies this
      ensures peers == Removed(old(peers), device)
      ensures changed <==> KeyOf(old(peers), device).Some?
    {
      var kept: seq<Record> := [];
      for i := 0 to |peers|
        invariant peers == old(peers) && kept + Removed(peers[i..], device) == Removed(peers, device)
      {
        assert peers[i..][0] == peers[i] && peers[i..][1..] == peers[i + 1..];
        if peers[i].device != device {
          kept := kept + [peers[i]];
        }
      }
      assert peers[|peers|..] == [];
      RemovalShortens(peers, device);
      changed := |kept| != |peers|;
      peers := kept;
    }
  }

  lemma {:induction false} RemovalShortens(peers: seq<Record>, device: DeviceId)
    ensures |Removed(peers, device)| <= |peers|
    ensures |Removed(peers, device)| == |peers| <==> KeyOf(peers, device).None?
  {
    if peers != [] {
      RemovalShortens(peers[1..], device);
    }
  }

  /** Storing a record is seen under its own id and no other. */
  lemma UpsertSetsOneKey(peers: seq<Record>, record: Record, device: DeviceId)
    ensures KeyOf(Upserted(peers, record), device) == if device == record.device then Some(record.key) else KeyOf(peers, device)
  {
    var after, at := Upserted(peers, record), Find(peers, record.device);
    FirstOf(after, device);
    if device == record.device {
      assert IsFirst(after, device, if at.Some? then at.value else |peers|);
    } else if Find(peers, device).Some? {
      assert IsFirst(after, device, Find(peers, device).value);
    }
  }

  predicate IsFirst(peers: seq<Record>, device: DeviceId, k: nat) {
    k < |peers| && peers[k].device == device && forall j :: 0 <= j < k ==> peers[j].device != device
  }

  /** The first record under an id is the only candidate for it. */
  lemma FirstOf(peers: seq<Record>, device: DeviceId)
    ensures forall k :: 0 <= k < |peers| && IsFirst(peers, device, k) ==> Find(peers, device) == Some(k)
  {
  }

  lemma RenameKeepsKeys(peers: seq<Record>, renamed: DeviceId, name: string, device: DeviceId)
    ensures KeyOf(Renamed(peers, renamed, name), device) == KeyOf(peers, device)
  {
    FirstOf(Renamed(peers, renamed, name), device);
    if Find(peers, device).Some? { assert IsFirst(Renamed(peers, renamed, name), device, Find(peers, device).value); }
  }

  lemma KeyInFront(first: Record, rest: seq<Record>, device: DeviceId)
    ensures KeyOf([first] + rest, device) == if first.device == device then Some(first.key) else KeyOf(rest, device)
  {
    assert ([first] + rest)[1..] == rest;
  }

  lemma {:induction false} RemovalForgetsOneKey(peers: seq<Record>, removed: DeviceId, device: DeviceId)
    ensures KeyOf(Removed(peers, removed), device) == if device == removed then None else KeyOf(peers, device)
  {
    if peers != [] {
      RemovalForgetsOneKey(peers[1..], removed, device);
      var rest := Removed(peers[1..], removed);
      assert peers == [peers[0]] + peers[1..];
      KeyInFront(peers[0], peers[1..], device);
      if peers[0].device != removed { KeyInFront(peers[0], rest, device); } else { assert [] + rest == rest; }
    }
  }

  // ---- Sessions and pairing ----

  /** The code this machine shows, if it does, and how often it was mistyped. */
  datatype Pairing = Pairing(codeToShare: Option<string>, awaitingCode: bool, attempts: nat)

  datatype Phase = Connected | PairingUp | Refused

  /** A live session. `initiator` says whether this machine dialled; `key` is the one the other machine
      proved to hold. */
  datatype Session = Session(
    name: string, key: Key, initiator: bool, trusted: bool, phase: Phase, pairing: Option<Pairing>)

  datatype State = State(self: DeviceId, sessions: map<DeviceId, Session>, peers: seq<Record>)

  /** What can happen; `code` is the one drawn if a code has to be drawn. */
  datatype Event =
    | Established(peer: DeviceId, name: string, key: Key, initiator: bool, code: string)
    | CodeAnnounced(peer: DeviceId)
    | Handoff(peer: DeviceId, code: string)
    | CodeTyped(peer: DeviceId, typed: string)
    | PairResult(peer: DeviceId, accepted: bool)
    | Gone(peer: DeviceId)
    | Forget(peer: DeviceId)

  const MAX_ATTEMPTS := 3

  function Digits(code: string): string {
    if code == "" then "" else (if '0' <= code[0] <= '9' then [code[0]] else []) + Digits(code[1..])
  }

  function Showing(code: string): Option<Pairing> {
    Some(Pairing(Some(code), false, 0))
  }

  /** Whether a connection is the one to keep: the machine whose id comes first is to have dialled. */
  predicate Preferred(self: DeviceId, peer: DeviceId, initiator: bool) {
    initiator == Before(self, peer)
  }

  function Remember(s: State, peer: DeviceId): State
    requires peer in s.sessions
  {
    var session := s.sessions[peer];
    s.(peers := Upserted(s.peers, Record(peer, session.name, session.key)),
       sessions := s.sessions[peer := session.(trusted := true, phase := Connected, pairing := None)])
  }

  function OnEstablished(s: State, peer: DeviceId, name: string, key: Key, initiator: bool, code: string): State {
    var stored := KeyOf(s.peers, peer);
    if stored.Some? && stored.value != key then s
    else if peer in s.sessions && Preferred(s.self, peer, s.sessions[peer].initiator) && !Preferred(s.self, peer, initiator)
    then s
    else
      var trusted := stored.Some?;
      var pairing := if !trusted && Before(peer, s.self) then Showing(code) else None;
      s.(sessions := s.sessions[peer := Session(name, key, initiator, trusted, if trusted then Connected else PairingUp, pairing)],
         peers := Renamed(s.peers, peer, name))
  }

  function OnCodeAnnounced(s: State, peer: DeviceId): State {
    if peer in s.sessions && !s.sessions[peer].trusted then
      s.(sessions := s.sessions[peer := s.sessions[peer].(phase := PairingUp, pairing := Some(Pairing(None, true, 0)))])
    else s
  }

  function OnHandoff(s: State, peer: DeviceId, code: string): State {
    if peer in s.sessions && !s.sessions[peer].trusted
       && (s.sessions[peer].pairing.None? || !s.sessions[peer].pairing.value.awaitingCode)
    then s.(sessions := s.sessions[peer := s.sessions[peer].(phase := PairingUp, pairing := Showing(code))])
    else s
  }

  /** The code a session shows. */
  function Shown(s: State, peer: DeviceId): Option<string> {
    if peer in s.sessions && s.sessions[peer].pairing.Some? then s.sessions[peer].pairing.value.codeToShare else None
  }

  function OnCodeTyped(s: State, peer: DeviceId, typed: string): State {
    if Shown(s, peer).None? then s
    else if Digits(typed) == Digits(Shown(s, peer).value) then Remember(s, peer)
    else
      var session := s.sessions[peer];
      var attempts := session.pairing.value.attempts + 1;
      if attempts >= MAX_ATTEMPTS then s.(sessions := s.sessions - {peer})
      else s.(sessions := s.sessions[peer := session.(pairing := Some(session.pairing.value.(attempts := attempts)))])
  }

  function PairAnswered(s: State, peer: DeviceId, accepted: bool): State {
    if peer !in s.sessions then s
    else if accepted then Remember(s, peer)
    else s.(sessions := s.sessions[peer := s.sessions[peer].(phase := Refused, pairing := None)])
  }

  function Step(s: State, e: Event): State {
    match e
    case Established(peer, name, key, initiator, code) => OnEstablished(s, peer, name, key, initiator, code)
    case CodeAnnounced(peer) => OnCodeAnnounced(s, peer)
    case Handoff(peer, code) => OnHandoff(s, peer, code)
    case CodeTyped(peer, typed) => OnCodeTyped(s, peer, typed)
    case PairResult(peer, accepted) => PairAnswered(s, peer, accepted)
    case Gone(peer) => s.(sessions := s.sessions - {peer})
    case Forget(peer) => s.(peers := Removed(s.peers, peer))
  }

  function Run(s: State, events: seq<Event>): State
    decreases events
  {
    if events == [] then s else Run(Step(s, events[0]), events[1..])
  }

  // ---- The engine's own state ----

  class TrustKeeper {
    const self: DeviceId
    var sessions: map<DeviceId, Session>
    const store: PeerStore

    ghost function View(): State
      reads this, store
    {
      State(self, sessions, store.peers)
    }

    constructor (self: DeviceId, peers: seq<Record>)
      ensures View() == State(self, map[], peers) && fresh(store)
    {
      this.self, sessions := self, map[];
      store := new PeerStore(peers);
    }

    /** Refuses a key other than the stored one, and settles two connections dialled at once. */
    method OnSessionEstablished(peer: DeviceId, name: string, key: Key, initiator: bool, code: string)
      modifies this, store
      ensures View() == OnEstablished(old(View()), peer, name, key, initiator, code)
    {
      var record := store.Get(peer);
      if record.Some? && record.value.key != key {
        return;
      }
      var trusted := record.Some?;
      var preferred := initiator == Before(self, peer);
      if peer in sessions {
        var existingPreferred := sessions[peer].initiator == Before(self, peer);
        if existingPreferred && !preferred {
          return;
        }
      }
      sessions := sessions[peer := Session(name, key, initiator, trusted, if trusted then Connected else PairingUp, None)];
      store.Rename(peer, name);
      if !trusted && Before(peer, self) {
        RequestPairing(peer, code);
      }
    }

    method RequestPairing(peer: DeviceId, code: string)
      modifies this
      ensures sessions == if peer in old(sessions)
                          then old(sessions)[peer := old(sessions)[peer].(phase := PairingUp, pairing := Showing(code))]
                          else old(sessions)
    {
      if peer in sessions {
        sessions := sessions[peer := sessions[peer].(phase := PairingUp, pairing := Showing(code))];
      }
    }

    method OnPairRequired(peer: DeviceId)
      modifies this
      ensures View() == OnCodeAnnounced(old(View()), peer)
    {
      if peer in sessions && !sessions[peer].trusted {
        sessions := sessions[peer := sessions[peer].(phase := PairingUp, pairing := Some(Pairing(None, true, 0)))];
      }
    }

    method OnPairingHandoff(peer: DeviceId, code: string)
      modifies this
      ensures View() == OnHandoff(old(View()), peer, code)
    {
      var needsCode := peer in sessions && !sessions[peer].trusted
                       && (sessions[peer].pairing.None? || !sessions[peer].pairing.value.awaitingCode);
      if needsCode {
        RequestPairing(peer, code);
      }
    }

    /** Stores the key a session was established with under the id of its peer. */
    method RememberPeer(peer: DeviceId)
      requires peer in sessions
      modifies this, store
      ensures View() == Remember(old(View()), peer)
    {
      var session := sessions[peer];
      var _ := store.Upsert(Record(peer, session.name, session.key));
      sessions := sessions[peer := session.(trusted := true, phase := Connected, pairing := None)];
    }

    method OnPairResponse(peer: DeviceId, typed: string)
      modifies this, store
      ensures View() == OnCodeTyped(old(View()), peer, typed)
    {
      if peer !in sessions || sessions[peer].pairing.None? || sessions[peer].pairing.value.codeToShare.None? {
        return;
      }
      var session := sessions[peer];
      if Digits(typed) == Digits(session.pairing.value.codeToShare.value) {
        RememberPeer(peer);
      } else {
        var pairing := session.pairing.value.(attempts := session.pairing.value.attempts + 1);
        sessions := sessions[peer := session.(pairing := Some(pairing))];
        if pairing.attempts >= MAX_ATTEMPTS {
          sessions := sessions - {peer};
        }
      }
    }

    method OnPairResult(peer: DeviceId, accepted: bool)
      modifies this, store
      ensures View() == PairAnswered(old(View()), peer, accepted)
    {
      if peer !in sessions {
        return;
      }
      if accepted {
        RememberPeer(peer);
      } else {
        sessions := sessions[peer := sessions[peer].(phase := Refused, pairing := None)];
      }
    }

    method Handle(e: Event)
      modifies this, store
      ensures View() == Step(old(View()), e)
    {
      match e {
        case Established(peer, name, key, initiator, code) => OnSessionEstablished(peer, name, key, initiator, code);
        case CodeAnnounced(peer) => OnPairRequired(peer);
        case Handoff(peer, code) => OnPairingHandoff(peer, code);
        case CodeTyped(peer, typed) => OnPairResponse(peer, typed);
        case PairResult(peer, accepted) => OnPairResult(peer, accepted);
        case Gone(peer) => sessions := sessions - {peer};
        case Forget(peer) => var _ := store.Remove(peer);
      }
    }
  }

  // ---- Pinned keys ----

  /** A device with a session and a record has the same key in both. */
  predicate Agrees(s: State) {
    forall d :: d in s.sessions && KeyOf(s.peers, d).Some? ==> KeyOf(s.peers, d).value == s.sessions[d].key
  }

  /** The record an event stores. */
  function Stores(s: State, e: Event): Option<Record> {
    if (e.CodeTyped? && Shown(s, e.peer).Some? && Digits(e.typed) == Digits(Shown(s, e.peer).value))
       || (e.PairResult? && e.accepted && e.peer in s.sessions)
    then Some(Record(e.peer, s.sessions[e.peer].name, s.sessions[e.peer].key))
    else None
  }

  /** What an event does to the key of a device: `Forget` alone removes it, and once there it never
      changes. A key appears only when a session pairs, and is that session's. */
  lemma StoredKeyAfter(s: State, e: Event, device: DeviceId)
    requires Agrees(s)
    ensures KeyOf(Step(s, e).peers, device)
         == if e == Forget(device) then None
            else if KeyOf(s.peers, device).Some? then KeyOf(s.peers, device)
            else if Stores(s, e).Some? && e.peer == device then Some(s.sessions[device].key)
            else None
  {
    var stored := Stores(s, e);
    if e.Established? { RenameKeepsKeys(s.peers, e.peer, e.name, device); }
    if e.Forget? { RemovalForgetsOneKey(s.peers, e.peer, device); }
    if stored.Some? { UpsertSetsOneKey(s.peers, stored.value, device); }
  }

  /** A session's key is the one it had, or that of a connection which was not refused. */
  lemma SessionKeyAfter(s: State, e: Event, device: DeviceId)
    requires device in Step(s, e).sessions
    ensures var key := Step(s, e).sessions[device].key;
            || (device in s.sessions && key == s.sessions[device].key)
            || (e.Established? && e.peer == device && (KeyOf(s.peers, device).None? || KeyOf(s.peers, device).value == key))
  {
  }

  lemma StepKeepsAgreement(s: State, e: Event)
    requires Agrees(s)
    ensures Agrees(Step(s, e))
  {
    var after := Step(s, e);
    forall d | d in after.sessions && KeyOf(after.peers, d).Some? ensures KeyOf(after.peers, d).value == after.sessions[d].key {
      StoredKeyAfter(s, e, d);
      SessionKeyAfter(s, e, d);
    }
  }

  /** Storing a paired machine never replaces a key. */
  lemma NothingIsReplaced(s: State, e: Event)
    requires Agrees(s) && Stores(s, e).Some?
    ensures Step(s, e).peers == Upserted(s.peers, Stores(s, e).value)
    ensures ChangeOf(s.peers, Stores(s, e).value) != Replaced
  {
  }

  /** Every machine starts without sessions, whatever is in its store. */
  lemma {:induction false} RunKeepsAgreement(s: State, events: seq<Event>)
    requires Agrees(s)
    ensures Agrees(Run(s, events))
    decreases events
  {
    if events != [] {
      StepKeepsAgreement(s, events[0]);
      RunKeepsAgreement(Step(s, events[0]), events[1..]);
    }
  }

  /** A pinned key stays what it is until its machine is forgotten. */
  lemma {:induction false} PinnedKeysStay(s: State, events: seq<Event>, device: DeviceId)
    requires Agrees(s) && KeyOf(s.peers, device).Some?
    requires Forget(device) !in events
    ensures KeyOf(Run(s, events).peers, device) == KeyOf(s.peers, device)
    decreases events
  {
    if events != [] {
      StepKeepsAgreement(s, events[0]);
      StoredKeyAfter(s, events[0], device);
      PinnedKeysStay(Step(s, events[0]), events[1..], device);
    }
  }

  /** Trust rests on the store: while a machine is not forgotten, a trusted session with it has the key
      that is stored for it. */
  predicate TrustIsBacked(s: State, device: DeviceId) {
    device in s.sessions && s.sessions[device].trusted ==> KeyOf(s.peers, device) == Some(s.sessions[device].key)
  }

  lemma {:induction false} TrustStaysBacked(s: State, events: seq<Event>, device: DeviceId)
    requires Agrees(s) && TrustIsBacked(s, device) && Forget(device) !in events
    ensures TrustIsBacked(Run(s, events), device)
    decreases events
  {
    if events != [] {
      StepKeepsAgreement(s, events[0]);
      StoredKeyAfter(s, events[0], device);
      TrustStaysBacked(Step(s, events[0]), events[1..], device);
    }
  }

  // ---- Connections ----

  /** A connection with `peer` comes up under a key that is not refused. */
  predicate Dialled(s: State, peer: DeviceId, e: Event) {
    e.Established? && e.peer == peer && (KeyOf(s.peers, peer).Some? ==> KeyOf(s.peers, peer).value == e.key)
  }

  /** It is dropped, because the connection to keep is there already. */
  predicate Redundant(s: State, e: Event)
    requires e.Established?
  {
    e.peer in s.sessions && Preferred(s.self, e.peer, s.sessions[e.peer].initiator) && !Preferred(s.self, e.peer, e.initiator)
  }

  /** An event concerns the session and the record of one machine only. */
  lemma OthersStay(s: State, e: Event, device: DeviceId)
    requires e.peer != device
    ensures Step(s, e).self == s.self
    ensures device in Step(s, e).sessions <==> device in s.sessions
    ensures device in s.sessions ==> Step(s, e).sessions[device] == s.sessions[device]
    ensures KeyOf(Step(s, e).peers, device) == KeyOf(s.peers, device)
  {
    var stored := Stores(s, e);
    if e.Established? { RenameKeepsKeys(s.peers, e.peer, e.name, device); }
    if e.Forget? { RemovalForgetsOneKey(s.peers, e.peer, device); }
    if stored.Some? { UpsertSetsOneKey(s.peers, stored.value, device); }
  }
}
