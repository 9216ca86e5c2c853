/** When a free name is always at hand: few enough names in each directory, and few enough entries on offer
    (crates/ud-engine/src/transfer.rs:110-131, crates/ud-engine/src/engine.rs:1983-2028 and 2126-2148). */
module Room {
  import opened Wrappers
  import opened Codec
  import opened Paths
  import opened Transfer
  import D = Delivery

  /** What exists directly in a directory. */
  function Names(disk: Disk, dir: Path): set<Path> {
    set p | p in disk.files.Keys + disk.dirs && p != [] && p[..|p| - 1] == dir
  }

  /** The one name in `dir` on the way to `path`. */
  function NameTowards(path: Path, dir: Path): set<Path> {
    if |dir| < |path| then {path[..|dir| + 1]} else {}
  }

  /** Making a path and everything above it adds at most one name to each directory. */
  lemma PathAddsOneName(disk: Disk, after: Disk, path: Path, dir: Path)
    requires after.files.Keys <= disk.files.Keys + Prefixes(path) && after.dirs <= disk.dirs + Prefixes(path)
    ensures Names(after, dir) <= Names(disk, dir) + NameTowards(path, dir)
    ensures |Names(after, dir)| <= |Names(disk, dir)| + 1
  {
    forall p | p in Names(after, dir) && p !in Names(disk, dir) ensures p in NameTowards(path, dir) {
      var i :| 0 <= i <= |path| && p == path[..i];
    }
    SubsetIsNoLarger(Names(after, dir), Names(disk, dir) + NameTowards(path, dir));
  }

  // ---- Entries without a path ----

  function WaitingIn(id: U64, t: Incoming): set<(U64, nat)> {
    set k | 0 <= k < |t.resolved| && t.resolved[k].None? :: (id, k)
  }

  function Waiting(r: Receiver): set<(U64, nat)> {
    set id, k | id in r.transfers && 0 <= k < |r.transfers[id].resolved| && r.transfers[id].resolved[k].None? :: (id, k)
  }

  lemma WaitingMeans(r: Receiver, x: (U64, nat))
    ensures x in Waiting(r) <==> x.0 in r.transfers && x in WaitingIn(x.0, r.transfers[x.0])
  {
  }

  lemma Swapped<T>(all: set<T>, gone: set<T>, come: set<T>)
    requires gone <= all && come !! (all - gone)
    ensures |all - gone + come| == |all| - |gone| + |come|
  {
  }

  lemma WaitingAfter(r: Receiver, after: Receiver, id: U64, u: Incoming)
    requires after.transfers == r.transfers[id := u]
    ensures id in r.transfers ==>
              |Waiting(after)| == |Waiting(r)| - |WaitingIn(id, r.transfers[id])| + |WaitingIn(id, u)|
    ensures |Waiting(after)| <= |Waiting(r)| + |WaitingIn(id, u)|
  {
    var gone := if id in r.transfers then WaitingIn(id, r.transfers[id]) else {};
    forall x ensures x in Waiting(after) <==> x in Waiting(r) - gone + WaitingIn(id, u) {
      WaitingMeans(r, x);
      WaitingMeans(after, x);
    }
    forall x ensures x in gone ==> x in Waiting(r) { WaitingMeans(r, x); }
    assert Waiting(after) == Waiting(r) - gone + WaitingIn(id, u);
    forall x ensures x in WaitingIn(id, u) ==> x !in Waiting(r) - gone { WaitingMeans(r, x); }
    Swapped(Waiting(r), gone, WaitingIn(id, u));
  }

  lemma {:induction false} NumbersBelow(id: U64, n: nat)
    ensures |set k | 0 <= k < n :: (id, k)| == n
  {
    if n > 0 {
      NumbersBelow(id, n - 1);
      assert (set k | 0 <= k < n :: (id, k)) == (set k | 0 <= k < n - 1 :: (id, k)) + {(id, n - 1)};
    }
  }

  lemma OfferWaits(id: U64, t: Incoming)
    ensures |WaitingIn(id, t)| <= |t.resolved|
  {
    NumbersBelow(id, |t.resolved|);
    SubsetIsNoLarger(WaitingIn(id, t), set k | 0 <= k < |t.resolved| :: (id, k));
  }

  lemma ResolvingOne(id: U64, t: Incoming, u: Incoming, k: nat, path: Path)
    requires k < |t.resolved| && t.resolved[k].None? && u.resolved == t.resolved[k := Some(path)]
    ensures |WaitingIn(id, u)| == |WaitingIn(id, t)| - 1
  {
    assert WaitingIn(id, u) == WaitingIn(id, t) - {(id, k)} && (id, k) in WaitingIn(id, t);
  }

  // ---- What each event adds ----

  /** Names gained in a directory are paid for by entries that find their path. */
  predicate Paid(r: Receiver, after: Receiver, dir: Path) {
    |Names(after.disk, dir)| + |Waiting(after)| <= |Names(r.disk, dir)| + |Waiting(r)|
  }

  /** Storing creates nothing but the file itself. */
  lemma StoringKeepsToThePath(r: Receiver, t: Incoming, k: nat, chunk: FileChunk, path: Path, io: Io)
      returns (after: Receiver, u: Incoming)
    requires WellSized(t) && k < |t.entries|
    ensures after == StoreChunk(r, t, k, chunk, path, io)
    ensures after.transfers == r.transfers[chunk.transfer := u] && u.resolved == t.resolved[k := Some(path)]
    ensures after.disk.dirs == r.disk.dirs && after.disk.files.Keys <= r.disk.files.Keys + {path}
  {
    after := StoreChunk(r, t, k, chunk, path, io);
    u := after.transfers[chunk.transfer];
  }

  lemma NewPathIsPaid(r: Receiver, t: Incoming, k: nat, chunk: FileChunk, io: Io, dir: Path)
    requires WellSized(t) && k < |t.entries| && t.resolved[k].None?
    requires chunk.transfer in r.transfers && r.transfers[chunk.transfer] == t
    ensures Paid(r, WriteChunk(r, t, k, chunk, io), dir)
  {
    var located := Locate(r.disk, t, k, r.overwrite, io);
    if located.Ok? {
      var (path, made) := located.value;
      var after, u := StoringKeepsToThePath(r.(disk := made), t, k, chunk, path, io);
      NewPathIsBelow(r, t, k, io);
      PathAddsOneName(r.disk, after.disk, path, dir);
      ResolvingOne(chunk.transfer, t, u, k, path);
      WaitingAfter(r, after, chunk.transfer, u);
    } else {
      assert WaitingIn(chunk.transfer, t) == WaitingIn(chunk.transfer, t.(state := Failed));
      WaitingAfter(r, WriteChunk(r, t, k, chunk, io), chunk.transfer, t.(state := Failed));
    }
  }

  lemma NewPathIsBelow(r: Receiver, t: Incoming, k: nat, io: Io)
    requires WellSized(t) && k < |t.entries| && t.resolved[k].None? && Locate(r.disk, t, k, r.overwrite, io).Ok?
    ensures var (path, made) := Locate(r.disk, t, k, r.overwrite, io).value;
            made.files == r.disk.files && made.dirs <= r.disk.dirs + Prefixes(path) && path in Prefixes(path)
  {
    var (path, made) := Locate(r.disk, t, k, r.overwrite, io).value;
    AcceptedPathsStayBelowTheRoot(t.entries[k].relativePath, t.root);
    UniquePathIsFreeIffRoom(r.disk, SanitizeRelative(t.entries[k].relativePath, t.root).value);
    assert path == path[..|path|];
    forall p | p in Prefixes(path[..|path| - 1]) ensures p in Prefixes(path) {
      var i :| 0 <= i <= |path| - 1 && p == path[..|path| - 1][..i];
      assert p == path[..i];
    }
  }

  lemma KnownPathIsPaid(r: Receiver, t: Incoming, k: nat, chunk: FileChunk, io: Io, dir: Path)
    requires WellSized(t) && k < |t.entries| && t.resolved[k].Some? && t.resolved[k].value in r.disk.files
    requires chunk.transfer in r.transfers && r.transfers[chunk.transfer] == t
    ensures Paid(r, WriteChunk(r, t, k, chunk, io), dir)
  {
    var after, u := StoringKeepsToThePath(r.(disk := r.disk), t, k, chunk, t.resolved[k].value, io);
    assert u.resolved == t.resolved && WaitingIn(chunk.transfer, u) == WaitingIn(chunk.transfer, t);
    WaitingAfter(r, after, chunk.transfer, u);
    SubsetIsNoLarger(Names(after.disk, dir), Names(r.disk, dir));
  }

  lemma ChunkIsPaid(r: Receiver, before: map<Path, Bytes>, chunk: FileChunk, io: Io, dir: Path)
    requires OwnersInv(r, before)
    ensures Paid(r, OnChunk(r, chunk, io), dir)
  {
    if Target(r, chunk).Some? {
      var t, k := r.transfers[chunk.transfer], Target(r, chunk).value;
      assert EntryOwnsItsPath(r, t);
      if t.resolved[k].None? { NewPathIsPaid(r, t, k, chunk, io, dir); } else { KnownPathIsPaid(r, t, k, chunk, io, dir); }
    }
  }

  /** From `from` on no entry has a path. */
  predicate NoneYet(t: Incoming, from: nat) {
    WellSized(t) && forall k :: from <= k < |t.resolved| ==> t.resolved[k].None?
  }

  lemma {:induction false} DirectoriesArePaid(disk: Disk, id: U64, t: Incoming, from: nat, refused: set<nat>, dir: Path)
    requires NoneYet(t, from) && from <= |t.entries|
    ensures var (made, resolved) := MakeDirectories(disk, t, from, refused);
            |resolved| == |t.resolved|
            && |Names(made, dir)| + |WaitingIn(id, t.(resolved := resolved))| <= |Names(disk, dir)| + |WaitingIn(id, t)|
    decreases |t.entries| - from
  {
    if from < |t.entries| {
      var path := SanitizeRelative(t.entries[from].relativePath, t.root);
      if t.entries[from].isDir && path.Ok? {
        var made := CreateDirAll(disk, path.value, from !in refused);
        var next := if made.Ok? then made.value else disk;
        var u := t.(resolved := t.resolved[from := Some(path.value)]);
        PathAddsOneName(disk, next, path.value, dir);
        ResolvingOne(id, t, u, from, path.value);
        DirectoriesArePaid(next, id, u, from + 1, refused, dir);
      } else {
        DirectoriesArePaid(disk, id, t, from + 1, refused, dir);
      }
    }
  }

  /** A transfer that waits to be accepted has no paths. */
  predicate PendingHasNone(r: Receiver) {
    forall id :: id in r.transfers && r.transfers[id].state.Pending? ==> NoneYet(r.transfers[id], 0)
  }

  lemma AcceptIsPaid(r: Receiver, id: U64, refused: set<nat>, dir: Path)
    requires PendingHasNone(r)
    ensures Paid(r, OnAccept(r, id, refused), dir)
  {
    if id in r.transfers && r.transfers[id].state.Pending? && WellSized(r.transfers[id]) {
      var t := r.transfers[id];
      DirectoriesArePaid(r.disk, id, t, 0, refused, dir);
      var (made, resolved) := MakeDirectories(r.disk, t, 0, refused);
      assert WaitingIn(id, t.(state := Active, resolved := resolved)) == WaitingIn(id, t.(resolved := resolved));
      WaitingAfter(r, OnAccept(r, id, refused), id, t.(state := Active, resolved := resolved));
    }
  }

  /** Entries an event puts on offer. */
  function Offers(e: Event): nat {
    if e.Offered? then |e.entries| else 0
  }

  lemma OfferIsPaid(r: Receiver, id: U64, entries: seq<FileEntry>, root: Path, dir: Path)
    ensures var after := Step(r, Offered(id, entries, root));
            |Names(after.disk, dir)| + |Waiting(after)| <= |Names(r.disk, dir)| + |Waiting(r)| + |entries|
  {
    var t := NewIncoming(r.offers, entries, root);
    WaitingAfter(r, Step(r, Offered(id, entries, root)), id, t);
    OfferWaits(id, t);
  }

  /** Everything else resolves no entry and creates nothing. */
  lemma OthersArePaid(r: Receiver, e: Event, dir: Path)
    requires !e.Offered? && !e.Accepted? && !e.ChunkArrived?
    ensures Paid(r, Step(r, e), dir)
  {
    SubsetIsNoLarger(Waiting(Step(r, e)), Waiting(r));
  }

  lemma StepIsPaid(r: Receiver, before: map<Path, Bytes>, e: Event, dir: Path)
    requires OwnersInv(r, before) && PendingHasNone(r)
    ensures |Names(Step(r, e).disk, dir)| + |Waiting(Step(r, e))| <= |Names(r.disk, dir)| + |Waiting(r)| + Offers(e)
  {
    match e
    case Offered(id, entries, root) => OfferIsPaid(r, id, entries, root, dir);
    case Accepted(id, refused) => AcceptIsPaid(r, id, refused, dir);
    case ChunkArrived(chunk, io) => ChunkIsPaid(r, before, chunk, io, dir);
    case _ => OthersArePaid(r, e, dir);
  }

  lemma StepKeepsPendingEmpty(r: Receiver, before: map<Path, Bytes>, e: Event)
    requires OwnersInv(r, before) && PendingHasNone(r) && FindsRoom(r, e)
    ensures PendingHasNone(Step(r, e))
  {
    if e.ChunkArrived? && Target(r, e.chunk).Some? { ChunkEffect(r, before, e.chunk, e.io); }
  }

  // ---- Over runs ----

  function AllOffers(events: seq<Event>): nat {
    if events == [] then 0 else Offers(events[0]) + AllOffers(events[1..])
  }

  /** In every directory, the names there are, with one for each entry still without a path and each entry to be
      offered, are fewer than the variants of a name. */
  predicate FewEnough(r: Receiver, events: seq<Event>, dir: Path) {
    |Names(r.disk, dir)| + |Waiting(r)| + AllOffers(events) < NUMBERS - 1
  }

  lemma FewEnoughFindsRoom(r: Receiver, events: seq<Event>)
    requires events != [] && forall dir: Path :: FewEnough(r, events, dir)
    ensures FindsRoom(r, events[0])
  {
    var e := events[0];
    if e.ChunkArrived? && e.chunk.transfer in r.transfers {
      var t := r.transfers[e.chunk.transfer];
      var position := PositionOf(t.entries, e.chunk.index);
      if position.Some? && WellSized(t) {
        var path := SanitizeRelative(t.entries[position.value].relativePath, t.root);
        if path.Ok? && path.value != [] {
          assert FewEnough(r, events, path.value[..|path.value| - 1]);
          assert Siblings(r.disk, path.value) == Names(r.disk, path.value[..|path.value| - 1]);
          FewNamesLeaveRoom(r.disk, path.value);
        }
      }
    }
  }

  /** That is enough for a free name to be at hand whenever one is needed. */
  lemma {:induction false} FewEnoughIsAlwaysEnough(r: Receiver, before: map<Path, Bytes>, events: seq<Event>)
    requires OwnersInv(r, before) && PendingHasNone(r) && forall dir: Path :: FewEnough(r, events, dir)
    ensures AlwaysFindsRoom(r, events)
    decreases events
  {
    if events != [] {
      var e := events[0];
      FewEnoughFindsRoom(r, events);
      forall dir: Path ensures FewEnough(Step(r, e), events[1..], dir) {
        assert FewEnough(r, events, dir);
        StepIsPaid(r, before, e, dir);
      }
      D.StepKeepsOwners(r, before, e);
      StepKeepsPendingEmpty(r, before, e);
      FewEnoughIsAlwaysEnough(Step(r, e), before, events[1..]);
    }
  }

  /** Destination separation under a condition that can be checked beforehand: no directory has so many names in it
      that they and the entries offered in the run come to 9,999. */
  lemma FewNamesKeepDestinationsApart(
      disk: Disk, events: seq<Event>, i: U64, k: nat, j: U64, l: nat, path: Path)
    requires forall dir: Path :: |Names(disk, dir)| + AllOffers(events) < NUMBERS - 1
    ensures var end := Run(Receiver(disk, map[], false, 0, map[]), events);
            && (forall p :: p in disk.files ==> p in end.disk.files && end.disk.files[p] == disk.files[p])
            && (D.WritesTo(end, i, k, path) && D.WritesTo(end, j, l, path) ==> i == j && k == l)
  {
    var start := Receiver(disk, map[], false, 0, map[]);
    assert Waiting(start) == {};
    forall dir: Path ensures FewEnough(start, events, dir) {
      assert |Names(disk, dir)| + AllOffers(events) < NUMBERS - 1;
    }
    FewEnoughIsAlwaysEnough(start, disk.files, events);
    D.DestinationSeparation(disk, events, i, k, j, l, path);
  }
}
