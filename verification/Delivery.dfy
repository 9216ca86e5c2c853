/** What the receiver of Transfer.dfy guarantees over whole runs: files are kept apart, what arrives
    is what was sent, and the counters add up. */
module Delivery {
  import opened Wrappers
  import opened Codec
  import opened Paths
  import opened Transfer

  // ---- Separation ----

  lemma {:induction false} MakeDirectoriesTouchesNoFile(disk: Disk, t: Incoming, from: nat, refused: set<nat>)
    requires WellSized(t) && from <= |t.entries|
    ensures var (after, resolved) := MakeDirectories(disk, t, from, refused);
            && after.files == disk.files && |resolved| == |t.entries|
            && forall k :: 0 <= k < |t.entries| && !t.entries[k].isDir ==> resolved[k] == t.resolved[k]
    decreases |t.entries| - from
  {
    if from < |t.entries| {
      MakeDirectoriesTouchesNoFile(disk, t, from + 1, refused);
      if t.entries[from].isDir {
        var path := SanitizeRelative(t.entries[from].relativePath, t.root);
        if path.Ok? {
          var made := CreateDirAll(disk, path.value, from !in refused);
          MakeDirectoriesTouchesNoFile(
            if made.Ok? then made.value else disk,
            t.(resolved := t.resolved[from := Some(path.value)]), from + 1, refused);
        }
      }
    }
  }

  /** `u` makes no claim to a path that `t` did not make. */
  predicate NoNewClaims(t: Incoming, u: Incoming) {
    && u.offer == t.offer && u.entries == t.entries && |u.resolved| == |t.resolved| && |u.written| == |t.written|
    && u.handles <= t.handles
    && (forall k :: 0 <= k < |t.entries| && k < |t.resolved| ==>
          u.resolved[k] == t.resolved[k] || (t.entries[k].isDir && u.resolved[k].Some?))
    && (u.state.Active? ==> t.state.Active? || t.state.Pending?)
    && (u.state.Pending? ==> t.state.Pending?)
  }

  lemma ClaimsKept(r: Receiver, before: map<Path, Bytes>, after: Receiver)
    requires OwnersInv(r, before)
    requires after == r.(disk := r.disk.(dirs := after.disk.dirs), transfers := after.transfers)
    requires forall id :: id in after.transfers ==>
               id in r.transfers && NoNewClaims(r.transfers[id], after.transfers[id])
    ensures OwnersInv(after, before)
  {
    forall id | id in after.transfers ensures EntryOwnsItsPath(after, after.transfers[id]) {
      assert EntryOwnsItsPath(r, r.transfers[id]);
      assert NoNewClaims(r.transfers[id], after.transfers[id]);
    }
  }

  lemma OfferKeepsOwners(r: Receiver, before: map<Path, Bytes>, id: U64, entries: seq<FileEntry>, root: Path)
    requires OwnersInv(r, before)
    ensures OwnersInv(Step(r, Offered(id, entries, root)), before)
  {
    var after := Step(r, Offered(id, entries, root));
    forall i | i in after.transfers ensures EntryOwnsItsPath(after, after.transfers[i]) {
      if i in r.transfers { assert EntryOwnsItsPath(r, r.transfers[i]); }
    }
  }

  lemma AcceptMakesNoClaims(r: Receiver, id: U64, refused: set<nat>)
    requires id in r.transfers && r.transfers[id].state.Pending? && WellSized(r.transfers[id])
    ensures var after := OnAccept(r, id, refused);
            && after == r.(disk := r.disk.(dirs := after.disk.dirs), transfers := after.transfers)
            && after.transfers == r.transfers[id := after.transfers[id]]
            && NoNewClaims(r.transfers[id], after.transfers[id])
  {
    var t := r.transfers[id];
    MakeDirectoriesTouchesNoFile(r.disk, t, 0, refused);
    DirectoriesResolveToPaths(r.disk, t, 0, refused);
  }

  lemma {:induction false} DirectoriesResolveToPaths(disk: Disk, t: Incoming, from: nat, refused: set<nat>)
    requires WellSized(t) && from <= |t.entries|
    ensures var resolved := MakeDirectories(disk, t, from, refused).1;
            |resolved| == |t.entries| && forall k :: 0 <= k < |t.entries| ==>
              resolved[k] == t.resolved[k] || (t.entries[k].isDir && resolved[k].Some?)
    decreases |t.entries| - from
  {
    if from < |t.entries| {
      DirectoriesResolveToPaths(disk, t, from + 1, refused);
      if t.entries[from].isDir {
        var path := SanitizeRelative(t.entries[from].relativePath, t.root);
        if path.Ok? {
          var made := CreateDirAll(disk, path.value, from !in refused);
          DirectoriesResolveToPaths(
            if made.Ok? then made.value else disk,
            t.(resolved := t.resolved[from := Some(path.value)]), from + 1, refused);
        }
      }
    }
  }

  /** Events other than chunks leave every file and every owner alone. */
  lemma OtherEventsKeepOwners(r: Receiver, before: map<Path, Bytes>, e: Event)
    requires OwnersInv(r, before) && !e.ChunkArrived?
    ensures OwnersInv(Step(r, e), before) && Untouched(r, Step(r, e))
  {
    if e.Offered? {
      OfferKeepsOwners(r, before, e.id, e.entries, e.root);
    } else {
      if e.Accepted? && e.id in r.transfers && r.transfers[e.id].state.Pending? && WellSized(r.transfers[e.id]) {
        AcceptMakesNoClaims(r, e.id, e.refused);
      }
      ClaimsKept(r, before, Step(r, e));
    }
  }

  lemma StepKeepsOwners(r: Receiver, before: map<Path, Bytes>, e: Event)
    requires OwnersInv(r, before) && FindsRoom(r, e)
    ensures OwnersInv(Step(r, e), before)
    ensures r.owners.Items <= Step(r, e).owners.Items
  {
    if e.ChunkArrived? { ChunkKeepsOwners(r, before, e.chunk, e.io); }
    else { OtherEventsKeepOwners(r, before, e); }
  }

  /** A file that exists is changed only by a chunk for the entry it was created for. */
  lemma OnlyTheOwnerWrites(r: Receiver, before: map<Path, Bytes>, e: Event, path: Path)
    requires OwnersInv(r, before) && FindsRoom(r, e) && path in r.disk.files
    ensures var after := Step(r, e).disk;
            && path in after.files
            && (after.files[path] != r.disk.files[path] ==>
                  && e.ChunkArrived? && Target(r, e.chunk).Some?
                  && path in r.owners
                  && r.owners[path] == (r.transfers[e.chunk.transfer].offer, Target(r, e.chunk).value))
  {
    if e.ChunkArrived? {
      if Target(r, e.chunk).Some? { ChunkEffect(r, before, e.chunk, e.io); }
    } else {
      OtherEventsKeepOwners(r, before, e);
    }
  }

  lemma {:induction false} RunKeepsOwners(r: Receiver, before: map<Path, Bytes>, events: seq<Event>)
    requires OwnersInv(r, before) && AlwaysFindsRoom(r, events)
    ensures OwnersInv(Run(r, events), before)
    ensures r.owners.Items <= Run(r, events).owners.Items
    decreases events
  {
    if events != [] {
      StepKeepsOwners(r, before, events[0]);
      RunKeepsOwners(Step(r, events[0]), before, events[1..]);
    }
  }

  /** A file entry of an active transfer, and where it is being written. */
  predicate WritesTo(r: Receiver, id: U64, k: nat, path: Path) {
    && id in r.transfers && r.transfers[id].state.Active? && WellSized(r.transfers[id])
    && k < |r.transfers[id].entries| && !r.transfers[id].entries[k].isDir
    && r.transfers[id].resolved[k] == Some(path)
  }

  /** Destination separation. With overwriting off and a free name at hand whenever one is needed,
      over any offers, chunks, reports, failures and cancellations of any number of transfers: the
      files that were there before are as they were, every file created keeps the owner it was
      created for, and no two entries being received are written to the same place. */
  lemma DestinationSeparation(disk: Disk, events: seq<Event>, i: U64, k: nat, j: U64, l: nat, path: Path)
    requires AlwaysFindsRoom(Receiver(disk, map[], false, 0, map[]), events)
    ensures var end := Run(Receiver(disk, map[], false, 0, map[]), events);
            && (forall p :: p in disk.files ==> p in end.disk.files && end.disk.files[p] == disk.files[p])
            && (forall p :: p in end.owners ==> p !in disk.files && p in end.disk.files)
            && (WritesTo(end, i, k, path) ==> path in end.owners && end.owners[path] == (end.transfers[i].offer, k))
            && (WritesTo(end, i, k, path) && WritesTo(end, j, l, path) ==> i == j && k == l)
  {
    var start := Receiver(disk, map[], false, 0, map[]);
    RunKeepsOwners(start, disk.files, events);
    var end := Run(start, events);
    if WritesTo(end, i, k, path) { assert EntryOwnsItsPath(end, end.transfers[i]); }
    if WritesTo(end, j, l, path) { assert EntryOwnsItsPath(end, end.transfers[j]); }
  }

  // ---- Fidelity ----

  /** Events that start, stop or replace the transfer `id`; anything else may happen meanwhile. */
  predicate Disturbs(e: Event, id: U64) {
    match e
    case Offered(i, _, _) => i == id
    case Accepted(i, _) => i == id
    case Finished(i, _) => i == id
    case CancelRequested(i) => i == id
    case SessionLost(ids) => id in ids
    case _ => false
  }

  predicate Undisturbed(events: seq<Event>, id: U64) {
    forall e :: e in events ==> !Disturbs(e, id)
  }

  predicate IsFor(e: Event, id: U64) {
    e.ChunkArrived? && e.chunk.transfer == id
  }

  /** The chunks of one transfer among everything that arrives, in the order they arrive. */
  function ChunksFor(events: seq<Event>, id: U64): seq<FileChunk> {
    if events == [] then []
    else (if IsFor(events[0], id) then [events[0].chunk] else [])
         + ChunksFor(events[1..], id)
  }

  predicate IsActive(r: Receiver, id: U64) {
    id in r.transfers && r.transfers[id].state.Active?
  }

  lemma StaysInactive(r: Receiver, id: U64, e: Event)
    requires !IsActive(r, id) && !Disturbs(e, id)
    ensures !IsActive(Step(r, e), id)
  {
  }

  lemma {:induction false} InactiveStaysInactive(r: Receiver, id: U64, events: seq<Event>)
    requires !IsActive(r, id) && Undisturbed(events, id)
    ensures !IsActive(Run(r, events), id)
    decreases events
  {
    if events != [] {
      assert events[0] in events;
      StaysInactive(r, id, events[0]);
      InactiveStaysInactive(Step(r, events[0]), id, events[1..]);
    }
  }

  /** The files of an offer, numbered by position as the sender numbers them. */
  predicate IsOffer(files: seq<OutgoingFile>) {
    && Sendable(files)
    && forall k :: 0 <= k < |files| ==>
         files[k].entry.index == k && (files[k].entry.isDir ==> files[k].source.None?)
  }

  /** How much of the file at position `k` has been streamed. */
  function Got(files: seq<OutgoingFile>, at: Cursor, k: nat): nat
    requires k < |files|
  {
    if k < at.file then |Content(files[k])| else if k == at.file then at.offset else 0
  }

  predicate InBounds(files: seq<OutgoingFile>, at: Cursor) {
    at.file <= |files| && if at.file < |files| then at.offset <= |Content(files[at.file])| else at.offset == 0
  }

  /** Of each file exactly what has been streamed is on disk, at the path its entry has; a file of
      which nothing has come has no path and so does not exist. */
  predicate Landed(r: Receiver, id: U64, files: seq<OutgoingFile>, at: Cursor) {
    && IsActive(r, id) && InBounds(files, at)
    && var t := r.transfers[id];
       && WellSized(t) && |t.entries| == |files|
       && (forall k :: 0 <= k < |files| ==> t.entries[k] == files[k].entry)
       && (forall k :: 0 <= k < |files| && !files[k].entry.isDir ==> FileLanded(r, t, files, at, k))
  }

  predicate FileLanded(r: Receiver, t: Incoming, files: seq<OutgoingFile>, at: Cursor, k: nat)
    requires k < |files| && k < |t.resolved| && InBounds(files, at)
  {
    var got := Got(files, at, k);
    if got == 0 then t.resolved[k].None?
    else
      && t.resolved[k].Some? && t.resolved[k].value in r.disk.files
      && got <= |Content(files[k])| && r.disk.files[t.resolved[k].value] == Content(files[k])[..got]
  }

  lemma {:induction false} SettlingKeepsLanded(r: Receiver, id: U64, files: seq<OutgoingFile>, at: Cursor)
    requires Landed(r, id, files, at)
    ensures Landed(r, id, files, Settle(files, at))
    decreases |files| - at.file
  {
    if at.file < |files| && at.offset >= |Content(files[at.file])| {
      var next := Cursor(at.file + 1, 0);
      forall k | 0 <= k < |files| && !files[k].entry.isDir
        ensures FileLanded(r, r.transfers[id], files, next, k)
      {
        assert FileLanded(r, r.transfers[id], files, at, k);
      }
      SettlingKeepsLanded(r, id, files, next);
    }
  }

  /** A write that carries on where the file ends extends it. */
  lemma WritingOn(content: Bytes, offset: nat, data: Bytes)
    requires offset + |data| <= |content| && data == content[offset..offset + |data|]
    ensures WriteAt(content[..offset], offset, data) == content[..offset + |data|]
  {
    assert content[..offset] + data == content[..offset + |data|];
  }

  /** Where a chunk was stored, if its transfer is still active, and what is there now. */
  lemma StoredContent(r: Receiver, t: Incoming, position: nat, chunk: FileChunk, io: Io)
    requires WellSized(t) && position < |t.entries| && t.state.Active? && !r.overwrite
    requires t.resolved[position].Some? ==> t.resolved[position].value in r.disk.files
    requires t.resolved[position].None? ==> chunk.index !in t.handles && RoomFor(r.disk, t, position)
    ensures var after := WriteChunk(r, t, position, chunk, io);
            IsActive(after, chunk.transfer) ==>
              var u := after.transfers[chunk.transfer];
              && WellSized(u) && |u.entries| == |t.entries| && u.resolved[position].Some?
              && var path := u.resolved[position].value;
                 var content := if path in r.disk.files then r.disk.files[path] else [];
                 && (if t.resolved[position].Some? then path == t.resolved[position].value else path !in r.disk.files)
                 && path in after.disk.files && after.disk.files[path] == WriteAt(content, chunk.offset, chunk.data)
  {
    LocateEffect(r, t, position, io);
  }

  lemma NextChunkIsForTheNextFile(r: Receiver, files: seq<OutgoingFile>, at: Cursor, chunk: FileChunk)
    requires IsOffer(files) && Landed(r, chunk.transfer, files, at) && at.file < |files|
    requires CarriesNext(chunk, chunk.transfer, files[at.file].entry.index, Content(files[at.file]), at.offset)
    ensures Target(r, chunk) == Some(at.file) && !files[at.file].entry.isDir
  {
    var t := r.transfers[chunk.transfer];
    assert t.entries[at.file] == files[at.file].entry;
    var p := PositionOf(t.entries, chunk.index);
    assert p.Some? && t.entries[p.value] == files[p.value].entry;
  }

  lemma NextFileLands(
      r: Receiver, before: map<Path, Bytes>, files: seq<OutgoingFile>, at: Cursor, chunk: FileChunk, io: Io)
    requires OwnersInv(r, before) && FindsRoom(r, ChunkArrived(chunk, io)) && IsOffer(files)
    requires Landed(r, chunk.transfer, files, at) && at.file < |files|
    requires CarriesNext(chunk, chunk.transfer, files[at.file].entry.index, Content(files[at.file]), at.offset)
    requires IsActive(OnChunk(r, chunk, io), chunk.transfer)
    ensures var after, next := OnChunk(r, chunk, io), Cursor(at.file, at.offset + |chunk.data|);
            && InBounds(files, next) && |after.transfers[chunk.transfer].resolved| == |files|
            && FileLanded(after, after.transfers[chunk.transfer], files, next, at.file)
  {
    var t, k := r.transfers[chunk.transfer], at.file;
    NextChunkIsForTheNextFile(r, files, at, chunk);
    assert EntryOwnsItsPath(r, t) && FileLanded(r, t, files, at, k) && t.entries[k] == files[k].entry;
    StoredContent(r, t, k, chunk, io);
    WritingOn(Content(files[k]), at.offset, chunk.data);
  }

  /** The next chunk of the stream puts its bytes where they belong. */
  lemma ChunkLands(
      r: Receiver, before: map<Path, Bytes>, files: seq<OutgoingFile>, at: Cursor, chunk: FileChunk, io: Io)
    requires OwnersInv(r, before) && FindsRoom(r, ChunkArrived(chunk, io)) && IsOffer(files)
    requires Landed(r, chunk.transfer, files, at) && at.file < |files|
    requires CarriesNext(chunk, chunk.transfer, files[at.file].entry.index, Content(files[at.file]), at.offset)
    requires IsActive(OnChunk(r, chunk, io), chunk.transfer)
    ensures Landed(OnChunk(r, chunk, io), chunk.transfer, files, Cursor(at.file, at.offset + |chunk.data|))
  {
    var id, k, e := chunk.transfer, at.file, ChunkArrived(chunk, io);
    var t, after, next := r.transfers[id], OnChunk(r, chunk, io), Cursor(at.file, at.offset + |chunk.data|);
    NextChunkIsForTheNextFile(r, files, at, chunk);
    NextFileLands(r, before, files, at, chunk, io);
    ChunkEffect(r, before, chunk, io);
    var u := after.transfers[id];
    forall l | 0 <= l < |files| && !files[l].entry.isDir ensures FileLanded(after, u, files, next, l) {
      if l != k {
        OtherFileStays(r, before, files, at, e, id, l);
        assert FileLanded(r, t, files, at, l) && u.resolved[l] == t.resolved[l];
      }
    }
  }

  /** A file of the transfer that an event is not for stays as it has landed. */
  lemma OtherFileStays(
      r: Receiver, before: map<Path, Bytes>, files: seq<OutgoingFile>, at: Cursor, e: Event, id: U64, k: nat)
    requires OwnersInv(r, before) && FindsRoom(r, e) && Landed(r, id, files, at)
    requires k < |files| && !files[k].entry.isDir
    requires e.ChunkArrived? && e.chunk.transfer == id ==> Target(r, e.chunk) != Some(k)
    ensures var t := r.transfers[id];
            t.resolved[k].Some? ==>
              && t.resolved[k].value in r.disk.files && t.resolved[k].value in Step(r, e).disk.files
              && Step(r, e).disk.files[t.resolved[k].value] == r.disk.files[t.resolved[k].value]
  {
    var t := r.transfers[id];
    assert EntryOwnsItsPath(r, t) && FileLanded(r, t, files, at, k) && t.entries[k] == files[k].entry;
    if t.resolved[k].Some? { OnlyTheOwnerWrites(r, before, e, t.resolved[k].value); }
  }

  /** Anything else that happens leaves what has landed alone. */
  lemma OthersLeaveItAlone(
      r: Receiver, before: map<Path, Bytes>, id: U64, files: seq<OutgoingFile>, at: Cursor, e: Event)
    requires OwnersInv(r, before) && FindsRoom(r, e) && Landed(r, id, files, at)
    requires !Disturbs(e, id) && !IsFor(e, id)
    ensures Landed(Step(r, e), id, files, at)
  {
    var t, after := r.transfers[id], Step(r, e);
    assert EntryOwnsItsPath(r, t);
    if e.ChunkArrived? && Target(r, e.chunk).Some? { ChunkEffect(r, before, e.chunk, e.io); }
    var u := after.transfers[id];
    assert u.resolved == t.resolved && u.entries == t.entries && u.state == t.state;
    forall k | 0 <= k < |files| && !files[k].entry.isDir ensures FileLanded(after, u, files, at, k) {
      assert FileLanded(r, t, files, at, k);
      OtherFileStays(r, before, files, at, e, id, k);
    }
  }

  /** Where a stream stands after an event. */
  function CursorAfter(files: seq<OutgoingFile>, at: Cursor, id: U64, e: Event): Cursor {
    if IsFor(e, id) then
      Cursor(Settle(files, at).file, Settle(files, at).offset + |e.chunk.data|)
    else at
  }

  /** Whether a chunk is the next of a stream that has come as far as `at`. */
  predicate IsNext(chunk: FileChunk, id: U64, files: seq<OutgoingFile>, at: Cursor) {
    var now := Settle(files, at);
    now.file < |files| && CarriesNext(chunk, id, files[now.file].entry.index, Content(files[now.file]), now.offset)
  }

  /** The next event takes a stream on if it is its next chunk, and leaves it where it is otherwise. */
  lemma FollowEvents(files: seq<OutgoingFile>, at: Cursor, id: U64, events: seq<Event>) returns (e: Event, next: Cursor)
    requires events != [] && Follow(ChunksFor(events, id), id, files, at).Some?
    ensures e == events[0] && next == CursorAfter(files, at, id, e)
    ensures Follow(ChunksFor(events, id), id, files, at) == Follow(ChunksFor(events[1..], id), id, files, next)
    ensures IsFor(e, id) ==> IsNext(e.chunk, id, files, at)
  {
    e := events[0];
    next := CursorAfter(files, at, id, e);
    if IsFor(e, id) {
      assert ChunksFor(events, id)[1..] == ChunksFor(events[1..], id);
    } else {
      assert ChunksFor(events, id) == ChunksFor(events[1..], id);
    }
  }

  lemma NextChunkLands(r: Receiver, before: map<Path, Bytes>, files: seq<OutgoingFile>, at: Cursor, chunk: FileChunk, io: Io)
    requires OwnersInv(r, before) && FindsRoom(r, ChunkArrived(chunk, io)) && IsOffer(files)
    requires Landed(r, chunk.transfer, files, at) && IsNext(chunk, chunk.transfer, files, at)
    requires IsActive(OnChunk(r, chunk, io), chunk.transfer)
    ensures Landed(OnChunk(r, chunk, io), chunk.transfer, files, CursorAfter(files, at, chunk.transfer, ChunkArrived(chunk, io)))
  {
    SettlingKeepsLanded(r, chunk.transfer, files, at);
    ChunkLands(r, before, files, Settle(files, at), chunk, io);
  }

  lemma StepLands(r: Receiver, before: map<Path, Bytes>, id: U64, files: seq<OutgoingFile>, at: Cursor, e: Event)
    requires OwnersInv(r, before) && FindsRoom(r, e) && IsOffer(files)
    requires Landed(r, id, files, at) && !Disturbs(e, id) && IsActive(Step(r, e), id)
    requires IsFor(e, id) ==> IsNext(e.chunk, id, files, at)
    ensures Landed(Step(r, e), id, files, CursorAfter(files, at, id, e))
  {
    if IsFor(e, id) {
      NextChunkLands(r, before, files, at, e.chunk, e.io);
    } else {
      OthersLeaveItAlone(r, before, id, files, at, e);
    }
  }

  lemma {:induction false} StreamLands(
      r: Receiver, before: map<Path, Bytes>, id: U64, files: seq<OutgoingFile>, at: Cursor, events: seq<Event>)
    requires OwnersInv(r, before) && AlwaysFindsRoom(r, events) && IsOffer(files)
    requires Landed(r, id, files, at) && Undisturbed(events, id) && IsActive(Run(r, events), id)
    requires Follow(ChunksFor(events, id), id, files, at) == Some(Cursor(|files|, 0))
    ensures Landed(Run(r, events), id, files, Cursor(|files|, 0))
    decreases events
  {
    if events == [] {
      SettlingKeepsLanded(r, id, files, at);
    } else {
      var e, cursor := FollowEvents(files, at, id, events);
      var next := Step(r, e);
      assert Undisturbed(events[1..], id) by { assert forall e :: e in events[1..] ==> e in events; }
      StepKeepsOwners(r, before, e);
      if !IsActive(next, id) { InactiveStaysInactive(next, id, events[1..]); }
      StepLands(r, before, id, files, at, e);
      StreamLands(next, before, id, files, cursor, events[1..]);
    }
  }

  /** End-to-end fidelity. Take an accepted transfer none of whose files has begun, and let its chunks
      arrive in the order they were queued, cut any way at all and mixed with anything that happens to
      other transfers. If it is still active at the end, every non-empty file is on disk byte for
      byte as it was sent, and no empty file was ever created. */
  lemma FilesArriveAsSent(
      r: Receiver, before: map<Path, Bytes>, id: U64, files: seq<OutgoingFile>, events: seq<Event>)
    requires OwnersInv(r, before) && AlwaysFindsRoom(r, events) && IsOffer(files)
    requires IsActive(r, id) && |r.transfers[id].entries| == |files|
    requires forall k :: 0 <= k < |files| ==> r.transfers[id].entries[k] == files[k].entry
    requires WellSized(r.transfers[id])
             && forall k :: 0 <= k < |files| && !files[k].entry.isDir ==> r.transfers[id].resolved[k].None?
    requires Undisturbed(events, id) && IsActive(Run(r, events), id)
    requires Streams(ChunksFor(events, id), id, files)
    ensures var end := Run(r, events);
            && |end.transfers[id].resolved| == |files|
            && forall k :: 0 <= k < |files| && !files[k].entry.isDir ==>
                 var resolved := end.transfers[id].resolved[k];
                 if Content(files[k]) == [] then resolved.None?
                 else resolved.Some? && resolved.value in end.disk.files
                      && end.disk.files[resolved.value] == Content(files[k])
  {
    StreamLands(r, before, id, files, START, events);
    var end := Run(r, events);
    forall k | 0 <= k < |files| && !files[k].entry.isDir
      ensures FileLanded(end, end.transfers[id], files, Cursor(|files|, 0), k)
              && Content(files[k])[..|Content(files[k])|] == Content(files[k])
    {
    }
  }

  // ---- Accounting ----

  function Sum(numbers: seq<nat>): nat {
    if numbers == [] then 0 else numbers[0] + Sum(numbers[1..])
  }

  lemma {:induction false} SumOfUpdate(numbers: seq<nat>, k: nat, value: nat)
    requires k < |numbers|
    ensures Sum(numbers[k := value]) + numbers[k] == Sum(numbers) + value
    ensures numbers[k] <= Sum(numbers)
  {
    if k > 0 {
      assert numbers[k := value][1..] == numbers[1..][k - 1 := value];
      SumOfUpdate(numbers[1..], k - 1, value);
    } else {
      assert numbers[k := value][1..] == numbers[1..];
    }
  }

  /** The total is the sum of what is recorded file by file. */
  predicate Accounted(t: Incoming) {
    WellSized(t) && t.doneBytes == Sum(t.written)
  }

  /** Counted exactly, the total after an event fits 64 bits. */
  predicate FitsAfter(t: Incoming, e: Event)
    requires WellSized(t)
  {
    match e
    case ChunkArrived(chunk, _) => Sum(t.written) + |chunk.data| <= U64_MAX
    case ProgressReported(_, index, bytesDone) =>
      var p := PositionOf(t.entries, index);
      p.Some? ==> Sum(t.written[p.value := bytesDone]) <= U64_MAX
    case _ => true
  }

  /** Chunks and progress reports in any mixture keep the total equal to the sum over the files. */
  lemma StepKeepsAccounts(r: Receiver, id: U64, e: Event)
    requires id in r.transfers && Accounted(r.transfers[id]) && FitsAfter(r.transfers[id], e)
    requires id in Step(r, e).transfers && !(e.Finished? && e.id == id)
    ensures Accounted(Step(r, e).transfers[id])
  {
    match e {
      case Offered(_, entries, _) => SumOfZeros(|entries|);
      case Accepted(i, refused) =>
        if i in r.transfers && r.transfers[i].state.Pending? && WellSized(r.transfers[i]) {
          AcceptMakesNoClaims(r, i, refused);
        }
      case ChunkArrived(chunk, io) => ChunkKeepsAccounts(r, id, chunk, io);
      case ProgressReported(i, index, bytesDone) => if i == id { ReportIsCounted(r, id, index, bytesDone); }
      case _ =>
    }
  }

  lemma ReportIsCounted(r: Receiver, id: U64, index: U32, bytesDone: U64)
    requires id in r.transfers && Accounted(r.transfers[id])
    requires FitsAfter(r.transfers[id], ProgressReported(id, index, bytesDone))
    ensures id in OnProgress(r, id, index, bytesDone).transfers
    ensures Accounted(OnProgress(r, id, index, bytesDone).transfers[id])
  {
    var t := r.transfers[id];
    var p := PositionOf(t.entries, index);
    if p.Some? { SumOfUpdate(t.written, p.value, bytesDone); }
  }

  lemma StoringMovesOneTransfer(r: Receiver, t: Incoming, position: nat, chunk: FileChunk, path: Path, io: Io, id: U64)
    requires WellSized(t) && position < |t.entries| && id in r.transfers && id != chunk.transfer
    ensures var after := StoreChunk(r, t, position, chunk, path, io);
            id in after.transfers && after.transfers[id] == r.transfers[id]
  {
  }

  lemma ChunkLeavesOtherTransfers(r: Receiver, id: U64, chunk: FileChunk, io: Io)
    requires id in r.transfers && id != chunk.transfer
    ensures id in OnChunk(r, chunk, io).transfers && OnChunk(r, chunk, io).transfers[id] == r.transfers[id]
  {
    if Target(r, chunk).Some? {
      var t, position := r.transfers[chunk.transfer], Target(r, chunk).value;
      var located := Locate(r.disk, t, position, r.overwrite, io);
      if located.Ok? {
        var (path, made) := located.value;
        StoringMovesOneTransfer(r.(disk := made), t, position, chunk, path, io, id);
      }
    }
  }

  lemma ChunkKeepsAccounts(r: Receiver, id: U64, chunk: FileChunk, io: Io)
    requires id in r.transfers && Accounted(r.transfers[id])
    requires Sum(r.transfers[id].written) + |chunk.data| <= U64_MAX
    ensures id in OnChunk(r, chunk, io).transfers && Accounted(OnChunk(r, chunk, io).transfers[id])
  {
    if chunk.transfer != id { ChunkLeavesOtherTransfers(r, id, chunk, io); }
    else if Target(r, chunk).Some? { ChunkIsCounted(r, chunk, io); }
  }

  lemma {:induction false} SumOfZeros(n: nat)
    ensures Sum(seq(n, _ => 0)) == 0
  {
    if n > 0 {
      assert seq(n, _ => 0)[1..] == seq(n - 1, _ => 0);
      SumOfZeros(n - 1);
    }
  }

  lemma StoringIsCounted(r: Receiver, t: Incoming, position: nat, chunk: FileChunk, path: Path, io: Io)
    requires Accounted(t) && position < |t.entries| && Sum(t.written) + |chunk.data| <= U64_MAX
    ensures var after := StoreChunk(r, t, position, chunk, path, io);
            chunk.transfer in after.transfers && Accounted(after.transfers[chunk.transfer])
  {
    SumOfUpdate(t.written, position, t.written[position] + |chunk.data|);
    assert Counted(t, position, |chunk.data|).written == t.written[position := t.written[position] + |chunk.data|];
  }

  lemma ChunkIsCounted(r: Receiver, chunk: FileChunk, io: Io)
    requires Target(r, chunk).Some? && Accounted(r.transfers[chunk.transfer])
    requires Sum(r.transfers[chunk.transfer].written) + |chunk.data| <= U64_MAX
    ensures chunk.transfer in OnChunk(r, chunk, io).transfers
    ensures Accounted(OnChunk(r, chunk, io).transfers[chunk.transfer])
  {
    var t, position := r.transfers[chunk.transfer], Target(r, chunk).value;
    var located := Locate(r.disk, t, position, r.overwrite, io);
    if located.Ok? {
      var (path, made) := located.value;
      StoringIsCounted(r.(disk := made), t, position, chunk, path, io);
    }
  }

  predicate AlwaysFits(r: Receiver, id: U64, events: seq<Event>)
    decreases events
  {
    events == [] ||
    (&& id in r.transfers && WellSized(r.transfers[id]) && FitsAfter(r.transfers[id], events[0])
     && !(events[0].Finished? && events[0].id == id) && id in Step(r, events[0]).transfers
     && AlwaysFits(Step(r, events[0]), id, events[1..]))
  }

  lemma {:induction false} RunKeepsAccounts(r: Receiver, id: U64, events: seq<Event>)
    requires id in r.transfers && Accounted(r.transfers[id]) && AlwaysFits(r, id, events)
    ensures id in Run(r, events).transfers && Accounted(Run(r, events).transfers[id])
    decreases events
  {
    if events != [] {
      StepKeepsAccounts(r, id, events[0]);
      RunKeepsAccounts(Step(r, events[0]), id, events[1..]);
    }
  }
}
