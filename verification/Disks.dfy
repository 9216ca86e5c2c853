/** Whatever is received, the disk stays a tree (crates/ud-engine/src/engine.rs:1983-2028 and 2103-2193). */
module Disks {
  import opened Wrappers
  import opened Codec
  import opened Paths
  import opened Transfer

  /** Everything lies in a directory, all the way up, and nothing is both a file and a directory. */
  predicate TreeLike(disk: Disk) {
    && (forall d :: d in disk.dirs ==> Prefixes(d) <= disk.dirs)
    && (forall f :: f in disk.files ==> f != [] && f !in disk.dirs && f[..|f| - 1] in disk.dirs)
  }

  /** A file that is held open is there, and no file is at the very top. */
  predicate HoldsFiles(disk: Disk, t: Incoming) {
    && WellSized(t) && (t.state.Pending? ==> t.handles == {})
    && (forall k :: 0 <= k < |t.entries| && !t.entries[k].isDir && t.resolved[k].Some? ==> t.resolved[k].value != [])
    && forall index :: index in t.handles ==>
         var position := PositionOf(t.entries, index);
         && position.Some? && !t.entries[position.value].isDir && t.resolved[position.value].Some?
         && t.resolved[position.value].value in disk.files
  }

  predicate AllHoldFiles(r: Receiver) {
    forall id :: id in r.transfers ==> HoldsFiles(r.disk, r.transfers[id])
  }

  /** Files and directories are never taken away. */
  predicate Keeps(before: Disk, after: Disk) {
    before.files.Keys <= after.files.Keys && before.dirs <= after.dirs
  }

  lemma PrefixesOfPrefix(path: Path, p: Path)
    requires p in Prefixes(path)
    ensures Prefixes(p) <= Prefixes(path)
  {
    var i :| 0 <= i <= |path| && p == path[..i];
    forall q | q in Prefixes(p) ensures q in Prefixes(path) {
      var j :| 0 <= j <= |p| && q == p[..j];
      assert q == path[..j];
    }
  }

  lemma MakingDirectoriesKeepsTheTree(disk: Disk, path: Path, allowed: bool)
    requires TreeLike(disk) && CreateDirAll(disk, path, allowed).Ok?
    ensures var after := CreateDirAll(disk, path, allowed).value;
            TreeLike(after) && Keeps(disk, after) && path in after.dirs && after.files == disk.files
  {
    var after := CreateDirAll(disk, path, allowed).value;
    forall d | d in after.dirs ensures Prefixes(d) <= after.dirs {
      if d !in disk.dirs { PrefixesOfPrefix(path, d); }
    }
    assert path in Prefixes(path) by { assert path == path[..|path|]; }
  }

  lemma OpeningKeepsTheTree(disk: Disk, path: Path, allowed: bool)
    requires TreeLike(disk) && path != [] && OpenFile(disk, path, allowed).Ok?
    ensures var after := OpenFile(disk, path, allowed).value;
            TreeLike(after) && Keeps(disk, after) && path in after.files && after.dirs == disk.dirs
  {
  }

  lemma LocatingKeepsTheTree(disk: Disk, t: Incoming, position: nat, overwrite: bool, io: Io)
    requires TreeLike(disk) && WellSized(t) && position < |t.entries| && Locate(disk, t, position, overwrite, io).Ok?
    ensures var (path, made) := Locate(disk, t, position, overwrite, io).value;
            && TreeLike(made) && Keeps(disk, made) && made.files == disk.files
            && (if t.resolved[position].Some? then path == t.resolved[position].value else path != [])
  {
    if t.resolved[position].None? {
      var path := Locate(disk, t, position, overwrite, io).value.0;
      AcceptedPathsStayBelowTheRoot(t.entries[position].relativePath, t.root);
      UniquePathIsFreeIffRoom(disk, SanitizeRelative(t.entries[position].relativePath, t.root).value);
      MakingDirectoriesKeepsTheTree(disk, path[..|path| - 1], io.mkdir);
    }
  }

  lemma WritingKeepsTheTree(disk: Disk, path: Path, offset: nat, data: Bytes)
    requires TreeLike(disk) && path in disk.files
    ensures var after := Written(disk, path, offset, data);
            TreeLike(after) && after.files.Keys == disk.files.Keys && after.dirs == disk.dirs
  {
  }

  /** Storing opens the file, if it is not open, and writes to it. */
  lemma StoringKeepsTheTree(r: Receiver, t: Incoming, position: nat, chunk: FileChunk, path: Path, io: Io)
    requires TreeLike(r.disk) && WellSized(t) && position < |t.entries| && path != []
    requires chunk.index in t.handles ==> path in r.disk.files
    ensures var after := StoreChunk(r, t, position, chunk, path, io).disk;
            TreeLike(after) && Keeps(r.disk, after)
            && (Open(r, t, position, chunk.index, path, io).Ok? ==> path in after.files)
  {
    var opening := Open(r, t, position, chunk.index, path, io);
    if opening.Ok? {
      var ready := opening.value.disk;
      if chunk.index !in t.handles { OpeningKeepsTheTree(r.disk, path, io.open); }
      assert TreeLike(ready) && path in ready.files;
      WritingKeepsTheTree(ready, path, chunk.offset, chunk.data);
      if io.wrote < |chunk.data| { WritingKeepsTheTree(ready, path, chunk.offset, chunk.data[..io.wrote]); }
    }
  }

  lemma StoringMovesTheTransfer(r: Receiver, t: Incoming, position: nat, chunk: FileChunk, path: Path, io: Io) returns (u: Incoming)
    requires WellSized(t) && position < |t.entries|
    ensures var after := StoreChunk(r, t, position, chunk, path, io);
            && after.transfers == r.transfers[chunk.transfer := u]
            && u.entries == t.entries && WellSized(u) && u.resolved == t.resolved[position := Some(path)]
            && u.handles == (if Open(r, t, position, chunk.index, path, io).Ok? then t.handles + {chunk.index} else t.handles)
            && (u.state.Failed? || u.state == t.state)
  {
    u := StoreChunk(r, t, position, chunk, path, io).transfers[chunk.transfer];
  }

  lemma StoredTransferHolds(disk: Disk, after: Disk, t: Incoming, u: Incoming, position: nat, index: U32, path: Path, ready: bool)
    requires HoldsFiles(disk, t) && Keeps(disk, after) && t.state.Active? && path != []
    requires position < |t.entries| && PositionOf(t.entries, index) == Some(position) && !t.entries[position].isDir
    requires t.resolved[position].Some? ==> path == t.resolved[position].value
    requires u.entries == t.entries && WellSized(u) && u.resolved == t.resolved[position := Some(path)]
    requires u.handles == (if ready then t.handles + {index} else t.handles) && (u.state.Failed? || u.state == t.state)
    requires ready ==> path in after.files
    ensures HoldsFiles(after, u)
  {
  }

  lemma OtherTransfersHold(r: Receiver, after: Receiver, id: U64, u: Incoming)
    requires AllHoldFiles(r) && Keeps(r.disk, after.disk) && after.transfers == r.transfers[id := u] && HoldsFiles(after.disk, u)
    ensures AllHoldFiles(after)
  {
  }

  lemma ChunkKeepsTheTree(r: Receiver, chunk: FileChunk, io: Io)
    requires TreeLike(r.disk) && AllHoldFiles(r)
    ensures var after := OnChunk(r, chunk, io);
            TreeLike(after.disk) && AllHoldFiles(after) && Keeps(r.disk, after.disk)
  {
    if Target(r, chunk).Some? {
      var id, t, position := chunk.transfer, r.transfers[chunk.transfer], Target(r, chunk).value;
      var located := Locate(r.disk, t, position, r.overwrite, io);
      if located.Ok? {
        var (path, made) := located.value;
        LocatingKeepsTheTree(r.disk, t, position, r.overwrite, io);
        StoredChunkKeepsTheTree(r, made, t, position, chunk, path, io);
      } else {
        OtherTransfersHold(r, OnChunk(r, chunk, io), id, t.(state := Failed));
      }
    }
  }

  lemma StoredChunkKeepsTheTree(r: Receiver, made: Disk, t: Incoming, position: nat, chunk: FileChunk, path: Path, io: Io)
    requires AllHoldFiles(r) && TreeLike(made) && Keeps(r.disk, made) && made.files == r.disk.files && path != []
    requires chunk.transfer in r.transfers && r.transfers[chunk.transfer] == t && t.state.Active?
    requires position < |t.entries| && PositionOf(t.entries, chunk.index) == Some(position) && !t.entries[position].isDir
    requires WellSized(t) && (t.resolved[position].Some? ==> path == t.resolved[position].value)
    ensures var after := StoreChunk(r.(disk := made), t, position, chunk, path, io);
            TreeLike(after.disk) && AllHoldFiles(after) && Keeps(r.disk, after.disk)
  {
    var ready := r.(disk := made);
    assert HoldsFiles(r.disk, t);
    StoringKeepsTheTree(ready, t, position, chunk, path, io);
    var u := StoringMovesTheTransfer(ready, t, position, chunk, path, io);
    var after := StoreChunk(ready, t, position, chunk, path, io);
    StoredTransferHolds(r.disk, after.disk, t, u, position, chunk.index, path, Open(ready, t, position, chunk.index, path, io).Ok?);
    OtherTransfersHold(r, after, chunk.transfer, u);
  }

  // ---- Accepting, and the rest ----

  lemma {:induction false} DirectoriesKeepTheTree(disk: Disk, t: Incoming, from: nat, refused: set<nat>)
    requires TreeLike(disk) && HoldsFiles(disk, t) && t.handles == {} && from <= |t.entries|
    ensures var (made, resolved) := MakeDirectories(disk, t, from, refused);
            TreeLike(made) && Keeps(disk, made) && made.files == disk.files && |resolved| == |t.resolved|
            && HoldsFiles(made, t.(resolved := resolved))
    decreases |t.entries| - from
  {
    if from < |t.entries| {
      var path := SanitizeRelative(t.entries[from].relativePath, t.root);
      if t.entries[from].isDir && path.Ok? {
        var made := CreateDirAll(disk, path.value, from !in refused);
        if made.Ok? { MakingDirectoriesKeepsTheTree(disk, path.value, from !in refused); }
        var next := if made.Ok? then made.value else disk;
        DirectoriesKeepTheTree(next, t.(resolved := t.resolved[from := Some(path.value)]), from + 1, refused);
      } else {
        DirectoriesKeepTheTree(disk, t, from + 1, refused);
      }
    }
  }

  lemma AcceptKeepsTheTree(r: Receiver, id: U64, refused: set<nat>)
    requires TreeLike(r.disk) && AllHoldFiles(r)
    ensures var after := OnAccept(r, id, refused);
            TreeLike(after.disk) && AllHoldFiles(after) && Keeps(r.disk, after.disk)
  {
    if id in r.transfers && r.transfers[id].state.Pending? && WellSized(r.transfers[id]) {
      var t := r.transfers[id];
      assert HoldsFiles(r.disk, t);
      DirectoriesKeepTheTree(r.disk, t, 0, refused);
      var (made, resolved) := MakeDirectories(r.disk, t, 0, refused);
      OtherTransfersHold(r, OnAccept(r, id, refused), id, t.(state := Active, resolved := resolved));
    }
  }

  /** What other events do to a transfer: it is a new one, or it holds no more files than before, at the same places. */
  lemma OtherEventsOpenNothing(r: Receiver, e: Event, id: U64)
    requires !e.ChunkArrived? && !e.Accepted? && id in Step(r, e).transfers
    ensures Step(r, e).disk == r.disk
    ensures var u := Step(r, e).transfers[id];
            || (e.Offered? && u == NewIncoming(r.offers, e.entries, e.root))
            || (id in r.transfers && var t := r.transfers[id];
                && u.entries == t.entries && u.resolved == t.resolved && |u.written| == |t.written| && u.handles <= t.handles
                && (u.state.Pending? ==> t.state.Pending?))
  {
  }

  lemma OthersKeepTheTree(r: Receiver, e: Event)
    requires TreeLike(r.disk) && AllHoldFiles(r) && !e.ChunkArrived? && !e.Accepted?
    ensures AllHoldFiles(Step(r, e)) && Step(r, e).disk == r.disk
  {
    var after := Step(r, e);
    forall id | id in after.transfers ensures HoldsFiles(after.disk, after.transfers[id]) {
      OtherEventsOpenNothing(r, e, id);
      StillHolds(r, after.transfers[id], id);
    }
  }

  lemma StillHolds(r: Receiver, u: Incoming, id: U64)
    requires AllHoldFiles(r)
    requires (exists offer, entries, root :: u == NewIncoming(offer, entries, root))
             || (id in r.transfers && var t := r.transfers[id];
                 && u.entries == t.entries && u.resolved == t.resolved && |u.written| == |t.written| && u.handles <= t.handles
                 && (u.state.Pending? ==> t.state.Pending?))
    ensures HoldsFiles(r.disk, u)
  {
    if id in r.transfers { assert HoldsFiles(r.disk, r.transfers[id]); }
  }

  /** Over any run, with or without overwriting, and whatever the file system refuses: the disk stays a tree, and
      nothing on it is taken away. */
  lemma {:induction false} TheDiskStaysATree(r: Receiver, events: seq<Event>)
    requires TreeLike(r.disk) && AllHoldFiles(r)
    ensures var end := Run(r, events);
            TreeLike(end.disk) && AllHoldFiles(end) && Keeps(r.disk, end.disk)
    decreases events
  {
    if events != [] {
      var e := events[0];
      match e {
        case ChunkArrived(chunk, io) => ChunkKeepsTheTree(r, chunk, io);
        case Accepted(id, refused) => AcceptKeepsTheTree(r, id, refused);
        case _ => OthersKeepTheTree(r, e);
      }
      TheDiskStaysATree(Step(r, e), events[1..]);
    }
  }
}
