/** The engine's transfer handlers updating their state in place, proved to take the steps of
    Transfer.dfy (crates/ud-engine/src/engine.rs:1936-2232). */
module Receiving {
  import opened Wrappers
  import opened Codec
  import opened Paths
  import opened Transfer

  class FileReceiver {
    var disk: Disk
    var transfers: map<U64, Incoming>
    const overwrite: bool
    var offers: nat
    ghost var owners: map<Path, (nat, nat)>

    ghost function View(): Receiver
      reads this
    {
      Receiver(disk, transfers, overwrite, offers, owners)
    }

    constructor (disk: Disk, overwrite: bool)
      ensures View() == Receiver(disk, map[], overwrite, 0, map[])
    {
      this.disk, this.overwrite := disk, overwrite;
      transfers, offers, owners := map[], 0, map[];
    }

    method OnOffer(id: U64, entries: seq<FileEntry>, root: Path)
      modifies this
      ensures View() == Step(old(View()), Offered(id, entries, root))
    {
      transfers := transfers[id := NewIncoming(offers, entries, root)];
      offers := offers + 1;
    }

    /** Accepting makes the offered directories, in the order they were offered. */
    method AcceptTransfer(id: U64, refused: set<nat>)
      modifies this
      ensures View() == OnAccept(old(View()), id, refused)
    {
      if id !in transfers || !transfers[id].state.Pending? || !WellSized(transfers[id]) {
        return;
      }
      var t := transfers[id];
      var resolved, made := t.resolved, disk;
      for i := 0 to |t.entries|
        invariant View() == old(View()) && |resolved| == |t.entries|
        invariant MakeDirectories(made, t.(resolved := resolved), i, refused) == MakeDirectories(disk, t, 0, refused)
      {
        if t.entries[i].isDir {
          var path := ResolveRelative(t.entries[i].relativePath, t.root);
          if path.Ok? {
            var attempt := CreateDirAll(made, path.value, i !in refused);
            if attempt.Ok? {
              made := attempt.value;
            }
            resolved := resolved[i := Some(path.value)];
          }
        }
      }
      disk := made;
      transfers := transfers[id := t.(state := Active, resolved := resolved)];
    }

    /** The path for an entry, with the directories above it made if it is a new one. */
    method LocatePath(t: Incoming, position: nat, io: Io) returns (located: Result<Path>)
      requires WellSized(t) && position < |t.entries|
      modifies this`disk
      ensures var expected := Locate(old(disk), t, position, overwrite, io);
              if expected.Ok? then located == Ok(expected.value.0) && disk == expected.value.1
              else located.Err? && disk == old(disk)
    {
      if t.resolved[position].Some? {
        return Ok(t.resolved[position].value);
      }
      var safe := ResolveRelative(t.entries[position].relativePath, t.root);
      if safe.Err? {
        return safe;
      }
      AcceptedPathsStayBelowTheRoot(t.entries[position].relativePath, t.root);
      var path := safe.value;
      if !overwrite {
        UniquePathIsFreeIffRoom(disk, path);
        path := PickUniquePath(disk, path);
      }
      var made := CreateDirAll(disk, path[..|path| - 1], io.mkdir);
      if made.Err? {
        return Err(made.reason);
      }
      disk := made.value;
      return Ok(path);
    }

    /** Opens the file unless a handle is open, seeks and writes. */
    method Store(t: Incoming, position: nat, chunk: FileChunk, path: Path, io: Io)
      requires WellSized(t) && position < |t.entries|
      modifies this
      ensures View() == StoreChunk(old(View()), t, position, chunk, path, io)
    {
      var id := chunk.transfer;
      var placed := t.(resolved := t.resolved[position := Some(path)]);
      if chunk.index !in t.handles && path != [] {
        var opening := OpenFile(disk, path, io.open);
        if opening.Err? {
          transfers := transfers[id := placed.(state := Failed)];
          return;
        }
        if path !in disk.files {
          owners := owners[path := (t.offer, position)];
        }
        disk := opening.value;
      }
      var held := placed.(handles := placed.handles + {chunk.index});
      if io.wrote < |chunk.data| {
        disk := Written(disk, path, chunk.offset, chunk.data[..io.wrote]);
        transfers := transfers[id := held.(state := Failed)];
      } else {
        disk := Written(disk, path, chunk.offset, chunk.data);
        transfers := transfers[id := Counted(held, position, |chunk.data|)];
      }
    }

    method OnChunkReceived(chunk: FileChunk, io: Io)
      modifies this
      ensures View() == OnChunk(old(View()), chunk, io)
    {
      if chunk.transfer !in transfers {
        return;
      }
      var t := transfers[chunk.transfer];
      var found := PositionOf(t.entries, chunk.index);
      if !t.state.Active? || found.None? || t.entries[found.value].isDir || !WellSized(t) {
        return;
      }
      var path := LocatePath(t, found.value, io);
      if path.Err? {
        transfers := transfers[chunk.transfer := t.(state := Failed)];
        return;
      }
      Store(t, found.value, chunk, path.value, io);
    }

    method OnProgressReport(id: U64, index: U32, bytesDone: U64)
      modifies this
      ensures View() == OnProgress(old(View()), id, index, bytesDone)
    {
      if id !in transfers || !WellSized(transfers[id]) {
        return;
      }
      var t := transfers[id];
      var found := PositionOf(t.entries, index);
      if found.Some? {
        var previous := t.written[found.value];
        t := t.(written := t.written[found.value := bytesDone]);
        t := t.(doneBytes := (SaturatingSub(t.doneBytes, previous) + bytesDone) % (U64_MAX + 1));
        transfers := transfers[id := t];
      }
    }

    method OnFileFinished(id: U64, failed: bool)
      modifies this
      ensures View() == OnFinished(old(View()), id, failed)
    {
      if id !in transfers {
        return;
      }
      var t := transfers[id].(handles := {});
      t := t.(state := if failed then Failed else Completed);
      if t.doneBytes == 0 {
        t := t.(doneBytes := t.totalBytes);
      }
      transfers := transfers[id := t];
    }

    method Handle(e: Event)
      modifies this
      ensures View() == Step(old(View()), e)
    {
      match e
      case Offered(id, entries, root) => OnOffer(id, entries, root);
      case Accepted(id, refused) => AcceptTransfer(id, refused);
      case ChunkArrived(chunk, io) => OnChunkReceived(chunk, io);
      case ProgressReported(id, index, bytesDone) => OnProgressReport(id, index, bytesDone);
      case Finished(id, failed) => OnFileFinished(id, failed);
      case CancelRequested(id) =>
        if id in transfers {
          transfers := transfers[id := transfers[id].(state := Cancelled)];
        }
      case SessionLost(ids) =>
        transfers := map id | id in transfers ::
          if id in ids && transfers[id].state.Active? then transfers[id].(state := Failed) else transfers[id];
      case ClearFinished =>
        transfers := map id | id in transfers && !IsOver(transfers[id].state) :: transfers[id];
    }
  }
}
