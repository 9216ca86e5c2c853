/** Streaming files out and writing them down again (crates/ud-engine/src/engine.rs:1936-2232 and
    2472-2538, crates/ud-engine/src/transfer.rs:133-139 and 235-364). */
module Transfer {
  import opened Wrappers
  import opened Codec
  import opened Paths

  datatype FileEntry = FileEntry(index: U32, name: string, relativePath: string, size: nat, isDir: bool)

  /** A file queued for sending, with what reading its source yields; directories have none. */
  datatype OutgoingFile = OutgoingFile(entry: FileEntry, source: Option<Bytes>)

  function Content(file: OutgoingFile): Bytes {
    if file.source.Some? then file.source.value else []
  }

  predicate Sendable(files: seq<OutgoingFile>) {
    forall file :: file in files ==> |Content(file)| < 0x1_0000_0000_0000_0000
  }

  // ---- The sender ----

  /** `c` carries the next bytes of `content`, at least one and at most `CHUNK_BYTES` of them. */
  predicate CarriesNext(c: FileChunk, id: U64, index: U32, content: Bytes, offset: nat) {
    && c.transfer == id && c.index == index && c.offset == offset
    && 0 < |c.data| <= CHUNK_BYTES && offset < |content| && c.data <= content[offset..]
  }

  /** How far a stream has come: a position among the files, and an offset into that file. */
  datatype Cursor = Cursor(file: nat, offset: nat)

  /** Files that are through, or empty, are passed over. */
  function Settle(files: seq<OutgoingFile>, at: Cursor): Cursor
    decreases |files| - at.file
  {
    if at.file < |files| && at.offset >= |Content(files[at.file])| then Settle(files, Cursor(at.file + 1, 0)) else at
  }

  /** Where `chunks` take a stream of `files` that has come as far as `at`; nowhere, unless they carry
      on from there in order and without gaps. The cuts between them are arbitrary. */
  function Follow(chunks: seq<FileChunk>, id: U64, files: seq<OutgoingFile>, at: Cursor): Option<Cursor>
    decreases chunks
  {
    var now := Settle(files, at);
    if chunks == [] then Some(now)
    else if now.file < |files|
            && CarriesNext(chunks[0], id, files[now.file].entry.index, Content(files[now.file]), now.offset)
    then Follow(chunks[1..], id, files, Cursor(now.file, now.offset + |chunks[0].data|))
    else None
  }

  const START := Cursor(0, 0)

  /** All of `files`, cut into chunks one way or another. */
  predicate Streams(chunks: seq<FileChunk>, id: U64, files: seq<OutgoingFile>) {
    Follow(chunks, id, files, START) == Some(Cursor(|files|, 0))
  }

  lemma {:induction false} SettledStaysSettled(files: seq<OutgoingFile>, at: Cursor)
    requires at.file <= |files|
    ensures Settle(files, Settle(files, at)) == Settle(files, at)
    ensures Settle(files, at).file <= |files|
    ensures Settle(files, at) == at || Settle(files, at).offset == 0
    decreases |files| - at.file
  {
    if at.file < |files| && at.offset >= |Content(files[at.file])| {
      SettledStaysSettled(files, Cursor(at.file + 1, 0));
    }
  }

  lemma {:induction false} FollowOneMore(
      chunks: seq<FileChunk>, c: FileChunk, id: U64, files: seq<OutgoingFile>, at: Cursor, now: Cursor)
    requires at.file <= |files| && Follow(chunks, id, files, at) == Some(now) && now.file < |files|
    requires CarriesNext(c, id, files[now.file].entry.index, Content(files[now.file]), now.offset)
    ensures Follow(chunks + [c], id, files, at) == Some(Settle(files, Cursor(now.file, now.offset + |c.data|)))
    decreases chunks
  {
    SettledStaysSettled(files, at);
    if chunks == [] {
      assert (chunks + [c])[1..] == [];
    } else {
      assert (chunks + [c])[1..] == chunks[1..] + [c];
      var first := Settle(files, at);
      FollowOneMore(chunks[1..], c, id, files, Cursor(first.file, first.offset + |chunks[0].data|), now);
    }
  }

  /** Streams the accepted files, `room` saying after how many chunks the connection is gone. Reads
      are as short as the platform likes; a stream that breaks off is still in order. */
  method SendFiles(id: U64, files: seq<OutgoingFile>, room: nat) returns (chunks: seq<FileChunk>, finished: bool)
    requires Sendable(files)
    ensures Follow(chunks, id, files, START).Some?
    ensures finished ==> Streams(chunks, id, files)
    ensures |chunks| <= room && (!finished ==> |chunks| == room)
  {
    chunks := [];
    for i := 0 to |files|
      invariant |chunks| <= room
      invariant Follow(chunks, id, files, START) == Some(Settle(files, Cursor(i, 0)))
    {
      if files[i].source.Some? {
        var content: Bytes, offset: nat := files[i].source.value, 0;
        assert files[i] in files;
        while offset < |content|
          invariant offset <= |content| && |chunks| <= room
          invariant Follow(chunks, id, files, START) == Some(Settle(files, Cursor(i, offset)))
        {
          var read: nat :| 0 < read <= CHUNK_BYTES && offset + read <= |content|;
          if |chunks| == room {
            return chunks, false;
          }
          var chunk := FileChunk(id, files[i].entry.index, offset, content[offset..offset + read]);
          FollowOneMore(chunks, chunk, id, files, START, Cursor(i, offset));
          chunks := chunks + [chunk];
          offset := offset + read;
        }
      }
    }
    return chunks, true;
  }

  // ---- The receiver ----

  datatype TransferState = Pending | Active | Completed | Failed | Cancelled

  /** An inbound transfer; `offer` tells offers under the same id apart. `handles` are the indices
      with an open file. */
  datatype Incoming = Incoming(
    offer: nat, entries: seq<FileEntry>, root: Path, totalBytes: nat, doneBytes: nat,
    resolved: seq<Option<Path>>, written: seq<nat>, handles: set<U32>, state: TransferState)

  /** `owners` records which entry of which offer each file was created for. No handler reads it. */
  datatype Receiver = Receiver(
    disk: Disk, transfers: map<U64, Incoming>, overwrite: bool, offers: nat, owners: map<Path, (nat, nat)>)

  /** What the file system allows for one chunk: making directories, opening the file, and how many
      bytes of the write go through. */
  datatype Io = Io(mkdir: bool, open: bool, wrote: nat)

  datatype Event =
    | Offered(id: U64, entries: seq<FileEntry>, root: Path)
    | Accepted(id: U64, refused: set<nat>)
    | ChunkArrived(chunk: FileChunk, io: Io)
    | ProgressReported(id: U64, index: U32, bytesDone: U64)
    | Finished(id: U64, failed: bool)
    | CancelRequested(id: U64)
    | SessionLost(ids: set<U64>)
    | ClearFinished

  const U64_MAX := 0xffff_ffff_ffff_ffff

  function SaturatingAdd(a: nat, b: nat): nat {
    if a + b > U64_MAX then U64_MAX else a + b
  }

  function SaturatingSub(a: nat, b: nat): nat {
    if a < b then 0 else a - b
  }

  function TotalSize(entries: seq<FileEntry>): nat {
    if entries == [] then 0 else entries[0].size + TotalSize(entries[1..])
  }

  function NewIncoming(offer: nat, entries: seq<FileEntry>, root: Path): Incoming {
    Incoming(offer, entries, root, TotalSize(entries), 0, seq(|entries|, _ => None), seq(|entries|, _ => 0), {}, Pending)
  }

  /** The position of the first entry with an index. */
  function PositionOf(entries: seq<FileEntry>, index: U32): (position: Option<nat>)
    ensures position.Some? ==> position.value < |entries| && entries[position.value].index == index
    ensures position.None? ==> forall k :: 0 <= k < |entries| ==> entries[k].index != index
  {
    if entries == [] then None
    else if entries[0].index == index then Some(0)
    else
      match PositionOf(entries[1..], index)
      case None => None
      case Some(p) => Some(p + 1)
  }

  function Prefixes(path: Path): set<Path> {
    set i | 0 <= i <= |path| :: path[..i]
  }

  /** Creates a directory and everything above it, unless something on the way is a file. */
  function CreateDirAll(disk: Disk, path: Path, allowed: bool): Result<Disk> {
    if !allowed || exists p :: p in Prefixes(path) && p in disk.files then Err("cannot create the directory")
    else Ok(disk.(dirs := disk.dirs + Prefixes(path)))
  }

  /** Opens a file for writing, creating it when it is missing and never truncating it. */
  function OpenFile(disk: Disk, path: Path, allowed: bool): Result<Disk>
    requires path != []
  {
    if !allowed || path in disk.dirs || path[..|path| - 1] !in disk.dirs then Err("cannot open the file")
    else if path in disk.files then Ok(disk)
    else Ok(disk.(files := disk.files[path := []]))
  }

  function Zeros(n: nat): Bytes {
    seq(n, _ => 0)
  }

  /** What a file holds after writing `data` at `offset`; a gap before it reads as zeros. */
  function WriteAt(content: Bytes, offset: nat, data: Bytes): Bytes {
    if data == [] then content
    else if offset >= |content| then content + Zeros(offset - |content|) + data
    else if offset + |data| >= |content| then content[..offset] + data
    else content[..offset] + data + content[offset + |data|..]
  }

  predicate WellSized(t: Incoming) {
    |t.resolved| == |t.entries| == |t.written|
  }

  /** The path a chunk's entry is written to: where it was before, or a new one. */
  function Locate(disk: Disk, t: Incoming, position: nat, overwrite: bool, io: Io): (located: Result<(Path, Disk)>)
    requires WellSized(t) && position < |t.entries|
  {
    if t.resolved[position].Some? then Ok((t.resolved[position].value, disk))
    else
      match SanitizeRelative(t.entries[position].relativePath, t.root)
      case Err(reason) => Err(reason)
      case Ok(path) =>
        AcceptedPathsStayBelowTheRoot(t.entries[position].relativePath, t.root);
        var picked := if overwrite then path else UniquePath(disk, path);
        UniquePathIsFreeIffRoom(disk, path);
        match CreateDirAll(disk, picked[..|picked| - 1], io.mkdir)
        case Err(reason) => Err(reason)
        case Ok(made) => Ok((picked, made))
  }

  function Fail(r: Receiver, id: U64, t: Incoming): Receiver {
    r.(transfers := r.transfers[id := t.(state := Failed)])
  }

  /** Opens the file unless a handle is open, and notes whom a new file belongs to. */
  function Open(r: Receiver, t: Incoming, position: nat, index: U32, path: Path, io: Io): Result<Receiver> {
    if index in t.handles || path == [] then Ok(r)
    else
      match OpenFile(r.disk, path, io.open)
      case Err(reason) => Err(reason)
      case Ok(disk) =>
        Ok(r.(disk := disk, owners := if path in r.disk.files then r.owners else r.owners[path := (t.offer, position)]))
  }

  function Written(disk: Disk, path: Path, offset: nat, data: Bytes): Disk {
    var content := if path in disk.files then disk.files[path] else [];
    disk.(files := disk.files[path := WriteAt(content, offset, data)])
  }

  function Counted(t: Incoming, position: nat, length: nat): Incoming
    requires position < |t.written|
  {
    t.(written := t.written[position := SaturatingAdd(t.written[position], length)],
       doneBytes := SaturatingAdd(t.doneBytes, length))
  }

  /** Writes a chunk to the path found for it. */
  function StoreChunk(r: Receiver, t: Incoming, position: nat, chunk: FileChunk, path: Path, io: Io): Receiver
    requires WellSized(t) && position < |t.entries|
  {
    var placed := t.(resolved := t.resolved[position := Some(path)]);
    match Open(r, t, position, chunk.index, path, io)
    case Err(_) => Fail(r, chunk.transfer, placed)
    case Ok(ready) =>
      var held := placed.(handles := placed.handles + {chunk.index});
      var sent := if io.wrote < |chunk.data| then chunk.data[..io.wrote] else chunk.data;
      var stored := ready.(disk := Written(ready.disk, path, chunk.offset, sent));
      if io.wrote < |chunk.data| then Fail(stored, chunk.transfer, held)
      else stored.(transfers := stored.transfers[chunk.transfer := Counted(held, position, |chunk.data|)])
  }

  /** A chunk for a known, active, non-directory entry. */
  function WriteChunk(r: Receiver, t: Incoming, position: nat, chunk: FileChunk, io: Io): Receiver
    requires WellSized(t) && position < |t.entries|
  {
    match Locate(r.disk, t, position, r.overwrite, io)
    case Err(_) => Fail(r, chunk.transfer, t)
    case Ok((path, made)) => StoreChunk(r.(disk := made), t, position, chunk, path, io)
  }

  function OnChunk(r: Receiver, chunk: FileChunk, io: Io): Receiver {
    if chunk.transfer !in r.transfers then r
    else
      var t := r.transfers[chunk.transfer];
      var position := PositionOf(t.entries, chunk.index);
      if !t.state.Active? || position.None? || t.entries[position.value].isDir || !WellSized(t) then r
      else WriteChunk(r, t, position.value, chunk, io)
  }

  /** Creates the offered directories in order, skipping the unsafe ones; the file system refuses those at the
      positions `refused`. */
  function MakeDirectories(disk: Disk, t: Incoming, from: nat, refused: set<nat>): (Disk, seq<Option<Path>>)
    requires WellSized(t) && from <= |t.entries|
    decreases |t.entries| - from
  {
    if from == |t.entries| then (disk, t.resolved)
    else if !t.entries[from].isDir then MakeDirectories(disk, t, from + 1, refused)
    else
      match SanitizeRelative(t.entries[from].relativePath, t.root)
      case Err(_) => MakeDirectories(disk, t, from + 1, refused)
      case Ok(path) =>
        var made := CreateDirAll(disk, path, from !in refused);
        MakeDirectories(if made.Ok? then made.value else disk, t.(resolved := t.resolved[from := Some(path)]), from + 1, refused)
  }

  function OnAccept(r: Receiver, id: U64, refused: set<nat>): Receiver {
    if id !in r.transfers || !r.transfers[id].state.Pending? || !WellSized(r.transfers[id]) then r
    else
      var t := r.transfers[id];
      var (disk, resolved) := MakeDirectories(r.disk, t, 0, refused);
      r.(disk := disk, transfers := r.transfers[id := t.(state := Active, resolved := resolved)])
  }

  function OnProgress(r: Receiver, id: U64, index: U32, bytesDone: U64): Receiver {
    if id !in r.transfers || !WellSized(r.transfers[id]) then r
    else
      var t := r.transfers[id];
      match PositionOf(t.entries, index)
      case None => r
      case Some(p) =>
        var reported := t.(
          written := t.written[p := bytesDone],
          doneBytes := (SaturatingSub(t.doneBytes, t.written[p]) + bytesDone) % (U64_MAX + 1));
        r.(transfers := r.transfers[id := reported])
  }

  function OnFinished(r: Receiver, id: U64, failed: bool): Receiver {
    if id !in r.transfers then r
    else
      var t := r.transfers[id];
      r.(transfers := r.transfers[id := t.(
        handles := {}, state := if failed then Failed else Completed,
        doneBytes := if t.doneBytes == 0 then t.totalBytes else t.doneBytes)])
  }

  predicate IsOver(state: TransferState) {
    state.Completed? || state.Cancelled? || state.Failed?
  }

  function Step(r: Receiver, e: Event): Receiver {
    match e
    case Offered(id, entries, root) =>
      r.(transfers := r.transfers[id := NewIncoming(r.offers, entries, root)], offers := r.offers + 1)
    case Accepted(id, refused) => OnAccept(r, id, refused)
    case ChunkArrived(chunk, io) => OnChunk(r, chunk, io)
    case ProgressReported(id, index, bytesDone) => OnProgress(r, id, index, bytesDone)
    case Finished(id, failed) => OnFinished(r, id, failed)
    case CancelRequested(id) =>
      if id in r.transfers then r.(transfers := r.transfers[id := r.transfers[id].(state := Cancelled)]) else r
    case SessionLost(ids) =>
      r.(transfers := map id | id in r.transfers ::
           if id in ids && r.transfers[id].state.Active? then r.transfers[id].(state := Failed) else r.transfers[id])
    case ClearFinished =>
      r.(transfers := map id | id in r.transfers && !IsOver(r.transfers[id].state) :: r.transfers[id])
  }

  function Run(r: Receiver, events: seq<Event>): Receiver
    decreases events
  {
    if events == [] then r else Run(Step(r, events[0]), events[1..])
  }

  // ---- Every file belongs to the entry it was created for ----

  /** Where an entry is to be written, if that is a path at all, some variant of its name is free. */
  predicate RoomFor(disk: Disk, t: Incoming, position: nat)
    requires position < |t.entries|
  {
    var path := SanitizeRelative(t.entries[position].relativePath, t.root);
    path.Ok? && path.value != [] ==> HasRoom(disk, path.value)
  }

  /** A chunk that needs a new path finds one that is free. */
  predicate FindsRoom(r: Receiver, e: Event) {
    e.ChunkArrived? && e.chunk.transfer in r.transfers ==>
      var t := r.transfers[e.chunk.transfer];
      var position := PositionOf(t.entries, e.chunk.index);
      position.Some? && WellSized(t) && t.resolved[position.value].None? ==> RoomFor(r.disk, t, position.value)
  }

  predicate AlwaysFindsRoom(r: Receiver, events: seq<Event>)
    decreases events
  {
    events == [] || (FindsRoom(r, events[0]) && AlwaysFindsRoom(Step(r, events[0]), events[1..]))
  }

  /** A file entry of an active transfer that has a path is the owner of the file there; one of a
      pending transfer has no path yet. */
  predicate EntryOwnsItsPath(r: Receiver, t: Incoming) {
    && WellSized(t) && t.offer < r.offers
    && (forall index :: index in t.handles ==>
          var position := PositionOf(t.entries, index);
          position.Some? && t.resolved[position.value].Some?)
    && (t.state.Active? ==> forall k :: 0 <= k < |t.entries| && !t.entries[k].isDir && t.resolved[k].Some? ==>
          t.resolved[k].value in r.owners && r.owners[t.resolved[k].value] == (t.offer, k))
    && (t.state.Pending? ==> forall k :: 0 <= k < |t.entries| && !t.entries[k].isDir ==> t.resolved[k].None?)
  }

  predicate OwnersInv(r: Receiver, before: map<Path, Bytes>) {
    && !r.overwrite
    && (forall p :: p in before ==> p in r.disk.files && r.disk.files[p] == before[p] && p !in r.owners)
    && (forall p :: p in r.owners ==> p in r.disk.files && r.owners[p].0 < r.offers)
    && (forall id :: id in r.transfers ==> EntryOwnsItsPath(r, r.transfers[id]))
    && (forall i, j :: i in r.transfers && j in r.transfers && i != j ==> r.transfers[i].offer != r.transfers[j].offer)
  }

  /** Files of `disk` stay as they are in `after`, except perhaps at `path`. */
  predicate OnlyChanges(disk: Disk, after: Disk, path: Path) {
    forall p :: p in disk.files && p != path ==> p in after.files && after.files[p] == disk.files[p]
  }

  /** The owner recorded for a chunk that reaches the disk. */
  predicate Stores(r: Receiver, after: Receiver, t: Incoming, position: nat, path: Path) {
    && OnlyChanges(r.disk, after.disk, path)
    && after.owners == r.owners[path := (t.offer, position)]
    && path in after.disk.files
    && (path in r.disk.files ==> path in r.owners && r.owners[path] == (t.offer, position))
  }

  /** Where a chunk goes: to the path its entry owns already, or to one where nothing is. */
  lemma LocateEffect(r: Receiver, t: Incoming, position: nat, io: Io)
    requires WellSized(t) && position < |t.entries| && !r.overwrite
    requires t.resolved[position].None? ==> RoomFor(r.disk, t, position)
    ensures var located := Locate(r.disk, t, position, r.overwrite, io);
            located.Ok? ==>
              && located.value.1.files == r.disk.files
              && if t.resolved[position].Some? then located.value.0 == t.resolved[position].value
                 else located.value.0 != [] && located.value.0 !in r.disk.files
  {
    var path := SanitizeRelative(t.entries[position].relativePath, t.root);
    if t.resolved[position].None? && path.Ok? {
      AcceptedPathsStayBelowTheRoot(t.entries[position].relativePath, t.root);
      UniquePathIsFreeIffRoom(r.disk, path.value);
    }
  }

  /** The exception, and there is no other: where no variant of its name is free, an entry that needs a
      path is given the one it asks for, and if that is a file its chunks are written into it. */
  lemma ExistingFileIsChosenIffNoRoom(disk: Disk, t: Incoming, position: nat, io: Io)
    requires WellSized(t) && position < |t.entries| && t.resolved[position].None?
    requires Locate(disk, t, position, false, io).Ok?
    ensures var chosen := Locate(disk, t, position, false, io).value.0;
            && (chosen in disk.files <==> !RoomFor(disk, t, position) && Wanted(t, position) in disk.files)
            && (!RoomFor(disk, t, position) ==> chosen == Wanted(t, position))
  {
    AcceptedPathsStayBelowTheRoot(t.entries[position].relativePath, t.root);
    UniquePathIsFreeIffRoom(disk, Wanted(t, position));
  }

  /** With overwriting on, an entry that needs a path is given the one it asks for. */
  lemma OverwritingKeepsTheName(disk: Disk, t: Incoming, position: nat, io: Io)
    requires WellSized(t) && position < |t.entries| && t.resolved[position].None?
    ensures var located := Locate(disk, t, position, true, io);
            located.Ok? ==>
              && SanitizeRelative(t.entries[position].relativePath, t.root) == Ok(located.value.0)
              && located.value.1.files == disk.files
  {
  }

  /** The path an entry asks for. */
  function Wanted(t: Incoming, position: nat): Path
    requires position < |t.entries| && SanitizeRelative(t.entries[position].relativePath, t.root).Ok?
  {
    SanitizeRelative(t.entries[position].relativePath, t.root).value
  }

  /** Opening leaves a file there that belongs to the entry, and touches no other. */
  lemma OpenEffect(r: Receiver, t: Incoming, position: nat, index: U32, path: Path, io: Io)
    requires path in r.disk.files ==> path in r.owners && r.owners[path] == (t.offer, position)
    requires path !in r.disk.files ==> index !in t.handles && path != []
    ensures var opening := Open(r, t, position, index, path, io);
            opening.Ok? ==>
              var ready := opening.value;
              && ready == r.(disk := ready.disk, owners := r.owners[path := (t.offer, position)])
              && path in ready.disk.files && OnlyChanges(r.disk, ready.disk, path)
  {
  }

  predicate Untouched(r: Receiver, after: Receiver) {
    after.disk.files == r.disk.files && after.owners == r.owners
  }

  /** The transfer a chunk is for moves on or fails; a file changes only if the entry owns it. */
  predicate Touched(r: Receiver, after: Receiver, chunk: FileChunk, t: Incoming, position: nat)
    requires WellSized(t) && position < |t.entries|
  {
    && chunk.transfer in after.transfers
    && after == r.(transfers := r.transfers[chunk.transfer := after.transfers[chunk.transfer]],
                   disk := after.disk, owners := after.owners)
    && var u := after.transfers[chunk.transfer];
       && u.offer == t.offer && u.entries == t.entries && u.root == t.root && WellSized(u)
       && (forall k :: 0 <= k < |t.entries| && k != position ==> u.resolved[k] == t.resolved[k])
       && (t.resolved[position].Some? ==> u.resolved[position] == t.resolved[position])
       && t.handles <= u.handles <= t.handles + {chunk.index}
       && (u.state.Active? || u.state.Failed?)
       && if u.resolved[position].None? then u.state.Failed? && Untouched(r, after) && u.handles == t.handles
          else (u.state.Failed? && Untouched(r, after)) || Stores(r, after, t, position, u.resolved[position].value)
  }

  /** Bytes written to a file the entry owns, with the transfer moved on accordingly. */
  lemma WritingEffect(
      r: Receiver, ready: Receiver, t: Incoming, u: Incoming, position: nat, chunk: FileChunk, path: Path, data: Bytes)
    requires WellSized(t) && position < |t.entries|
    requires path in r.disk.files ==> path in r.owners && r.owners[path] == (t.offer, position)
    requires t.resolved[position].Some? ==> path == t.resolved[position].value
    requires ready == r.(disk := ready.disk, owners := r.owners[path := (t.offer, position)])
    requires path in ready.disk.files && OnlyChanges(r.disk, ready.disk, path)
    requires u.offer == t.offer && u.entries == t.entries && u.root == t.root && WellSized(u)
    requires u.resolved == t.resolved[position := Some(path)] && u.handles == t.handles + {chunk.index}
    requires u.state.Active? || u.state.Failed?
    ensures Touched(r, ready.(disk := Written(ready.disk, path, chunk.offset, data),
                              transfers := ready.transfers[chunk.transfer := u]), chunk, t, position)
  {
  }

  lemma StoreChunkEffect(r: Receiver, t: Incoming, position: nat, chunk: FileChunk, path: Path, io: Io)
    requires WellSized(t) && position < |t.entries| && t.state.Active?
    requires path in r.disk.files ==> path in r.owners && r.owners[path] == (t.offer, position)
    requires path !in r.disk.files ==> chunk.index !in t.handles && path != []
    requires t.resolved[position].Some? ==> path == t.resolved[position].value
    ensures Touched(r, StoreChunk(r, t, position, chunk, path, io), chunk, t, position)
  {
    OpenEffect(r, t, position, chunk.index, path, io);
    var opening := Open(r, t, position, chunk.index, path, io);
    if opening.Ok? {
      var held := t.(resolved := t.resolved[position := Some(path)], handles := t.handles + {chunk.index});
      if io.wrote < |chunk.data| {
        WritingEffect(r, opening.value, t, held.(state := Failed), position, chunk, path, chunk.data[..io.wrote]);
      } else {
        WritingEffect(r, opening.value, t, Counted(held, position, |chunk.data|), position, chunk, path, chunk.data);
      }
    }
  }

  /** Directories made on the way change no file. */
  lemma TouchedBesidesDirectories(
      r: Receiver, made: Disk, after: Receiver, chunk: FileChunk, t: Incoming, position: nat)
    requires WellSized(t) && position < |t.entries| && made.files == r.disk.files
    requires Touched(r.(disk := made), after, chunk, t, position)
    ensures Touched(r, after, chunk, t, position)
  {
  }

  /** What one chunk can do: nothing to any file, or change the one file its entry owns. */
  lemma WriteChunkEffect(r: Receiver, t: Incoming, position: nat, chunk: FileChunk, io: Io)
    requires WellSized(t) && position < |t.entries| && t.state.Active? && !r.overwrite
    requires t.resolved[position].Some? ==>
      var path := t.resolved[position].value;
      path in r.disk.files && path in r.owners && r.owners[path] == (t.offer, position)
    requires t.resolved[position].None? ==> chunk.index !in t.handles && RoomFor(r.disk, t, position)
    ensures Touched(r, WriteChunk(r, t, position, chunk, io), chunk, t, position)
  {
    LocateEffect(r, t, position, io);
    var located := Locate(r.disk, t, position, r.overwrite, io);
    if located.Ok? {
      var (path, made) := located.value;
      StoreChunkEffect(r.(disk := made), t, position, chunk, path, io);
      TouchedBesidesDirectories(r, made, WriteChunk(r, t, position, chunk, io), chunk, t, position);
    }
  }

  /** A chunk that is for nothing this machine is receiving changes nothing at all; any other is for a
      file entry of an active transfer. */
  function Target(r: Receiver, chunk: FileChunk): (position: Option<nat>)
    ensures position.Some? ==> chunk.transfer in r.transfers && WellSized(r.transfers[chunk.transfer])
                               && position.value < |r.transfers[chunk.transfer].entries|
    ensures position.None? ==> forall io :: OnChunk(r, chunk, io) == r
  {
    if chunk.transfer !in r.transfers then None
    else
      var t := r.transfers[chunk.transfer];
      var position := PositionOf(t.entries, chunk.index);
      if !t.state.Active? || position.None? || t.entries[position.value].isDir || !WellSized(t) then None else position
  }

  lemma ChunkEffect(r: Receiver, before: map<Path, Bytes>, chunk: FileChunk, io: Io)
    requires OwnersInv(r, before) && FindsRoom(r, ChunkArrived(chunk, io)) && Target(r, chunk).Some?
    ensures Touched(r, OnChunk(r, chunk, io), chunk, r.transfers[chunk.transfer], Target(r, chunk).value)
  {
    var t := r.transfers[chunk.transfer];
    assert EntryOwnsItsPath(r, t);
    WriteChunkEffect(r, t, Target(r, chunk).value, chunk, io);
  }

  /** What a chunk touches leaves every entry, of whichever transfer, the owner of its path. */
  lemma TouchedKeepsOwners(
      r: Receiver, after: Receiver, before: map<Path, Bytes>, chunk: FileChunk, t: Incoming, position: nat, id: U64)
    requires OwnersInv(r, before) && chunk.transfer in r.transfers && r.transfers[chunk.transfer] == t
    requires WellSized(t) && t.state.Active? && PositionOf(t.entries, chunk.index) == Some(position)
    requires Touched(r, after, chunk, t, position)
    requires id in after.transfers
    ensures EntryOwnsItsPath(after, after.transfers[id])
  {
    assert EntryOwnsItsPath(r, t) && EntryOwnsItsPath(r, r.transfers[id]);
  }

  lemma TouchedKeepsInv(
      r: Receiver, after: Receiver, before: map<Path, Bytes>, chunk: FileChunk, t: Incoming, position: nat)
    requires OwnersInv(r, before) && chunk.transfer in r.transfers && r.transfers[chunk.transfer] == t
    requires WellSized(t) && t.state.Active? && PositionOf(t.entries, chunk.index) == Some(position)
    requires Touched(r, after, chunk, t, position)
    ensures OwnersInv(after, before) && r.owners.Items <= after.owners.Items
  {
    assert EntryOwnsItsPath(r, t);
    forall id | id in after.transfers ensures EntryOwnsItsPath(after, after.transfers[id]) {
      TouchedKeepsOwners(r, after, before, chunk, t, position, id);
    }
  }

  lemma ChunkKeepsOwners(r: Receiver, before: map<Path, Bytes>, chunk: FileChunk, io: Io)
    requires OwnersInv(r, before) && FindsRoom(r, ChunkArrived(chunk, io))
    ensures OwnersInv(OnChunk(r, chunk, io), before)
    ensures r.owners.Items <= OnChunk(r, chunk, io).owners.Items
  {
    if Target(r, chunk).Some? {
      ChunkEffect(r, before, chunk, io);
      TouchedKeepsInv(r, OnChunk(r, chunk, io), before, chunk, r.transfers[chunk.transfer], Target(r, chunk).value);
    }
  }
}
