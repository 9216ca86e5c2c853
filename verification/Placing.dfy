/** Streaming files to known places on a disk that nothing else writes to, onto what is there or where nothing is
    (crates/ud-engine/src/engine.rs:2103-2193). Rebuild.dfy uses this for a whole tree. */
module Placing {
  import opened Wrappers
  import opened Codec
  import opened Paths
  import opened Transfer
  import D = Delivery

  /** The files of one transfer, where each entry belongs, and what is on the disk besides. */
  datatype Plan = Plan(
    id: U64, root: Path, files: seq<OutgoingFile>, dests: seq<Path>, before: map<Path, Bytes>, dirs: set<Path>)
  {
    predicate IsFile(k: nat) {
      k < |files| && !files[k].entry.isDir
    }
  }

  /** All places differ, no directory is where a file belongs, and no file where a directory does. */
  predicate Apart(plan: Plan) {
    && |plan.dests| == |plan.files| <= 0x1_0000_0000 && D.IsOffer(plan.files)
    && (forall k :: 0 <= k < |plan.dests| ==> plan.dests[k] != [])
    && (forall k :: 0 <= k < |plan.dests| ==> if plan.IsFile(k) then plan.dests[k] !in plan.dirs else plan.dests[k] !in plan.before)
    && (forall i, j :: 0 <= i < j < |plan.dests| ==> plan.dests[i] != plan.dests[j])
    && (forall p :: p in plan.dirs ==> p !in plan.before)
  }

  /** No file is where one belongs. */
  predicate Free(plan: Plan) {
    forall k :: 0 <= k < |plan.dests| ==> plan.dests[k] !in plan.before
  }

  /** What was at the place of file `k`. */
  function Old(plan: Plan, k: nat): Bytes
    requires k < |plan.dests|
  {
    if plan.dests[k] in plan.before then plan.before[plan.dests[k]] else []
  }

  /** A file written over an older one, of which the end may be left. */
  function Overlaid(was: Bytes, now: Bytes): Bytes {
    if |now| < |was| then now + was[|now|..] else now
  }

  /** Writing on over an older file. */
  lemma WritingOver(was: Bytes, content: Bytes, offset: nat, data: Bytes)
    requires offset + |data| <= |content| && data == content[offset..offset + |data|]
    ensures WriteAt(Overlaid(was, content[..offset]), offset, data) == Overlaid(was, content[..offset + |data|])
  {
    assert content[..offset] + data == content[..offset + |data|];
    var so_far := Overlaid(was, content[..offset]);
    assert so_far[..offset] == content[..offset];
    if offset < |was| { assert so_far[offset..] == was[offset..]; }
  }

  /** The receiver resolves the path of an entry to its place, and all directories above are there. */
  predicate Resolves(plan: Plan, k: nat)
    requires k < |plan.files| && k < |plan.dests|
  {
    && SanitizeRelative(plan.files[k].entry.relativePath, plan.root) == Ok(plan.dests[k])
    && plan.dests[k] != [] && Prefixes(plan.dests[k][..|plan.dests[k]| - 1]) <= plan.dirs
  }

  predicate AllResolve(plan: Plan) {
    |plan.dests| == |plan.files| && forall k :: 0 <= k < |plan.files| && plan.IsFile(k) ==> Resolves(plan, k)
  }

  /** Some of file `k` has come. */
  predicate Begun(plan: Plan, at: Cursor, k: nat) {
    plan.IsFile(k) && D.Got(plan.files, at, k) > 0
  }

  /** What has come of file `k`. */
  function Arrived(plan: Plan, at: Cursor, k: nat): Bytes
    requires D.InBounds(plan.files, at) && k < |plan.files|
  {
    Content(plan.files[k])[..D.Got(plan.files, at, k)]
  }

  /** What the place of file `k` holds, once something does. */
  function There(plan: Plan, at: Cursor, k: nat): Bytes
    requires D.InBounds(plan.files, at) && k < |plan.files| && k < |plan.dests|
  {
    Overlaid(Old(plan, k), Arrived(plan, at, k))
  }

  /** Of each file exactly what has come is at its place, over what was there, and nothing else has changed. */
  predicate DiskAt(plan: Plan, disk: Disk, at: Cursor)
    requires D.InBounds(plan.files, at)
  {
    && disk.dirs == plan.dirs && |plan.dests| == |plan.files|
    && (forall p :: p in plan.before ==> p in disk.files && (p !in plan.dests ==> disk.files[p] == plan.before[p]))
    && (forall p :: p in disk.files && p !in plan.before ==> p in plan.dests)
    && (forall k :: 0 <= k < |plan.dests| ==>
          (plan.dests[k] in disk.files <==> Begun(plan, at, k) || plan.dests[k] in plan.before))
    && (forall k :: 0 <= k < |plan.dests| && plan.dests[k] in disk.files ==> disk.files[plan.dests[k]] == There(plan, at, k))
  }

  predicate TransferAt(plan: Plan, t: Incoming, at: Cursor) {
    && WellSized(t) && t.root == plan.root && t.state.Active? && |t.entries| == |plan.dests| == |plan.files|
    && (forall k :: 0 <= k < |t.entries| ==> t.entries[k] == plan.files[k].entry)
    && (forall k :: 0 <= k < |t.entries| && plan.IsFile(k) ==>
          t.resolved[k] == (if Begun(plan, at, k) then Some(plan.dests[k]) else None))
    && (forall k :: 0 <= k < |t.entries| ==> (k in t.handles <==> Begun(plan, at, k)))
    && (forall k :: 0 <= k < |t.entries| && plan.IsFile(k) ==> t.written[k] == D.Got(plan.files, at, k))
  }

  predicate PlacedTo(plan: Plan, r: Receiver, at: Cursor) {
    && plan.id in r.transfers && D.InBounds(plan.files, at) && (r.overwrite || Free(plan))
    && DiskAt(plan, r.disk, at) && TransferAt(plan, r.transfers[plan.id], at)
  }

  lemma {:induction false} SettlingKeepsPlaced(plan: Plan, r: Receiver, at: Cursor)
    requires PlacedTo(plan, r, at)
    ensures PlacedTo(plan, r, Settle(plan.files, at))
    decreases |plan.files| - at.file
  {
    if at.file < |plan.files| && at.offset >= |Content(plan.files[at.file])| {
      var next := Cursor(at.file + 1, 0);
      assert forall k :: 0 <= k < |plan.files| ==> D.Got(plan.files, next, k) == D.Got(plan.files, at, k);
      SettlingKeepsPlaced(plan, r, next);
    }
  }

  /** A chunk the file system takes without complaint. */
  function Intact(chunk: FileChunk): Event {
    ChunkArrived(chunk, Io(true, true, |chunk.data|))
  }

  predicate NextChunk(plan: Plan, at: Cursor, chunk: FileChunk) {
    && at.file < |plan.files|
    && CarriesNext(chunk, plan.id, plan.files[at.file].entry.index, Content(plan.files[at.file]), at.offset)
  }

  lemma NextChunkIsForTheNextFile(plan: Plan, t: Incoming, at: Cursor, chunk: FileChunk)
    requires Apart(plan) && TransferAt(plan, t, at) && NextChunk(plan, at, chunk)
    ensures chunk.index == at.file && plan.IsFile(at.file) && PositionOf(t.entries, chunk.index) == Some(at.file)
  {
    var p := PositionOf(t.entries, chunk.index);
    assert t.entries[at.file] == plan.files[at.file].entry;
    assert p.Some? ==> t.entries[p.value] == plan.files[p.value].entry;
  }

  /** The chunk of a file goes to its place, and no directory is missing on the way. */
  lemma ChunkIsLocated(plan: Plan, disk: Disk, t: Incoming, at: Cursor, overwrite: bool, io: Io)
    requires Apart(plan) && D.InBounds(plan.files, at) && DiskAt(plan, disk, at) && TransferAt(plan, t, at)
    requires plan.IsFile(at.file) && Resolves(plan, at.file) && io.mkdir && (overwrite || Free(plan))
    ensures Locate(disk, t, at.file, overwrite, io) == Ok((plan.dests[at.file], disk))
  {
    var dest := plan.dests[at.file];
    if t.resolved[at.file].None? {
      assert t.entries[at.file] == plan.files[at.file].entry;
      var parent := dest[..|dest| - 1];
      assert !overwrite ==> !disk.Exists(dest);
      forall p | p in Prefixes(parent) ensures p !in disk.files {
        assert p in plan.dirs;
      }
      assert disk.dirs + Prefixes(parent) == disk.dirs;
    }
  }

  /** Storing the next bytes of `content` writes on over the older file, if there is one. */
  lemma StoringCarriesOn(r: Receiver, t: Incoming, k: nat, chunk: FileChunk, path: Path, content: Bytes, was: Bytes)
    requires WellSized(t) && k < |t.entries| && path != [] && chunk.data != []
    requires chunk.offset + |chunk.data| <= |content|
    requires chunk.data == content[chunk.offset..chunk.offset + |chunk.data|]
    requires path in r.disk.files ==> r.disk.files[path] == Overlaid(was, content[..chunk.offset])
    requires path !in r.disk.files ==> chunk.index !in t.handles && chunk.offset == 0 && was == []
    requires path !in r.disk.dirs && path[..|path| - 1] in r.disk.dirs
    ensures var after := StoreChunk(r, t, k, chunk, path, Intact(chunk).io);
            && after.overwrite == r.overwrite
            && after.disk == r.disk.(files := r.disk.files[path := Overlaid(was, content[..chunk.offset + |chunk.data|])])
            && after.transfers == r.transfers[chunk.transfer :=
                 Counted(t.(resolved := t.resolved[k := Some(path)], handles := t.handles + {chunk.index}), k, |chunk.data|)]
  {
    WritingOver(was, content, chunk.offset, chunk.data);
    var opening := Open(r, t, k, chunk.index, path, Intact(chunk).io);
    assert content[..0] == [];
    assert opening.Ok? && opening.value.transfers == r.transfers && opening.value.disk.dirs == r.disk.dirs;
    assert Written(opening.value.disk, path, chunk.offset, chunk.data).files
        == r.disk.files[path := Overlaid(was, content[..chunk.offset + |chunk.data|])];
  }

  lemma NextChunkGoesThrough(plan: Plan, r: Receiver, at: Cursor, chunk: FileChunk)
    requires Apart(plan) && PlacedTo(plan, r, at) && NextChunk(plan, at, chunk) && AllResolve(plan)
    ensures chunk.index == at.file && plan.IsFile(at.file)
    ensures Step(r, Intact(chunk))
         == StoreChunk(r, r.transfers[plan.id], at.file, chunk, plan.dests[at.file], Intact(chunk).io)
  {
    var t := r.transfers[plan.id];
    NextChunkIsForTheNextFile(plan, t, at, chunk);
    assert Resolves(plan, at.file);
    ChunkIsLocated(plan, r.disk, t, at, r.overwrite, Intact(chunk).io);
    assert r.(disk := r.disk) == r && t.entries[at.file] == plan.files[at.file].entry;
  }

  /** What is at the place of the next file, and how it is held. */
  lemma PlaceIsReady(plan: Plan, r: Receiver, at: Cursor) returns (dest: Path, was: Bytes, content: Bytes)
    requires Apart(plan) && PlacedTo(plan, r, at) && plan.IsFile(at.file) && Resolves(plan, at.file)
    ensures dest == plan.dests[at.file] && was == Old(plan, at.file) && content == Content(plan.files[at.file])
    ensures dest != [] && dest !in r.disk.dirs && dest[..|dest| - 1] in r.disk.dirs && at.offset <= |content|
    ensures dest in r.disk.files ==> r.disk.files[dest] == Overlaid(was, content[..at.offset])
    ensures dest !in r.disk.files ==> at.file !in r.transfers[plan.id].handles && at.offset == 0 && was == []
  {
    dest, was, content := plan.dests[at.file], Old(plan, at.file), Content(plan.files[at.file]);
    assert dest[..|dest| - 1] in Prefixes(dest[..|dest| - 1]) by {
      assert dest[..|dest| - 1] == dest[..|dest| - 1][..|dest| - 1];
    }
    assert content[..at.offset] == Arrived(plan, at, at.file);
  }

  lemma NextChunkIsStored(plan: Plan, r: Receiver, at: Cursor, chunk: FileChunk) returns (after: Receiver, u: Incoming)
    requires Apart(plan) && PlacedTo(plan, r, at) && NextChunk(plan, at, chunk) && Resolves(plan, at.file)
    requires chunk.index == at.file && plan.IsFile(at.file)
    ensures after == StoreChunk(r, r.transfers[plan.id], at.file, chunk, plan.dests[at.file], Intact(chunk).io)
    ensures 0 < |chunk.data| <= |Content(plan.files[at.file])| - at.offset
    ensures IsGrown(plan, r, after, u, at, |chunk.data|)
  {
    var t, k := r.transfers[plan.id], at.file;
    var dest, was, content := PlaceIsReady(plan, r, at);
    StoringCarriesOn(r, t, k, chunk, dest, content, was);
    after := StoreChunk(r, t, k, chunk, dest, Intact(chunk).io);
    u := Counted(t.(resolved := t.resolved[k := Some(dest)], handles := t.handles + {chunk.index}), k, |chunk.data|);
  }

  /** The receiver with `n` more bytes of the next file. */
  predicate IsGrown(plan: Plan, r: Receiver, after: Receiver, u: Incoming, at: Cursor, n: nat)
    requires Apart(plan) && PlacedTo(plan, r, at) && plan.IsFile(at.file) && n <= |Content(plan.files[at.file])| - at.offset
  {
    var k: U32, next, t := at.file, at.offset + n, r.transfers[plan.id];
    && after.overwrite == r.overwrite && after.transfers == r.transfers[plan.id := u]
    && after.disk == r.disk.(files := r.disk.files[plan.dests[k] := Overlaid(Old(plan, k), Content(plan.files[k])[..next])])
    && u == Counted(t.(resolved := t.resolved[k := Some(plan.dests[k])], handles := t.handles + {k}), k, n)
  }

  /** The next file grows, and the others are as they were. */
  lemma GrownFiles(plan: Plan, at: Cursor, n: nat)
    requires D.InBounds(plan.files, at) && |plan.dests| == |plan.files| && plan.IsFile(at.file)
    requires 0 < n <= |Content(plan.files[at.file])| - at.offset
    ensures var next := Cursor(at.file, at.offset + n);
            && D.InBounds(plan.files, next) && Begun(plan, next, at.file)
            && There(plan, next, at.file) == Overlaid(Old(plan, at.file), Content(plan.files[at.file])[..next.offset])
            && forall k :: 0 <= k < |plan.files| && k != at.file ==>
                 (Begun(plan, next, k) <==> Begun(plan, at, k)) && There(plan, next, k) == There(plan, at, k)
  {
  }

  lemma GrownDisk(plan: Plan, disk: Disk, grown: Disk, at: Cursor, n: nat)
    requires Apart(plan) && D.InBounds(plan.files, at) && DiskAt(plan, disk, at) && plan.IsFile(at.file)
    requires 0 < n <= |Content(plan.files[at.file])| - at.offset
    requires var k, next := at.file, at.offset + n;
             grown == disk.(files := disk.files[plan.dests[k] := Overlaid(Old(plan, k), Content(plan.files[k])[..next])])
    ensures D.InBounds(plan.files, Cursor(at.file, at.offset + n)) && DiskAt(plan, grown, Cursor(at.file, at.offset + n))
  {
    GrownFiles(plan, at, n);
  }

  lemma GrownTransfer(plan: Plan, t: Incoming, u: Incoming, at: Cursor, n: nat)
    requires Apart(plan) && D.InBounds(plan.files, at) && TransferAt(plan, t, at) && plan.IsFile(at.file)
    requires 0 < n <= |Content(plan.files[at.file])| - at.offset
    requires var k: U32 := at.file;
             u == Counted(t.(resolved := t.resolved[k := Some(plan.dests[k])], handles := t.handles + {k}), k, n)
    ensures TransferAt(plan, u, Cursor(at.file, at.offset + n))
  {
  }

  lemma GrownReceiver(plan: Plan, r: Receiver, after: Receiver, u: Incoming, at: Cursor, n: nat)
    requires Apart(plan) && PlacedTo(plan, r, at) && plan.IsFile(at.file)
    requires 0 < n <= |Content(plan.files[at.file])| - at.offset && IsGrown(plan, r, after, u, at, n)
    ensures PlacedTo(plan, after, Cursor(at.file, at.offset + n))
  {
    GrownDisk(plan, r.disk, after.disk, at, n);
    GrownTransfer(plan, r.transfers[plan.id], u, at, n);
  }

  lemma StoredBytes(plan: Plan, r: Receiver, at: Cursor, chunk: FileChunk) returns (after: Receiver, u: Incoming, n: nat)
    requires Apart(plan) && PlacedTo(plan, r, at) && NextChunk(plan, at, chunk) && Resolves(plan, at.file)
    requires chunk.index == at.file && plan.IsFile(at.file)
    ensures after == StoreChunk(r, r.transfers[plan.id], at.file, chunk, plan.dests[at.file], Intact(chunk).io)
    ensures n == |chunk.data| && 0 < n <= |Content(plan.files[at.file])| - at.offset && IsGrown(plan, r, after, u, at, n)
  {
    n := |chunk.data|;
    after, u := NextChunkIsStored(plan, r, at, chunk);
  }

  lemma NextChunkIsPlaced(plan: Plan, r: Receiver, at: Cursor, chunk: FileChunk) returns (after: Receiver, next: Cursor)
    requires Apart(plan) && PlacedTo(plan, r, at) && NextChunk(plan, at, chunk) && AllResolve(plan)
    ensures after == Step(r, Intact(chunk))
    ensures next == Cursor(at.file, at.offset + |chunk.data|) && PlacedTo(plan, after, next)
  {
    NextChunkGoesThrough(plan, r, at, chunk);
    assert Resolves(plan, at.file);
    var u, n;
    after, u, n := StoredBytes(plan, r, at, chunk);
    next := Cursor(at.file, at.offset + n);
    GrownReceiver(plan, r, after, u, at, n);
  }

  function Deliveries(chunks: seq<FileChunk>): seq<Event> {
    if chunks == [] then [] else [Intact(chunks[0])] + Deliveries(chunks[1..])
  }

  lemma DeliverOne(r: Receiver, chunks: seq<FileChunk>, after: Receiver)
    requires chunks != [] && after == Step(r, Intact(chunks[0]))
    ensures Run(r, Deliveries(chunks)) == Run(after, Deliveries(chunks[1..]))
  {
    assert Deliveries(chunks)[1..] == Deliveries(chunks[1..]);
  }

  lemma FollowOne(plan: Plan, at: Cursor, chunks: seq<FileChunk>) returns (chunk: FileChunk, now: Cursor, next: Cursor)
    requires chunks != [] && Follow(chunks, plan.id, plan.files, at).Some?
    ensures chunk == chunks[0] && now == Settle(plan.files, at) && NextChunk(plan, now, chunk)
    ensures next == Cursor(now.file, now.offset + |chunk.data|)
    ensures Follow(chunks, plan.id, plan.files, at) == Follow(chunks[1..], plan.id, plan.files, next)
  {
    chunk := chunks[0];
    now := Settle(plan.files, at);
    next := Cursor(now.file, now.offset + |chunk.data|);
  }

  /** The first chunk of a stream, and what is left of the stream after it. */
  lemma FirstChunkIsPlaced(plan: Plan, r: Receiver, at: Cursor, chunks: seq<FileChunk>)
      returns (after: Receiver, next: Cursor)
    requires Apart(plan) && PlacedTo(plan, r, at) && AllResolve(plan)
    requires chunks != [] && Follow(chunks, plan.id, plan.files, at).Some?
    ensures PlacedTo(plan, after, next)
    ensures Follow(chunks, plan.id, plan.files, at) == Follow(chunks[1..], plan.id, plan.files, next)
    ensures Run(r, Deliveries(chunks)) == Run(after, Deliveries(chunks[1..]))
  {
    SettlingKeepsPlaced(plan, r, at);
    var chunk, now;
    chunk, now, next := FollowOne(plan, at, chunks);
    after, next := NextChunkIsPlaced(plan, r, now, chunk);
    DeliverOne(r, chunks, after);
  }

  /** A stream takes every file to its place. */
  lemma {:induction false} StreamIsPlaced(plan: Plan, r: Receiver, at: Cursor, chunks: seq<FileChunk>, end: Cursor)
    requires Apart(plan) && PlacedTo(plan, r, at) && AllResolve(plan)
    requires Follow(chunks, plan.id, plan.files, at) == Some(end)
    ensures PlacedTo(plan, Run(r, Deliveries(chunks)), end)
    decreases chunks
  {
    if chunks == [] {
      SettlingKeepsPlaced(plan, r, at);
    } else {
      var after, next := FirstChunkIsPlaced(plan, r, at, chunks);
      StreamIsPlaced(plan, after, next, chunks[1..], end);
    }
  }
}
