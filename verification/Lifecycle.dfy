/** The states a transfer goes through, and what chunks and reports add to its numbers
    (crates/ud-engine/src/engine.rs:718-728, 985-994, 1040-1051, 1936-2075 and 2176-2232). */
module Lifecycle {
  import opened Wrappers
  import opened Codec
  import opened Paths
  import opened Transfer

  function StateOf(r: Receiver, id: U64): Option<TransferState> {
    if id in r.transfers then Some(r.transfers[id].state) else None
  }

  /** The file system, or the path offered, gets in the way of a chunk. */
  predicate Stumbles(r: Receiver, chunk: FileChunk, io: Io) {
    Target(r, chunk).Some? && !Goes(r, r.transfers[chunk.transfer], Target(r, chunk).value, chunk, io)
  }

  /** A chunk finds its place, the file there opens, and all of it is written. */
  predicate Goes(r: Receiver, t: Incoming, position: nat, chunk: FileChunk, io: Io)
    requires WellSized(t) && position < |t.entries|
  {
    var located := Locate(r.disk, t, position, r.overwrite, io);
    && located.Ok? && io.wrote >= |chunk.data|
    && (chunk.index in t.handles || located.value.0 == [] || OpenFile(located.value.1, located.value.0, io.open).Ok?)
  }

  /** The state of a transfer after an event: it begins pending, becomes active by being accepted, fails when the file
      system refuses a chunk or the session is lost under way, is over as the sender says or when either side
      cancels, and goes when the finished ones are cleared. Nothing else changes it. */
  lemma StateAfter(r: Receiver, e: Event, id: U64)
    ensures StateOf(Step(r, e), id)
         == match e
            case Offered(i, _, _) => if i == id then Some(Pending) else StateOf(r, id)
            case Accepted(i, _) =>
              if i == id && StateOf(r, id) == Some(Pending) && WellSized(r.transfers[id]) then Some(Active) else StateOf(r, id)
            case ChunkArrived(chunk, io) => if chunk.transfer == id && Stumbles(r, chunk, io) then Some(Failed) else StateOf(r, id)
            case ProgressReported(_, _, _) => StateOf(r, id)
            case Finished(i, failed) =>
              if i == id && id in r.transfers then Some(if failed then Failed else Completed) else StateOf(r, id)
            case CancelRequested(i) => if i == id && id in r.transfers then Some(Cancelled) else StateOf(r, id)
            case SessionLost(ids) => if id in ids && StateOf(r, id) == Some(Active) then Some(Failed) else StateOf(r, id)
            case ClearFinished =>
              if id in r.transfers && (r.transfers[id].state.Pending? || r.transfers[id].state.Active?) then StateOf(r, id) else None
  {
    match e
    case ChunkArrived(chunk, io) => ChunkState(r, chunk, io, id);
    case _ =>
  }

  lemma StoredState(r: Receiver, t: Incoming, position: nat, chunk: FileChunk, path: Path, io: Io)
    requires WellSized(t) && position < |t.entries| && t.state.Active?
    ensures var after := StoreChunk(r, t, position, chunk, path, io);
            && chunk.transfer in after.transfers
            && (forall id :: id != chunk.transfer ==> StateOf(after, id) == StateOf(r, id))
            && after.transfers[chunk.transfer].state
               == if io.wrote >= |chunk.data| && (chunk.index in t.handles || path == [] || OpenFile(r.disk, path, io.open).Ok?)
                  then Active else Failed
  {
  }

  lemma ChunkState(r: Receiver, chunk: FileChunk, io: Io, id: U64)
    ensures StateOf(OnChunk(r, chunk, io), id)
         == if chunk.transfer == id && Stumbles(r, chunk, io) then Some(Failed) else StateOf(r, id)
  {
    if Target(r, chunk).Some? {
      var t, position := r.transfers[chunk.transfer], Target(r, chunk).value;
      var located := Locate(r.disk, t, position, r.overwrite, io);
      if located.Ok? {
        var (path, made) := located.value;
        StoredState(r.(disk := made), t, position, chunk, path, io);
      }
    }
  }

  /** A transfer becomes active only by being accepted while pending: over any run, one that is not active and not
      offered anew has an acceptance behind it. */
  lemma {:induction false} ActiveMeansAccepted(r: Receiver, events: seq<Event>, id: U64) returns (at: nat)
    requires StateOf(r, id) != Some(Active) && StateOf(Run(r, events), id) == Some(Active)
    ensures at < |events| && events[at].Accepted? && events[at].id == id
    ensures StateOf(Run(r, events[..at]), id) == Some(Pending)
    decreases events
  {
    StateAfter(r, events[0], id);
    if StateOf(Step(r, events[0]), id) == Some(Active) {
      at := 0;
      assert events[..0] == [];
    } else {
      var rest := ActiveMeansAccepted(Step(r, events[0]), events[1..], id);
      at := rest + 1;
      assert events[..at][0] == events[0] && events[..at][1..] == events[1..][..rest];
    }
  }

  // ---- Numbers ----

  /** A chunk that is written adds its length, to its file and to the whole. */
  lemma ChunkAddsItsLength(r: Receiver, chunk: FileChunk, io: Io)
    requires Target(r, chunk).Some? && !Stumbles(r, chunk, io)
    ensures var t, position := r.transfers[chunk.transfer], Target(r, chunk).value;
            var after := OnChunk(r, chunk, io);
            && chunk.transfer in after.transfers
            && var u := after.transfers[chunk.transfer];
               && u.written == t.written[position := SaturatingAdd(t.written[position], |chunk.data|)]
               && u.doneBytes == SaturatingAdd(t.doneBytes, |chunk.data|)
  {
    var t, position := r.transfers[chunk.transfer], Target(r, chunk).value;
    var (path, made) := Locate(r.disk, t, position, r.overwrite, io).value;
    StoredNumbers(r.(disk := made), t, position, chunk, path, io);
  }

  lemma StoredNumbers(r: Receiver, t: Incoming, position: nat, chunk: FileChunk, path: Path, io: Io)
    requires WellSized(t) && position < |t.entries| && io.wrote >= |chunk.data|
    requires chunk.index in t.handles || path == [] || OpenFile(r.disk, path, io.open).Ok?
    ensures var after := StoreChunk(r, t, position, chunk, path, io);
            && chunk.transfer in after.transfers
            && var u := after.transfers[chunk.transfer];
               && u.written == t.written[position := SaturatingAdd(t.written[position], |chunk.data|)]
               && u.doneBytes == SaturatingAdd(t.doneBytes, |chunk.data|)
  {
  }

  /** A report is taken at its word for its file, and the whole follows, up to the width of the counter. */
  lemma ReportIsTaken(r: Receiver, id: U64, index: U32, bytesDone: U64)
    requires id in r.transfers && WellSized(r.transfers[id]) && PositionOf(r.transfers[id].entries, index).Some?
    ensures var t, position := r.transfers[id], PositionOf(r.transfers[id].entries, index).value;
            var u := Step(r, ProgressReported(id, index, bytesDone)).transfers[id];
            && u.written == t.written[position := bytesDone]
            && (t.written[position] <= t.doneBytes && t.doneBytes - t.written[position] + bytesDone <= U64_MAX ==>
                  u.doneBytes + t.written[position] == t.doneBytes + bytesDone)
  {
  }

  /** A transfer that is over without a byte counted is shown as whole. */
  lemma FinishedIsShownAsWhole(r: Receiver, id: U64, failed: bool)
    requires id in r.transfers
    ensures var u := Step(r, Finished(id, failed)).transfers[id];
            u.handles == {} && u.doneBytes == if r.transfers[id].doneBytes == 0 then r.transfers[id].totalBytes else r.transfers[id].doneBytes
  {
  }

  /** An offer promises the sum of its sizes, and starts with nothing done and nowhere to put it. */
  lemma OfferStartsWithNothing(r: Receiver, id: U64, entries: seq<FileEntry>, root: Path)
    ensures var t := Step(r, Offered(id, entries, root)).transfers[id];
            && t.entries == entries && t.root == root && t.totalBytes == TotalSize(entries) && t.doneBytes == 0
            && t.handles == {} && |t.written| == |t.resolved| == |entries|
            && forall k :: 0 <= k < |entries| ==> t.written[k] == 0 && t.resolved[k].None?
  {
  }

  /** Byte for byte what a write leaves: the data where it goes, what was there elsewhere, and zeros in between. */
  lemma WrittenByteForByte(content: Bytes, offset: nat, data: Bytes, i: nat)
    requires data != []
    ensures var after := WriteAt(content, offset, data);
            && |after| == (if |content| < offset + |data| then offset + |data| else |content|)
            && (i < |after| ==>
                  after[i] == if offset <= i < offset + |data| then data[i - offset] else if i < |content| then content[i] else 0)
  {
  }

  /** The total counts each entry once, at its size. */
  lemma {:induction false} EachSizeCountsOnce(entries: seq<FileEntry>, k: nat)
    requires k < |entries|
    ensures TotalSize(entries) == TotalSize(entries[..k]) + entries[k].size + TotalSize(entries[k + 1..])
  {
    if k > 0 {
      EachSizeCountsOnce(entries[1..], k - 1);
      assert entries[..k][1..] == entries[1..][..k - 1] && entries[k + 1..] == entries[1..][k..];
    }
  }
}
