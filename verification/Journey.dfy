/** A file's whole journey: cut into chunks, queued, sealed, framed, read back and written down; Session.dfy
    and Delivery.dfy put together (crates/ud-net/src/session.rs:46-73 and 250-340,
    crates/ud-engine/src/engine.rs:2103-2193 and 2472-2538). */
module Journey {
  import opened Wrappers
  import opened Codec
  import opened Paths
  import opened Transfer
  import S = Session
  import D = Delivery
  import W = Progress

  function ChunksIn<M>(items: seq<S.Item<M>>): seq<FileChunk> {
    if items == [] then []
    else (if items[0].Chunk? then [items[0].chunk] else []) + ChunksIn(items[1..])
  }

  function Of(chunks: seq<FileChunk>, id: U64): seq<FileChunk> {
    if chunks == [] then []
    else (if chunks[0].transfer == id then [chunks[0]] else []) + Of(chunks[1..], id)
  }

  lemma {:induction false} ChunksInTwo<M>(items: seq<S.Item<M>>, more: seq<S.Item<M>>)
    ensures ChunksIn(items + more) == ChunksIn(items) + ChunksIn(more)
  {
    if items == [] {
      assert items + more == more;
    } else {
      assert (items + more)[1..] == items[1..] + more;
      ChunksInTwo(items[1..], more);
    }
  }

  /** Chunks are queued for the normal lane only. */
  predicate NoUrgentChunks<M>(tagged: seq<(S.Lane, S.Item<M>)>) {
    forall k :: 0 <= k < |S.OfLane(tagged, S.Urgent)| ==> !S.OfLane(tagged, S.Urgent)[k].Chunk?
  }

  lemma {:induction false} ChunksAreNormal<M>(tagged: seq<(S.Lane, S.Item<M>)>)
    requires NoUrgentChunks(tagged)
    ensures ChunksIn(S.Items(tagged)) == ChunksIn(S.OfLane(tagged, S.Normal))
  {
    if tagged != [] {
      var first, rest := tagged[0], tagged[1..];
      assert S.Items(tagged)[1..] == S.Items(rest) && S.Items(tagged)[0] == first.1;
      if first.0.Normal? {
        assert S.OfLane(tagged, S.Urgent) == S.OfLane(rest, S.Urgent);
        assert S.OfLane(tagged, S.Normal)[1..] == S.OfLane(rest, S.Normal);
      } else {
        assert S.OfLane(tagged, S.Urgent) == [first.1] + S.OfLane(rest, S.Urgent);
        assert S.OfLane(tagged, S.Urgent)[0] == first.1;
        assert S.OfLane(tagged, S.Normal) == S.OfLane(rest, S.Normal);
        forall k | 0 <= k < |S.OfLane(rest, S.Urgent)| ensures !S.OfLane(rest, S.Urgent)[k].Chunk? {
          assert S.OfLane(tagged, S.Urgent)[k + 1] == S.OfLane(rest, S.Urgent)[k];
        }
      }
      ChunksAreNormal(rest);
    }
  }

  lemma ChunksInPrefix<M>(items: seq<S.Item<M>>, k: nat)
    requires k <= |items|
    ensures ChunksIn(items[..k]) <= ChunksIn(items) && (k == |items| ==> ChunksIn(items[..k]) == ChunksIn(items))
  {
    assert items == items[..k] + items[k..];
    ChunksInTwo(items[..k], items[k..]);
  }

  lemma WrittenHasNoUrgentChunks<M>(w: S.Writer<M>)
    requires S.LaneConserved(w, S.Urgent) && NoUrgentChunks(w.accepted)
    ensures NoUrgentChunks(w.written)
  {
    var written := S.OfLane(w.written, S.Urgent);
    assert forall k :: 0 <= k < |written| ==> written[k] == S.OfLane(w.accepted, S.Urgent)[k];
  }

  lemma WrittenChunksAreTheFirstQueued<M>(w: S.Writer<M>)
    requires S.LaneConserved(w, S.Urgent) && S.LaneConserved(w, S.Normal) && NoUrgentChunks(w.accepted)
    ensures ChunksIn(S.Items(w.written)) <= ChunksIn(S.OfLane(w.accepted, S.Normal))
    ensures w.holding.None? && w.normal == [] ==> ChunksIn(S.Items(w.written)) == ChunksIn(S.OfLane(w.accepted, S.Normal))
  {
    WrittenHasNoUrgentChunks(w);
    ChunksAreNormal(w.written);
    var ahead := S.Held(w, S.Normal) + S.Queued(w, S.Normal);
    assert S.OfLane(w.accepted, S.Normal) == S.OfLane(w.written, S.Normal) + ahead;
    ChunksInTwo(S.OfLane(w.written, S.Normal), ahead);
  }

  /** The chunks a reader delivers are the first of those queued, in order: all of them once everything queued
      is written and the stream is whole. */
  lemma QueuedChunksArrive<M(!new)>(keys: S.Keys<M>, acts: seq<S.Action<M>>, n: nat)
    requires S.Usable(keys) && n <= |S.Run(keys, S.Fresh(), acts).wire|
    requires NoUrgentChunks(S.Run(keys, S.Fresh(), acts).accepted)
    ensures var w := S.Run(keys, S.Fresh(), acts);
            var delivered := ChunksIn(S.Decoded(keys, Records(w.wire[..n]), 0));
            var queued := ChunksIn(S.OfLane(w.accepted, S.Normal));
            && delivered <= queued
            && (n == |w.wire| && w.holding.None? && w.normal == [] ==> delivered == queued)
  {
    S.SessionRefinement(keys, acts, n);
    var w := S.Run(keys, S.Fresh(), acts);
    ChunksInPrefix(S.Items(w.written), WholeFrames(S.Sealed(keys, S.Items(w.written), 0), n));
    WrittenChunksAreTheFirstQueued(w);
  }

  /** End to end. Let the chunks that one transfer queued be the stream of its files, mixed in whatever way
      with messages and with the chunks of others; let all that was queued be written and the stream arrive
      whole; and let the receiving engine handle, among anything else that does not concern the transfer,
      the chunks of the transfer as its reader delivers them. Then every non-empty file is on the receiver's
      disk byte for byte. */
  lemma FilesSurviveTheWire<M(!new)>(
      keys: S.Keys<M>, acts: seq<S.Action<M>>,
      r: Receiver, before: map<Path, Bytes>, id: U64, files: seq<OutgoingFile>, events: seq<Event>)
    requires S.Usable(keys)
    requires var w := S.Run(keys, S.Fresh(), acts);
             && NoUrgentChunks(w.accepted) && w.holding.None? && w.normal == []
             && Streams(Of(ChunksIn(S.OfLane(w.accepted, S.Normal)), id), id, files)
             && D.ChunksFor(events, id) == Of(ChunksIn(S.Decoded(keys, Records(w.wire), 0)), id)
    requires OwnersInv(r, before) && AlwaysFindsRoom(r, events) && D.IsOffer(files)
    requires D.IsActive(r, id) && |r.transfers[id].entries| == |files|
    requires forall k :: 0 <= k < |files| ==> r.transfers[id].entries[k] == files[k].entry
    requires WellSized(r.transfers[id])
             && forall k :: 0 <= k < |files| && !files[k].entry.isDir ==> r.transfers[id].resolved[k].None?
    requires D.Undisturbed(events, id) && D.IsActive(Run(r, events), id)
    ensures var end := Run(r, events);
            && |end.transfers[id].resolved| == |files|
            && forall k :: 0 <= k < |files| && Content(files[k]) != [] ==>
                 var place := end.transfers[id].resolved[k];
                 && place.Some? && place.value in end.disk.files
                 && end.disk.files[place.value] == Content(files[k])
  {
    var w := S.Run(keys, S.Fresh(), acts);
    QueuedChunksArrive(keys, acts, |w.wire|);
    assert w.wire[..|w.wire|] == w.wire;
    D.FilesArriveAsSent(r, before, id, files, events);
  }

  /** The same from what was queued alone: let the writer run on as long as it takes, and the files arrive. All that
      is asked of it is that nobody closed the connection and that what is waiting can be sent at all. */
  lemma QueuedFilesArrive<M(!new)>(
      keys: S.Keys<M>, acts: seq<S.Action<M>>,
      r: Receiver, before: map<Path, Bytes>, id: U64, files: seq<OutgoingFile>, events: seq<Event>)
    requires S.Usable(keys)
    requires var w := S.Run(keys, S.Fresh(), acts);
             && W.Running(w) && W.AllSendable(keys, W.Line(w)) && NoUrgentChunks(w.accepted)
             && Streams(Of(ChunksIn(S.OfLane(w.accepted, S.Normal)), id), id, files)
             && D.ChunksFor(events, id)
                == Of(ChunksIn(S.Decoded(keys, Records(S.Run(keys, S.Fresh(), acts + W.Rounds(|W.Line(w)|)).wire), 0)), id)
    requires OwnersInv(r, before) && AlwaysFindsRoom(r, events) && D.IsOffer(files)
    requires D.IsActive(r, id) && |r.transfers[id].entries| == |files|
    requires forall k :: 0 <= k < |files| ==> r.transfers[id].entries[k] == files[k].entry
    requires WellSized(r.transfers[id])
             && forall k :: 0 <= k < |files| && !files[k].entry.isDir ==> r.transfers[id].resolved[k].None?
    requires D.Undisturbed(events, id) && D.IsActive(Run(r, events), id)
    ensures var end := Run(r, events);
            && |end.transfers[id].resolved| == |files|
            && forall k :: 0 <= k < |files| && Content(files[k]) != [] ==>
                 var place := end.transfers[id].resolved[k];
                 && place.Some? && place.value in end.disk.files
                 && end.disk.files[place.value] == Content(files[k])
  {
    var w := S.Run(keys, S.Fresh(), acts);
    W.EverythingAcceptedIsWritten(keys, acts);
    FilesSurviveTheWire(keys, acts + W.Rounds(|W.Line(w)|), r, before, id, files, events);
  }
}
