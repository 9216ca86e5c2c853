/** What is queued is written: the writer gets through both queues as long as nothing stops it
    (crates/ud-net/src/session.rs:298-340). */
module Progress {
  import opened Wrappers
  import opened Codec
  import opened Session

  /** Items on their way to the wire: in hand, then urgent, then normal. */
  function Line<M>(w: Writer<M>): seq<(Lane, Item<M>)> {
    (if w.holding.Some? then [w.holding.value] else []) + Tagged(w.urgent, Urgent) + Tagged(w.normal, Normal)
  }

  function Tagged<M>(items: seq<Item<M>>, lane: Lane): seq<(Lane, Item<M>)> {
    seq(|items|, i requires 0 <= i < |items| => (lane, items[i]))
  }

  /** Whether an item can be sealed: it encodes within the limit, and leaves room for the tag. */
  predicate Sendable<M>(keys: Keys<M>, item: Item<M>) {
    InnerBytes(keys.json, item).Some? && |InnerBytes(keys.json, item).value| + TAG_LEN <= MAX_RECORD
  }

  predicate AllSendable<M>(keys: Keys<M>, line: seq<(Lane, Item<M>)>) {
    forall k :: 0 <= k < |line| ==> Sendable(keys, line[k].1)
  }

  predicate Running<M>(w: Writer<M>) {
    !w.stopped && !w.cancelled
  }

  lemma HeadOfTagged<M>(items: seq<Item<M>>, lane: Lane)
    requires items != []
    ensures Tagged(items, lane) == [(lane, items[0])] + Tagged(items[1..], lane)
  {
  }

  /** Taking up changes what is in hand, not what is in line. */
  lemma TakingKeepsTheLine<M>(keys: Keys<M>, w: Writer<M>)
    requires Running(w)
    ensures var after := Step(keys, w, Take);
            && Running(after) && Line(after) == Line(w) && after.written == w.written && after.accepted == w.accepted
            && (Line(w) != [] ==> after.holding.Some?)
  {
    if w.holding.None? {
      if w.urgent != [] { HeadOfTagged(w.urgent, Urgent); } else if w.normal != [] { HeadOfTagged(w.normal, Normal); }
    }
  }

  /** Writing takes the head of the line. */
  lemma PuttingWritesTheHead<M>(keys: Keys<M>, w: Writer<M>)
    requires Running(w) && w.holding.Some? && Sendable(keys, w.holding.value.1)
    ensures var after := Step(keys, w, Put(true));
            && Running(after) && after.holding.None? && after.accepted == w.accepted
            && Line(w) == [w.holding.value] + Line(after) && after.written == w.written + [w.holding.value]
  {
  }

  /** What the writer loop does of itself: `n` times over it writes what is in hand and takes the next item up,
      and then writes the last. */
  function Rounds<M>(n: nat): seq<Action<M>> {
    if n == 0 then [Put(true)] else [Put(true), Take] + Rounds(n - 1)
  }

  lemma BehindTheHead<M>(keys: Keys<M>, line: seq<(Lane, Item<M>)>, head: (Lane, Item<M>), rest: seq<(Lane, Item<M>)>)
    requires line == [head] + rest && AllSendable(keys, line)
    ensures AllSendable(keys, rest) && Sendable(keys, head.1)
  {
    assert forall k :: 0 <= k < |rest| ==> rest[k] == line[k + 1];
    assert line[0] == head;
  }

  lemma MovedOver<T>(done: seq<T>, head: T, rest: seq<T>)
    ensures (done + [head]) + rest == done + ([head] + rest)
  {
  }

  lemma LineHoldsTheHand<M>(w: Writer<M>) returns (rest: seq<(Lane, Item<M>)>)
    requires w.holding.Some?
    ensures Line(w) == [w.holding.value] + rest
  {
    rest := Tagged(w.urgent, Urgent) + Tagged(w.normal, Normal);
  }

  lemma PutFirst<M>(keys: Keys<M>, w: Writer<M>) returns (after: Writer<M>)
    requires Running(w) && AllSendable(keys, Line(w))
    ensures after == Step(keys, w, Put(true)) && Running(after) && after.holding.None? && after.accepted == w.accepted
    ensures AllSendable(keys, Line(after)) && after.written + Line(after) == w.written + Line(w)
    ensures |Line(after)| == |Line(w)| - if w.holding.Some? then 1 else 0
  {
    after := Step(keys, w, Put(true));
    if w.holding.Some? {
      var rest := LineHoldsTheHand(w);
      BehindTheHead(keys, Line(w), w.holding.value, rest);
      PuttingWritesTheHead(keys, w);
      BehindTheHead(keys, Line(w), w.holding.value, Line(after));
      MovedOver(w.written, w.holding.value, Line(after));
    }
  }

  /** So many rounds get everything in line onto the wire, in that order. */
  lemma {:induction false} RoundsWriteTheLine<M>(keys: Keys<M>, w: Writer<M>, n: nat)
    requires Running(w) && AllSendable(keys, Line(w)) && |Line(w)| <= n + if w.holding.Some? then 1 else 0
    ensures var end := Run(keys, w, Rounds(n));
            Running(end) && Line(end) == [] && end.written == w.written + Line(w) && end.accepted == w.accepted
    decreases n
  {
    var put := PutFirst(keys, w);
    if n == 0 {
      assert Rounds<M>(0)[1..] == [];
      assert put.written + [] == put.written;
    } else {
      TakingKeepsTheLine(keys, put);
      var next := Step(keys, put, Take);
      RunTwo(keys, w, Put(true), Take, Rounds(n - 1));
      RoundsWriteTheLine(keys, next, n - 1);
    }
  }

  lemma RunTwo<M>(keys: Keys<M>, w: Writer<M>, first: Action<M>, second: Action<M>, rest: seq<Action<M>>)
    ensures Run(keys, w, [first, second] + rest) == Run(keys, Step(keys, Step(keys, w, first), second), rest)
  {
    assert ([first, second] + rest)[1..] == [second] + rest;
    assert ([second] + rest)[1..] == rest;
  }

  lemma {:induction false} RunOn<M>(keys: Keys<M>, w: Writer<M>, acts: seq<Action<M>>, more: seq<Action<M>>)
    ensures Run(keys, w, acts + more) == Run(keys, Run(keys, w, acts), more)
    decreases acts
  {
    if acts == [] {
      assert acts + more == more;
    } else {
      assert (acts + more)[1..] == acts[1..] + more;
      RunOn(keys, Step(keys, w, acts[0]), acts[1..], more);
    }
  }

  lemma NothingInLine<M>(w: Writer<M>)
    requires Line(w) == []
    ensures w.holding.None? && w.urgent == [] && w.normal == []
  {
    assert |Line(w)| == (if w.holding.Some? then 1 else 0) + |w.urgent| + |w.normal|;
  }

  /** Whatever has happened so far: a writer that is neither stopped nor cancelled, and holds nothing that cannot be
      sent, writes everything it accepted; both queues and its hand are then empty, and what was accepted in each
      lane is what was written in it. */
  lemma EverythingAcceptedIsWritten<M>(keys: Keys<M>, acts: seq<Action<M>>)
    requires var w := Run(keys, Fresh(), acts); Running(w) && AllSendable(keys, Line(w))
    ensures var w := Run(keys, Fresh(), acts);
            var end := Run(keys, Fresh(), acts + Rounds(|Line(w)|));
            && end.holding.None? && end.urgent == [] && end.normal == [] && end.accepted == w.accepted
            && (forall lane :: OfLane(end.written, lane) == OfLane(end.accepted, lane))
  {
    var w := Run(keys, Fresh(), acts);
    RunOn(keys, Fresh(), acts, Rounds(|Line(w)|));
    RoundsWriteTheLine(keys, w, |Line(w)|);
    var end := Run(keys, w, Rounds(|Line(w)|));
    NothingInLine(end);
    RunKeepsInv(keys, Fresh(), acts + Rounds(|Line(w)|));
    forall lane ensures OfLane(end.written, lane) == OfLane(end.accepted, lane) {
      assert LaneConserved(end, lane);
      assert OfLane(end.written, lane) + [] + [] == OfLane(end.written, lane);
    }
  }

  function Room(lane: Lane): nat {
    if lane.Urgent? then URGENT_QUEUE else NORMAL_QUEUE
  }

  /** A queue accepts an item exactly if it has room and the writer is there; the other lane notices nothing. */
  lemma QueueAcceptsIff<M>(keys: Keys<M>, w: Writer<M>, lane: Lane, item: Item<M>, other: Lane)
    ensures OfLane(Step(keys, w, Queue(lane, item)).accepted, other)
         == OfLane(w.accepted, other)
            + if other == lane && !w.stopped && |Queued(w, lane)| < Room(lane) then [item] else []
  {
    OfLaneOfAppend(w.accepted, (lane, item), other);
  }

  /** A writer that is cancelled takes up nothing more: at most what it has in hand is written. */
  lemma {:induction false} CancelledTakesNothing<M>(keys: Keys<M>, w: Writer<M>, acts: seq<Action<M>>)
    requires w.cancelled
    ensures var end := Run(keys, w, acts);
            && end.cancelled
            && (end.written == w.written || (w.holding.Some? && end.written == w.written + [w.holding.value]))
    decreases acts
  {
    if acts != [] {
      CancelledTakesNothing(keys, Step(keys, w, acts[0]), acts[1..]);
    }
  }

  /** From the moment it is cancelled: whatever else is queued, and at its next turn it stops. */
  lemma CancellingEndsIt<M>(keys: Keys<M>, w: Writer<M>, acts: seq<Action<M>>)
    ensures var end := Run(keys, w, [Cancel] + acts);
            end.written == w.written || (w.holding.Some? && end.written == w.written + [w.holding.value])
    ensures Run(keys, w, [Cancel] + [Put(true), Take]).stopped
  {
    var cancelled := Step(keys, w, Cancel);
    assert ([Cancel] + acts)[1..] == acts;
    CancelledTakesNothing(keys, cancelled, acts);
    var turn: seq<Action<M>> := [Put(true), Take];
    assert ([Cancel] + turn)[1..] == turn + [];
    RunTwo(keys, cancelled, Put(true), Take, []);
  }

  /** Chunks of the size files are read in can always be sent, as can messages short enough. */
  lemma SendableIff<M(!new)>(keys: Keys<M>, item: Item<M>)
    requires Authentic(keys.crypto)
    ensures Sendable(keys, item)
       <==> match item
            case Chunk(chunk) => |chunk.data| <= MAX_RECORD - TAG_LEN - 1 - HEADER_LEN
            case Message(message) => |keys.json.encode(message)| <= MAX_RECORD - TAG_LEN - 1
    ensures forall nonce: Nonce :: Sendable(keys, item) <==> Transmit(keys, nonce, item).Some?
    ensures item.Chunk? && |item.chunk.data| <= CHUNK_BYTES ==> Sendable(keys, item)
  {
  }
}
