/** The encrypted session pipeline (crates/ud-net/src/session.rs, crates/ud-net/src/codec.rs):
    two queues, one writer with a running nonce, a byte stream, one reader with its own nonce.

    Encryption and JSON are parameters. `Authentic` says what sealing has to give: section 5.1 of
    the Noise Protocol Framework (EncryptAd, DecryptAd) with its 16-byte tag. `Faithful` says that
    JSON loses nothing. */
module Session {
  import opened Wrappers
  import opened Codec

  const TAG_LEN := 16
  const URGENT_QUEUE := 2048
  const NORMAL_QUEUE := 256
  const NONCES := 0x1_0000_0000_0000_0000

  /** A running 64-bit counter, which wraps. */
  type Nonce = U64

  const INNER_MESSAGE: Byte := 0
  const INNER_CHUNK: Byte := 1

  datatype Crypto = Crypto(seal: (Nonce, Bytes) -> Bytes, open: (Nonce, Bytes) -> Option<Bytes>)

  ghost predicate Authentic(crypto: Crypto) {
    && (forall nonce: Nonce, plain: Bytes :: |crypto.seal(nonce, plain)| == |plain| + TAG_LEN)
    && (forall nonce: Nonce, plain: Bytes :: crypto.open(nonce, crypto.seal(nonce, plain)) == Some(plain))
    && (forall nonce: Nonce, other: Nonce, plain: Bytes ::
          nonce != other ==> crypto.open(other, crypto.seal(nonce, plain)) == None)
  }

  datatype Json<!M> = Json(encode: M -> Bytes, decode: Bytes -> Option<M>)

  ghost predicate Faithful<M(!new)>(json: Json<M>) {
    forall message: M :: json.decode(json.encode(message)) == Some(message)
  }

  datatype Keys<!M> = Keys(json: Json<M>, crypto: Crypto)

  ghost predicate Usable<M(!new)>(keys: Keys<M>) {
    Authentic(keys.crypto) && Faithful(keys.json)
  }

  /** Sixteen bytes in front that spell out the nonce: nothing secret, but all that is assumed. */
  function Label(nonce: Nonce): (spelt: Bytes)
    ensures |spelt| == TAG_LEN
  {
    ToLe(nonce, TAG_LEN)
  }

  lemma LabelsDiffer(nonce: Nonce, other: Nonce)
    requires nonce != other
    ensures Label(nonce) != Label(other)
  {
    assert Pow256(TAG_LEN) >= Pow256(8) by { Widths(); }
    Widths();
    FromLeOfToLe(nonce, TAG_LEN);
    FromLeOfToLe(other, TAG_LEN);
  }

  /** The assumptions can be met, for messages that are bytes already. */
  lemma AssumptionsCanBeMet() returns (keys: Keys<Bytes>)
    ensures Usable(keys)
  {
    var seal := (nonce: Nonce, plain: Bytes) => Label(nonce) + plain;
    var unseal := (nonce: Nonce, record: Bytes) =>
      if |record| >= TAG_LEN && record[..TAG_LEN] == Label(nonce) then Some(record[TAG_LEN..]) else None;
    keys := Keys(Json((message: Bytes) => message, (text: Bytes) => Some(text)), Crypto(seal, unseal));
    forall nonce: Nonce, other: Nonce, plain: Bytes
      ensures unseal(nonce, seal(nonce, plain)) == Some(plain)
      ensures nonce != other ==> unseal(other, seal(nonce, plain)) == None
    {
      assert (Label(nonce) + plain)[..TAG_LEN] == Label(nonce);
      assert (Label(nonce) + plain)[TAG_LEN..] == plain;
      if nonce != other { LabelsDiffer(nonce, other); }
    }
  }

  datatype Item<+M> = Message(message: M) | Chunk(chunk: FileChunk)

  // ---- One item to one record and back ----

  function InnerBytes<M>(json: Json<M>, item: Item<M>): Option<Bytes> {
    match item
    case Message(message) =>
      var text := json.encode(message);
      if |text| + 1 > MAX_RECORD then None else Some([INNER_MESSAGE] + text)
    case Chunk(chunk) => Some([INNER_CHUNK] + ChunkBytes(chunk))
  }

  method EncodeInner<M>(json: Json<M>, item: Item<M>) returns (out: Option<Bytes>)
    ensures out == InnerBytes(json, item)
  {
    var buffer: Bytes := [];
    match item {
      case Message(message) =>
        buffer := [INNER_MESSAGE];
        var text := json.encode(message);
        if |text| + 1 > MAX_RECORD {
          return None;
        }
        buffer := buffer + text;
      case Chunk(chunk) =>
        buffer := [INNER_CHUNK];
        var bytes := EncodeChunk(chunk);
        buffer := buffer + bytes;
    }
    return Some(buffer);
  }

  function DecodeInner<M>(json: Json<M>, plain: Bytes): Option<Item<M>> {
    if plain == [] then None
    else if plain[0] == INNER_MESSAGE then
      match json.decode(plain[1..])
      case Some(message) => Some(Message(message))
      case None => None
    else if plain[0] == INNER_CHUNK then
      match DecodeChunk(plain[1..])
      case Ok(chunk) => Some(Chunk(chunk))
      case Err(_) => None
    else None
  }

  /** Encodes and seals an item. Sealing refuses what would not fit a Noise message with its tag. */
  function Transmit<M>(keys: Keys<M>, nonce: Nonce, item: Item<M>): Option<Bytes> {
    match InnerBytes(keys.json, item)
    case None => None
    case Some(plain) => if |plain| + TAG_LEN > MAX_RECORD then None else Some(keys.crypto.seal(nonce, plain))
  }

  function OpenRecord<M>(keys: Keys<M>, nonce: Nonce, record: Bytes): Option<Item<M>> {
    match keys.crypto.open(nonce, record)
    case None => None
    case Some(plain) => DecodeInner(keys.json, plain)
  }

  /** A transmitted item opens to itself under the nonce it was sealed with, and to nothing under
      any other. */
  lemma RecordRoundTrip<M(!new)>(keys: Keys<M>, nonce: Nonce, item: Item<M>, other: Nonce)
    requires Usable(keys) && Transmit(keys, nonce, item).Some?
    ensures var record := Transmit(keys, nonce, item).value;
            && |record| <= MAX_RECORD
            && OpenRecord(keys, nonce, record) == Some(item)
            && (other != nonce ==> OpenRecord(keys, other, record) == None)
  {
    var plain := InnerBytes(keys.json, item).value;
    if item.Chunk? {
      assert plain[1..] == ChunkBytes(item.chunk) + [];
      ChunkRoundTrip(item.chunk, []);
    } else {
      assert plain[1..] == keys.json.encode(item.message);
    }
  }

  /** A chunk of the size files are read in always fits a record, headers and tag included. */
  lemma ChunkFits<M(!new)>(keys: Keys<M>, nonce: Nonce, chunk: FileChunk)
    requires Authentic(keys.crypto) && |chunk.data| <= CHUNK_BYTES
    ensures Transmit(keys, nonce, Chunk(chunk)).Some?
    ensures |Frame(Transmit(keys, nonce, Chunk(chunk)).value)| == 4 + TAG_LEN + 1 + HEADER_LEN + |chunk.data|
  {
  }

  /** The encoder checks a message against the record limit without the tag: what it accepts is
      still refused by sealing exactly when the last 16 bytes of the limit are used. */
  lemma MessagesAcceptedButNotSent<M>(keys: Keys<M>, nonce: Nonce, message: M)
    ensures InnerBytes(keys.json, Message(message)).Some? && Transmit(keys, nonce, Message(message)).None?
       <==> MAX_RECORD - TAG_LEN < |keys.json.encode(message)| + 1 <= MAX_RECORD
  {
  }

  // ---- The writer ----

  datatype Lane = Urgent | Normal

  /** The writer task and what feeds it. `holding` is an item taken off its queue and not yet on the
      wire. `accepted` and `written` are the history of what entered the queues and the wire. */
  datatype Writer<+M> = Writer(
    urgent: seq<Item<M>>, normal: seq<Item<M>>, holding: Option<(Lane, Item<M>)>,
    nonce: Nonce, wire: Bytes, cancelled: bool, stopped: bool,
    accepted: seq<(Lane, Item<M>)>, written: seq<(Lane, Item<M>)>)

  datatype Action<+M> =
    | Queue(lane: Lane, item: Item<M>) // offered to a queue; refused, or kept waiting, when it is full
    | Take                             // the biased select of the writer loop
    | Put(delivered: bool)             // encode, seal and write; the write may fail part way
    | Cancel

  function Fresh<M>(): Writer<M> {
    Writer([], [], None, 0, [], false, false, [], [])
  }

  function Advance(nonce: Nonce, count: nat): Nonce {
    (nonce + count) % NONCES
  }

  /** A queue takes an item while it has room and the writer is there to serve it. */
  function Queuing<M>(w: Writer<M>, lane: Lane, item: Item<M>): Writer<M> {
    if w.stopped then w
    else if lane.Urgent? then
      if |w.urgent| < URGENT_QUEUE then w.(urgent := w.urgent + [item], accepted := w.accepted + [(lane, item)]) else w
    else
      if |w.normal| < NORMAL_QUEUE then w.(normal := w.normal + [item], accepted := w.accepted + [(lane, item)]) else w
  }

  function Taking<M>(w: Writer<M>): Writer<M> {
    if w.stopped || w.holding.Some? then w
    else if w.cancelled then w.(stopped := true)
    else if w.urgent != [] then w.(urgent := w.urgent[1..], holding := Some((Urgent, w.urgent[0])))
    else if w.normal != [] then w.(normal := w.normal[1..], holding := Some((Normal, w.normal[0])))
    else w
  }

  /** The item in hand goes out as `record`. */
  function Sent<M>(w: Writer<M>, record: Bytes, delivered: bool): Writer<M>
    requires w.holding.Some?
  {
    w.(nonce := Advance(w.nonce, 1), wire := w.wire + Frame(record), holding := None,
       stopped := !delivered, written := w.written + [w.holding.value])
  }

  function Putting<M>(keys: Keys<M>, w: Writer<M>, delivered: bool): Writer<M> {
    if w.stopped || w.holding.None? then w
    else
      var record := Transmit(keys, w.nonce, w.holding.value.1);
      if record.None? then w.(stopped := true) else Sent(w, record.value, delivered)
  }

  function Step<M>(keys: Keys<M>, w: Writer<M>, act: Action<M>): Writer<M> {
    match act
    case Queue(lane, item) => Queuing(w, lane, item)
    case Take => Taking(w)
    case Put(delivered) => Putting(keys, w, delivered)
    case Cancel => w.(cancelled := true)
  }

  function Run<M>(keys: Keys<M>, w: Writer<M>, acts: seq<Action<M>>): Writer<M>
    decreases acts
  {
    if acts == [] then w else Run(keys, Step(keys, w, acts[0]), acts[1..])
  }

  class SessionWriter<M> {
    const keys: Keys<M>
    var urgent: seq<Item<M>>
    var normal: seq<Item<M>>
    var holding: Option<(Lane, Item<M>)>
    var nonce: Nonce
    var wire: Bytes
    var cancelled: bool
    var stopped: bool
    ghost var accepted: seq<(Lane, Item<M>)>
    ghost var written: seq<(Lane, Item<M>)>

    ghost function View(): Writer<M>
      reads this
    {
      Writer(urgent, normal, holding, nonce, wire, cancelled, stopped, accepted, written)
    }

    constructor (keys: Keys<M>)
      ensures View() == Fresh() && this.keys == keys
    {
      this.keys := keys;
      urgent, normal, holding, nonce, wire := [], [], None, 0, [];
      cancelled, stopped, accepted, written := false, false, [], [];
    }

    /** Queues a latency critical item, never waiting for room. */
    method TrySendUrgent(item: Item<M>) returns (queued: bool)
      modifies this
      ensures View() == Step(keys, old(View()), Queue(Urgent, item))
      ensures queued <==> !old(stopped) && |old(urgent)| < URGENT_QUEUE
    {
      if stopped || |urgent| >= URGENT_QUEUE {
        return false;
      }
      urgent := urgent + [item];
      accepted := accepted + [(Urgent, item)];
      return true;
    }

    /** Queues an item with backpressure: without room the caller waits and tries again. */
    method TrySend(item: Item<M>) returns (queued: bool)
      modifies this
      ensures View() == Step(keys, old(View()), Queue(Normal, item))
      ensures queued <==> !old(stopped) && |old(normal)| < NORMAL_QUEUE
    {
      if stopped || |normal| >= NORMAL_QUEUE {
        return false;
      }
      normal := normal + [item];
      accepted := accepted + [(Normal, item)];
      return true;
    }

    /** The select at the head of the writer loop: cancellation first, then urgent, then normal. */
    method TakeNext()
      modifies this
      ensures View() == Step(keys, old(View()), Take)
    {
      if stopped || holding.Some? {
        return;
      }
      if cancelled {
        stopped := true;
      } else if urgent != [] {
        holding, urgent := Some((Urgent, urgent[0])), urgent[1..];
      } else if normal != [] {
        holding, normal := Some((Normal, normal[0])), normal[1..];
      }
    }

    /** The rest of the loop body. A write that fails has put some prefix of its frame on the
        stream, which is a stream cut short there: `wire` holds the whole frame either way. */
    method WriteHeld(delivered: bool)
      modifies this
      ensures View() == Step(keys, old(View()), Put(delivered))
    {
      if stopped || holding.None? {
        return;
      }
      var plain := EncodeInner(keys.json, holding.value.1);
      if plain.None? || |plain.value| + TAG_LEN > MAX_RECORD {
        stopped := true;
        return;
      }
      var record := keys.crypto.seal(nonce, plain.value);
      nonce := (nonce + 1) % NONCES;
      wire := wire + Frame(record);
      written := written + [holding.value];
      holding := None;
      stopped := !delivered;
    }

    /** The writer loop, interleaved with everything that happens to it. */
    method WriterLoop(acts: seq<Action<M>>)
      modifies this
      ensures View() == Run(keys, old(View()), acts)
    {
      for i := 0 to |acts|
        invariant Run(keys, View(), acts[i..]) == Run(keys, old(View()), acts)
      {
        assert acts[i..][1..] == acts[i + 1..];
        match acts[i] {
          case Queue(lane, item) =>
            if lane.Urgent? {
              var _ := TrySendUrgent(item);
            } else {
              var _ := TrySend(item);
            }
          case Take => TakeNext();
          case Put(delivered) => WriteHeld(delivered);
          case Cancel => cancelled := true;
        }
      }
      assert acts[|acts|..] == [];
    }
  }

  // ---- What the writer puts on the wire ----

  function OfLane<M>(tagged: seq<(Lane, Item<M>)>, lane: Lane): seq<Item<M>> {
    if tagged == [] then []
    else (if tagged[0].0 == lane then [tagged[0].1] else []) + OfLane(tagged[1..], lane)
  }

  function Items<M>(tagged: seq<(Lane, Item<M>)>): seq<Item<M>> {
    seq(|tagged|, i requires 0 <= i < |tagged| => tagged[i].1)
  }

  /** The records of a list of items sealed with consecutive nonces. */
  function Sealed<M>(keys: Keys<M>, items: seq<Item<M>>, nonce: Nonce): (records: seq<Bytes>)
    ensures |records| <= |items|
  {
    if items == [] then []
    else
      match Transmit(keys, nonce, items[0])
      case None => []
      case Some(record) => [record] + Sealed(keys, items[1..], Advance(nonce, 1))
  }

  function Queued<M>(w: Writer<M>, lane: Lane): seq<Item<M>> {
    if lane.Urgent? then w.urgent else w.normal
  }

  function Held<M>(w: Writer<M>, lane: Lane): seq<Item<M>> {
    if w.holding.Some? && w.holding.value.0 == lane then [w.holding.value.1] else []
  }

  /** Nothing is lost, repeated or reordered within a lane on its way from queue to wire. */
  predicate LaneConserved<M(==)>(w: Writer<M>, lane: Lane) {
    OfLane(w.accepted, lane) == OfLane(w.written, lane) + Held(w, lane) + Queued(w, lane)
  }

  predicate WireIsSealed<M>(keys: Keys<M>, w: Writer<M>) {
    && |Sealed(keys, Items(w.written), 0)| == |w.written|
    && w.wire == Frames(Sealed(keys, Items(w.written), 0))
    && w.nonce == Advance(0, |w.written|)
  }

  predicate Inv<M(==)>(keys: Keys<M>, w: Writer<M>) {
    LaneConserved(w, Urgent) && LaneConserved(w, Normal) && WireIsSealed(keys, w)
  }

  lemma {:induction false} OfLaneOfAppend<M>(tagged: seq<(Lane, Item<M>)>, last: (Lane, Item<M>), lane: Lane)
    ensures OfLane(tagged + [last], lane)
         == OfLane(tagged, lane) + if last.0 == lane then [last.1] else []
  {
    if tagged == [] {
      assert tagged + [last] == [last];
      assert OfLane([last][1..], lane) == [];
    } else {
      assert (tagged + [last])[1..] == tagged[1..] + [last];
      OfLaneOfAppend(tagged[1..], last, lane);
      var first := if tagged[0].0 == lane then [tagged[0].1] else [];
      Regrouped(first, OfLane(tagged[1..], lane), if last.0 == lane then [last.1] else []);
    }
  }

  lemma {:induction false} SealedOfAppend<M>(keys: Keys<M>, items: seq<Item<M>>, last: Item<M>, nonce: Nonce)
    requires |Sealed(keys, items, nonce)| == |items|
    requires Transmit(keys, Advance(nonce, |items|), last).Some?
    ensures Sealed(keys, items + [last], nonce)
         == Sealed(keys, items, nonce) + [Transmit(keys, Advance(nonce, |items|), last).value]
  {
    if items == [] {
      assert items + [last] == [last];
      assert [last][1..] == [];
    } else {
      assert (items + [last])[1..] == items[1..] + [last];
      assert Advance(Advance(nonce, 1), |items[1..]|) == Advance(nonce, |items|);
      SealedOfAppend(keys, items[1..], last, Advance(nonce, 1));
      var first := Transmit(keys, nonce, items[0]);
      assert Sealed(keys, items + [last], nonce) == [first.value] + Sealed(keys, items[1..] + [last], Advance(nonce, 1));
    }
  }

  lemma FramesOfOneMore<M>(keys: Keys<M>, items: seq<Item<M>>, last: Item<M>, record: Bytes)
    requires |Sealed(keys, items, 0)| == |items| && Transmit(keys, Advance(0, |items|), last) == Some(record)
    ensures |Sealed(keys, items + [last], 0)| == |items| + 1
    ensures Frames(Sealed(keys, items + [last], 0)) == Frames(Sealed(keys, items, 0)) + Frame(record)
  {
    SealedOfAppend(keys, items, last, 0);
    FramesOfAppend(Sealed(keys, items, 0), [record]);
    assert Frames([record]) == Frame(record) by { assert [record][1..] == []; }
  }

  lemma SentKeepsWireSealed<M>(keys: Keys<M>, w: Writer<M>, record: Bytes, delivered: bool)
    requires WireIsSealed(keys, w) && w.holding.Some?
    requires Transmit(keys, w.nonce, w.holding.value.1) == Some(record)
    ensures WireIsSealed(keys, Sent(w, record, delivered))
  {
    var held := w.holding.value;
    ItemsOfAppend(w.written, held);
    NonceOfOneMore(|w.written|);
    FramesOfOneMore(keys, Items(w.written), held.1, record);
  }

  lemma NonceOfOneMore(count: nat)
    ensures Advance(Advance(0, count), 1) == Advance(0, count + 1)
  {
  }

  lemma ItemsOfAppend<M>(tagged: seq<(Lane, Item<M>)>, last: (Lane, Item<M>))
    ensures Items(tagged + [last]) == Items(tagged) + [last.1] && |Items(tagged)| == |tagged|
  {
  }

  lemma SentKeepsLane<M>(w: Writer<M>, record: Bytes, delivered: bool, lane: Lane)
    requires LaneConserved(w, lane) && w.holding.Some?
    ensures LaneConserved(Sent(w, record, delivered), lane)
  {
    var after := Sent(w, record, delivered);
    OfLaneOfAppend(w.written, w.holding.value, lane);
    assert OfLane(after.written, lane) == OfLane(w.written, lane) + Held(w, lane);
    assert Held(after, lane) == [] && Queued(after, lane) == Queued(w, lane);
  }

  lemma QueuingKeepsLane<M>(w: Writer<M>, to: Lane, item: Item<M>, lane: Lane)
    requires LaneConserved(w, lane)
    ensures LaneConserved(Queuing(w, to, item), lane)
  {
    OfLaneOfAppend(w.accepted, (to, item), lane);
    var added := if to == lane then [item] else [];
    var written, held, queued := OfLane(w.written, lane), Held(w, lane), Queued(w, lane);
    assert (written + held + queued) + added == written + held + (queued + added);
  }

  /** Taking moves the head of one queue into hand, and only if nothing was there. */
  lemma TakingMovesOneItem<M>(w: Writer<M>, lane: Lane)
    ensures var after := Taking(w);
            after.accepted == w.accepted && after.written == w.written
            && Held(after, lane) + Queued(after, lane) == Held(w, lane) + Queued(w, lane)
  {
    if w.holding.None? && !w.stopped && !w.cancelled {
      if w.urgent != [] {
        assert w.urgent == [w.urgent[0]] + w.urgent[1..];
      } else if w.normal != [] {
        assert w.normal == [w.normal[0]] + w.normal[1..];
      }
    }
  }

  lemma TakingKeepsLane<M>(w: Writer<M>, lane: Lane)
    requires LaneConserved(w, lane)
    ensures LaneConserved(Taking(w), lane)
  {
    TakingMovesOneItem(w, lane);
    var after, written := Taking(w), OfLane(w.written, lane);
    Regrouped(written, Held(w, lane), Queued(w, lane));
    Regrouped(written, Held(after, lane), Queued(after, lane));
  }

  lemma Regrouped<T>(a: seq<T>, b: seq<T>, c: seq<T>)
    ensures a + b + c == a + (b + c)
  {
  }

  lemma StepKeepsLane<M>(keys: Keys<M>, w: Writer<M>, act: Action<M>, lane: Lane)
    requires LaneConserved(w, lane)
    ensures LaneConserved(Step(keys, w, act), lane)
  {
    match act
    case Queue(to, item) => QueuingKeepsLane(w, to, item, lane);
    case Take => TakingKeepsLane(w, lane);
    case Put(delivered) =>
      if w.holding.Some? {
        var record := Transmit(keys, w.nonce, w.holding.value.1);
        if record.Some? { SentKeepsLane(w, record.value, delivered, lane); }
      }
    case Cancel =>
  }

  lemma StepKeepsInv<M>(keys: Keys<M>, w: Writer<M>, act: Action<M>)
    requires Inv(keys, w)
    ensures Inv(keys, Step(keys, w, act))
  {
    StepKeepsLane(keys, w, act, Urgent);
    StepKeepsLane(keys, w, act, Normal);
    StepKeepsWireSealed(keys, w, act);
  }

  lemma StepKeepsWireSealed<M>(keys: Keys<M>, w: Writer<M>, act: Action<M>)
    requires WireIsSealed(keys, w)
    ensures WireIsSealed(keys, Step(keys, w, act))
  {
    if act.Put? && w.holding.Some? {
      var record := Transmit(keys, w.nonce, w.holding.value.1);
      if record.Some? { SentKeepsWireSealed(keys, w, record.value, act.delivered); }
    }
  }

  lemma {:induction false} RunKeepsInv<M>(keys: Keys<M>, w: Writer<M>, acts: seq<Action<M>>)
    requires Inv(keys, w)
    ensures Inv(keys, Run(keys, w, acts))
    decreases acts
  {
    if acts != [] {
      StepKeepsInv(keys, w, acts[0]);
      RunKeepsInv(keys, Step(keys, w, acts[0]), acts[1..]);
    }
  }

  // ---- The reader ----

  /** What a reader makes of a list of records, stopping at the first it cannot open or decode. */
  function Decoded<M>(keys: Keys<M>, records: seq<Bytes>, nonce: Nonce): seq<Item<M>> {
    if records == [] then []
    else
      match OpenRecord(keys, nonce, records[0])
      case None => []
      case Some(item) => [item] + Decoded(keys, records[1..], Advance(nonce, 1))
  }

  /** The reader loop over however much of the stream arrives before it ends. */
  method ReaderLoop<M>(keys: Keys<M>, stream: Bytes) returns (delivered: seq<Item<M>>)
    ensures delivered == Decoded(keys, Records(stream), 0)
  {
    delivered := [];
    var nonce: Nonce, rest := 0, stream;
    while true
      invariant delivered + Decoded(keys, Records(rest), nonce) == Decoded(keys, Records(stream), 0)
      decreases |rest|
    {
      var read := TakeRecord(rest);
      if !read.Got? {
        break;
      }
      assert Records(rest)[1..] == Records(read.rest);
      var item := OpenRecord(keys, nonce, read.record);
      if item.None? {
        break;
      }
      nonce := (nonce + 1) % NONCES;
      delivered := delivered + [item.value];
      rest := read.rest;
    }
  }

  lemma {:induction false} SealedDecodes<M(!new)>(keys: Keys<M>, items: seq<Item<M>>, nonce: Nonce, k: nat)
    requires Usable(keys) && k <= |Sealed(keys, items, nonce)|
    ensures WithinLimit(Sealed(keys, items, nonce))
    ensures Decoded(keys, Sealed(keys, items, nonce)[..k], nonce) == items[..k]
  {
    if items != [] && Transmit(keys, nonce, items[0]).Some? {
      var tail := Sealed(keys, items[1..], Advance(nonce, 1));
      RecordRoundTrip(keys, nonce, items[0], nonce);
      SealedDecodes(keys, items[1..], Advance(nonce, 1), if k == 0 then 0 else k - 1);
      if k > 0 {
        TakeBehindTheFirst(Sealed(keys, items, nonce), k - 1);
        TakeBehindTheFirst(items, k - 1);
        assert Sealed(keys, items, nonce)[1..] == tail;
        DecodedCons(keys, Sealed(keys, items, nonce)[0], tail[..k - 1], nonce, items[0]);
      }
    }
  }

  lemma DecodedCons<M>(keys: Keys<M>, record: Bytes, more: seq<Bytes>, nonce: Nonce, item: Item<M>)
    requires OpenRecord(keys, nonce, record) == Some(item)
    ensures Decoded(keys, [record] + more, nonce) == [item] + Decoded(keys, more, Advance(nonce, 1))
  {
    assert ([record] + more)[1..] == more;
  }

  /** Session refinement. Whatever arrives on the two queues, whenever the writer runs, fails or is
      cancelled, and wherever the stream ends: the reader delivers exactly the written items whose
      records arrived in full, so a prefix of them; and what was written is an order-preserving
      merge of what the two queues accepted, short only of what is still on its way. */
  lemma SessionRefinement<M(!new)>(keys: Keys<M>, acts: seq<Action<M>>, n: nat)
    requires Usable(keys) && n <= |Run(keys, Fresh(), acts).wire|
    ensures var w := Run(keys, Fresh(), acts);
            var whole := WholeFrames(Sealed(keys, Items(w.written), 0), n);
            && whole <= |w.written|
            && Decoded(keys, Records(w.wire[..n]), 0) == Items(w.written)[..whole]
            && (n == |w.wire| ==> whole == |w.written|)
            && LaneConserved(w, Urgent) && LaneConserved(w, Normal)
  {
    RunKeepsInv(keys, Fresh(), acts);
    var w := Run(keys, Fresh(), acts);
    var records := Sealed(keys, Items(w.written), 0);
    SealedDecodes(keys, Items(w.written), 0, WholeFrames(records, n));
    StreamPrefixHoldsWholeRecords(records, n);
  }

  /** A record that is not where its nonce puts it, because one was lost, repeated or moved, is never
      delivered, nor is anything behind it. */
  lemma {:induction false} MisplacedRecordEndsTheSession<M>(
      keys: Keys<M>, records: seq<Bytes>, nonce: Nonce, at: nat, sealedWith: Nonce, plain: Bytes)
    requires Authentic(keys.crypto) && at < |records|
    requires records[at] == keys.crypto.seal(sealedWith, plain) && sealedWith != Advance(nonce, at)
    ensures |Decoded(keys, records, nonce)| <= at
  {
    if at > 0 && OpenRecord(keys, nonce, records[0]).Some? {
      assert Advance(Advance(nonce, 1), at - 1) == Advance(nonce, at);
      MisplacedRecordEndsTheSession(keys, records[1..], Advance(nonce, 1), at - 1, sealedWith, plain);
    }
  }

  // ---- Urgent items overtake bulk traffic ----

  function CountLane<M>(tagged: seq<(Lane, Item<M>)>, lane: Lane): nat {
    |OfLane(tagged, lane)|
  }

  lemma StepCounts<M>(keys: Keys<M>, w: Writer<M>, act: Action<M>, lane: Lane)
    ensures var after := Step(keys, w, act);
            CountLane(after.written, lane) == CountLane(w.written, lane)
              + if after.written != w.written && w.holding.value.0 == lane then 1 else 0
  {
    if act.Put? && w.holding.Some? { OfLaneOfAppend(w.written, w.holding.value, lane); }
  }

  lemma {:induction false} RunCountsGrow<M>(keys: Keys<M>, w: Writer<M>, acts: seq<Action<M>>, lane: Lane)
    ensures CountLane(w.written, lane) <= CountLane(Run(keys, w, acts).written, lane)
    decreases acts
  {
    if acts != [] {
      StepCounts(keys, w, acts[0], lane);
      RunCountsGrow(keys, Step(keys, w, acts[0]), acts[1..], lane);
    }
  }

  /** Urgent items ahead of the wire, the one in hand included. */
  function UrgentWaiting<M>(w: Writer<M>): nat {
    |Held(w, Urgent)| + |w.urgent|
  }

  /** Bounded overtaking. Take the urgent item in any place of the line. For as long as it has not
      been written, whatever is queued meanwhile, at most one normal item is: the one already in
      hand, if there was one. */
  lemma {:induction false} BoundedOvertaking<M>(keys: Keys<M>, w: Writer<M>, acts: seq<Action<M>>, place: nat)
    requires 0 < place <= UrgentWaiting(w)
    requires CountLane(Run(keys, w, acts).written, Urgent) < CountLane(w.written, Urgent) + place
    ensures CountLane(Run(keys, w, acts).written, Normal) <= CountLane(w.written, Normal) + |Held(w, Normal)| <=
            CountLane(w.written, Normal) + 1
    decreases acts
  {
    if acts != [] {
      var next := Step(keys, w, acts[0]);
      StepCounts(keys, w, acts[0], Urgent);
      StepCounts(keys, w, acts[0], Normal);
      RunCountsGrow(keys, next, acts[1..], Urgent);
      var wroteUrgent := CountLane(next.written, Urgent) - CountLane(w.written, Urgent);
      BoundedOvertaking(keys, next, acts[1..], place - wroteUrgent);
    }
  }
}
