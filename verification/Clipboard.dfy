/** The clipboard worker: polling by digest, and not relaying back what it has just been given
    (crates/ud-clipboard/src/lib.rs:120-281). PNG and the hash are parameters. */
module Clipboard {
  import opened Wrappers
  import opened Codec

  datatype Payload =
    | Text(text: Bytes)
    | Image(width: U32, height: U32, png: Bytes)
    | Files(paths: seq<Bytes>)
    | Clear

  datatype Picture = Picture(width: U32, height: U32, rgba: Bytes)

  /** What the system clipboard holds; text is measured in bytes. */
  datatype Clip = Clip(text: Option<Bytes>, picture: Option<Picture>)

  const EMPTY := Clip(None, None)

  datatype Limits = Limits(text: bool, images: bool, maxBytes: nat)

  datatype Codecs = Codecs(
    hash: Bytes -> Bytes, encode: Picture -> Option<Bytes>, decode: Bytes -> Option<Picture>)

  /** No two inputs with the same digest. */
  ghost predicate CollisionFree(codecs: Codecs) {
    forall a: Bytes, b: Bytes :: codecs.hash(a) == codecs.hash(b) ==> a == b
  }

  /** A picture that could be encoded decodes to itself. */
  ghost predicate Lossless(codecs: Codecs) {
    forall picture: Picture :: codecs.encode(picture).Some? ==> codecs.decode(codecs.encode(picture).value) == Some(picture)
  }

  // ---- Reading, writing, comparing ----

  function PictureSnapshot(codecs: Codecs, clip: Clip, limits: Limits): Option<Payload> {
    if !limits.images || clip.picture.None? then None
    else
      var png := codecs.encode(clip.picture.value);
      if png.Some? && |png.value| <= limits.maxBytes
      then Some(Image(clip.picture.value.width, clip.picture.value.height, png.value))
      else None
  }

  /** What would be relayed: text first, a picture only where there is no text to relay. */
  function Snapshot(codecs: Codecs, clip: Clip, limits: Limits): Option<Payload> {
    if limits.text && clip.text.Some? && clip.text.value != [] && |clip.text.value| <= limits.maxBytes
    then Some(Text(clip.text.value))
    else PictureSnapshot(codecs, clip, limits)
  }

  /** The clipboard after a payload was written, unless it cannot be. */
  function Write(codecs: Codecs, clip: Clip, payload: Payload, writable: bool): Option<Clip> {
    match payload
    case Text(text) => if writable then Some(Clip(Some(text), None)) else None
    case Image(_, _, png) =>
      var picture := codecs.decode(png);
      if picture.Some? && writable then Some(Clip(None, picture)) else None
    case Clear => if writable then Some(EMPTY) else None
    case Files(_) => Some(clip)
  }

  function Terminated(paths: seq<Bytes>): Bytes {
    if paths == [] then [] else paths[0] + [0] + Terminated(paths[1..])
  }

  /** The bytes a payload is hashed as. */
  function Preimage(payload: Payload): Bytes {
    match payload
    case Text(text) => [0] + text
    case Image(width, height, png) => [1] + ToLe(width, 4) + ToLe(height, 4) + png
    case Files(paths) => [2] + Terminated(paths)
    case Clear => [3]
  }

  function Digest(codecs: Codecs, payload: Option<Payload>): Option<Bytes> {
    if payload.None? then None else Some(codecs.hash(Preimage(payload.value)))
  }

  lemma ImagePreimage(w: U32, h: U32, png: Bytes)
    ensures var p := Preimage(Image(w, h, png));
            |p| >= 9 && FromLe(p[1..5]) == w && FromLe(p[5..9]) == h && p[9..] == png
  {
    Widths();
    FromLeOfToLe(w, 4);
    FromLeOfToLe(h, 4);
    var p := Preimage(Image(w, h, png));
    assert p[1..5] == ToLe(w, 4) && p[5..9] == ToLe(h, 4);
  }

  /** A payload that can be on the clipboard has a digest of its own. */
  lemma DigestsDiffer(codecs: Codecs, seen: Payload, other: Option<Payload>)
    requires CollisionFree(codecs) && (seen.Text? || seen.Image?)
    ensures Digest(codecs, Some(seen)) == Digest(codecs, other) <==> other == Some(seen)
  {
    if Digest(codecs, Some(seen)) == Digest(codecs, other) {
      var p, q := Preimage(seen), Preimage(other.value);
      assert p == q && p[0] == q[0];
      if seen.Text? {
        assert p[1..] == seen.text && q[1..] == other.value.text;
      } else {
        ImagePreimage(seen.width, seen.height, seen.png);
        ImagePreimage(other.value.width, other.value.height, other.value.png);
      }
    }
  }

  /** Both assumptions can be met: pictures written out as they are, hashed as themselves. */
  lemma AssumptionsCanBeMet() returns (codecs: Codecs)
    ensures CollisionFree(codecs) && Lossless(codecs)
    ensures forall picture: Picture :: codecs.encode(picture).Some?
  {
    var encode := (picture: Picture) => Some(Preimage(Image(picture.width, picture.height, picture.rgba)));
    var decode := (png: Bytes) =>
      if |png| < 9 then None
      else Some(Picture(FromLe(png[1..5]) % 0x1_0000_0000, FromLe(png[5..9]) % 0x1_0000_0000, png[9..]));
    codecs := Codecs((bytes: Bytes) => bytes, encode, decode);
    forall picture: Picture ensures decode(encode(picture).value) == Some(picture) {
      ImagePreimage(picture.width, picture.height, picture.rgba);
    }
  }

  // ---- The worker ----

  datatype Command = Apply(payload: Payload, writable: bool) | SetLimits(limits: Limits) | Nothing

  /** `last` is the digest of what was last relayed or applied; `reported` is what was relayed. */
  datatype Worker = Worker(
    clip: Clip, limits: Limits, last: Option<Bytes>, nextPoll: nat, reported: seq<Payload>, errors: nat)

  datatype Event =
    | Copied(clip: Clip)
    | Turn(command: Command, meanwhile: Option<Clip>, now: nat)

  function Start(codecs: Codecs, clip: Clip, limits: Limits, firstPoll: nat): Worker {
    Worker(clip, limits, Digest(codecs, Snapshot(codecs, clip, limits)), firstPoll, [], 0)
  }

  function Obey(codecs: Codecs, w: Worker, command: Command): Worker {
    match command
    case Nothing => w
    case SetLimits(limits) => w.(limits := limits, last := Digest(codecs, Snapshot(codecs, w.clip, limits)))
    case Apply(payload, writable) =>
      match Write(codecs, w.clip, payload, writable)
      case None => w.(errors := w.errors + 1)
      case Some(clip) => w.(clip := clip, last := Digest(codecs, Some(payload)))
  }

  function Poll(codecs: Codecs, w: Worker, now: nat, interval: nat): Worker {
    if now < w.nextPoll then w
    else
      var current := Snapshot(codecs, w.clip, w.limits);
      w.(nextPoll := now + interval, last := Digest(codecs, current),
         reported := if Digest(codecs, current) != w.last && current.Some? then w.reported + [current.value] else w.reported)
  }

  function Copy(w: Worker, clip: Option<Clip>): Worker {
    if clip.Some? then w.(clip := clip.value) else w
  }

  function Step(codecs: Codecs, interval: nat, w: Worker, e: Event): Worker {
    match e
    case Copied(clip) => Copy(w, Some(clip))
    case Turn(command, meanwhile, now) => Poll(codecs, Copy(Obey(codecs, w, command), meanwhile), now, interval)
  }

  function Run(codecs: Codecs, interval: nat, w: Worker, events: seq<Event>): Worker
    decreases events
  {
    if events == [] then w else Run(codecs, interval, Step(codecs, interval, w, events[0]), events[1..])
  }

  /** The clipboard belongs to the system: anything may be copied into it between two steps. */
  class SystemClipboard {
    var clip: Clip

    constructor (clip: Clip)
      ensures this.clip == clip
    {
      this.clip := clip;
    }

    method Set(clip: Clip)
      modifies this
      ensures this.clip == clip
    {
      this.clip := clip;
    }
  }

  class ClipboardWorker {
    const codecs: Codecs
    const interval: nat
    const clipboard: SystemClipboard
    var limits: Limits
    var last: Option<Bytes>
    var nextPoll: nat
    var reported: seq<Payload>
    var errors: nat

    ghost function View(): Worker
      reads this, clipboard
    {
      Worker(clipboard.clip, limits, last, nextPoll, reported, errors)
    }

    constructor (codecs: Codecs, interval: nat, clipboard: SystemClipboard, limits: Limits, now: nat)
      ensures this.clipboard == clipboard && this.codecs == codecs && this.interval == interval
      ensures View() == Start(codecs, clipboard.clip, limits, now + interval)
    {
      this.codecs, this.interval, this.clipboard, this.limits := codecs, interval, clipboard, limits;
      last, nextPoll := Digest(codecs, Snapshot(codecs, clipboard.clip, limits)), now + interval;
      reported, errors := [], 0;
    }

    method WriteClipboard(payload: Payload, writable: bool) returns (ok: bool)
      modifies clipboard
      ensures var written := Write(codecs, old(clipboard.clip), payload, writable);
              ok == written.Some? && clipboard.clip == if ok then written.value else old(clipboard.clip)
    {
      match payload {
        case Text(text) =>
          ok := writable;
          if ok { clipboard.Set(Clip(Some(text), None)); }
        case Image(_, _, png) =>
          var picture := codecs.decode(png);
          ok := picture.Some? && writable;
          if ok { clipboard.Set(Clip(None, picture)); }
        case Clear =>
          ok := writable;
          if ok { clipboard.Set(EMPTY); }
        case Files(_) =>
          ok := true;
      }
    }

    method HandleCommand(command: Command)
      modifies this, clipboard
      ensures View() == Obey(codecs, old(View()), command)
    {
      match command {
        case Apply(payload, writable) =>
          var ok := WriteClipboard(payload, writable);
          if ok {
            last := Digest(codecs, Some(payload));
          } else {
            errors := errors + 1;
          }
        case SetLimits(updated) =>
          limits := updated;
          last := Digest(codecs, Snapshot(codecs, clipboard.clip, limits));
        case Nothing =>
      }
    }

    /** Relays what is on the clipboard if it is time to look and its digest is new. */
    method PollClipboard(now: nat)
      modifies this
      ensures View() == Poll(codecs, old(View()), now, interval)
    {
      if now < nextPoll {
        return;
      }
      nextPoll := now + interval;
      var current := Snapshot(codecs, clipboard.clip, limits);
      var digest := Digest(codecs, current);
      if digest != last {
        last := digest;
        if current.Some? {
          reported := reported + [current.value];
        }
      }
    }

    /** The worker's loop, with everything that is copied and commanded meanwhile. */
    method Work(events: seq<Event>)
      modifies this, clipboard
      ensures View() == Run(codecs, interval, old(View()), events)
    {
      for i := 0 to |events|
        invariant Run(codecs, interval, View(), events[i..]) == Run(codecs, interval, old(View()), events)
      {
        assert events[i..][0] == events[i] && events[i..][1..] == events[i + 1..];
        match events[i] {
          case Copied(clip) => clipboard.Set(clip);
          case Turn(command, meanwhile, now) =>
            HandleCommand(command);
            if meanwhile.Some? {
              clipboard.Set(meanwhile.value);
            }
            PollClipboard(now);
        }
      }
      assert events[|events|..] == [];
    }
  }

  // ---- No echo ----

  /** A poll would relay what is on the clipboard. */
  predicate Stale(codecs: Codecs, w: Worker) {
    var current := Snapshot(codecs, w.clip, w.limits);
    current.Some? && Digest(codecs, current) != w.last
  }

  /** What a payload looks like when it is read back, whatever the limits. */
  function ReadBack(codecs: Codecs, payload: Payload): Option<Payload> {
    match payload
    case Image(_, _, png) =>
      var picture := codecs.decode(png);
      if picture.None? || codecs.encode(picture.value).None? then None
      else Some(Image(picture.value.width, picture.value.height, codecs.encode(picture.value).value))
    case Text(_) => Some(payload)
    case _ => None
  }

  /** Text, an empty clipboard, or a picture whose encoding is the one this machine would choose. */
  predicate Canonical(codecs: Codecs, payload: Payload) {
    match payload
    case Image(_, _, _) => ReadBack(codecs, payload) == None || ReadBack(codecs, payload) == Some(payload)
    case Files(_) => false
    case _ => true
  }

  /** What a picture reads back as fits the limits. */
  predicate Relayable(limits: Limits, payload: Option<Payload>) {
    payload.Some? && payload.value.Image? && limits.images && |payload.value.png| <= limits.maxBytes
  }

  /** Right after a payload was applied a poll would relay something in two cases only: the payload was a
      list of files, which is not written, and there was something before; or it was a picture that
      reads back differently. */
  lemma AppliedIsEchoedIff(codecs: Codecs, w: Worker, payload: Payload)
    requires CollisionFree(codecs) && Write(codecs, w.clip, payload, true).Some?
    ensures Stale(codecs, Obey(codecs, w, Apply(payload, true)))
       <==> match payload
            case Files(_) => Snapshot(codecs, w.clip, w.limits).Some?
            case Image(_, _, _) =>
              var back := ReadBack(codecs, payload);
              Relayable(w.limits, back) && back != Some(payload)
            case _ => false
  {
    var after := Obey(codecs, w, Apply(payload, true));
    var current := Snapshot(codecs, after.clip, after.limits);
    if current.Some? { DigestsDiffer(codecs, current.value, Some(payload)); }
  }

  function Copies(events: seq<Event>): nat {
    if events == [] then 0
    else (if events[0].Copied? || events[0].meanwhile.Some? then 1 else 0) + Copies(events[1..])
  }

  predicate OnlyCanonical(codecs: Codecs, events: seq<Event>) {
    forall e :: e in events && e.Turn? && e.command.Apply? ==> Canonical(codecs, e.command.payload)
  }

  /** What was relayed, and one more if something is waiting to be. */
  function Relayed(codecs: Codecs, w: Worker): nat {
    |w.reported| + if Stale(codecs, w) then 1 else 0
  }

  lemma CommandsAddNothing(codecs: Codecs, w: Worker, command: Command)
    requires command.Apply? ==> Canonical(codecs, command.payload)
    ensures Relayed(codecs, Obey(codecs, w, command)) <= Relayed(codecs, w)
  {
  }

  lemma PollingAddsNothing(codecs: Codecs, w: Worker, now: nat, interval: nat)
    ensures Relayed(codecs, Poll(codecs, w, now, interval)) == Relayed(codecs, w)
  {
  }

  /** Over any mixture of polls, applied payloads, limit changes and copies, no more is relayed than was
      copied. */
  lemma {:induction false} NoEcho(codecs: Codecs, interval: nat, w: Worker, events: seq<Event>)
    requires OnlyCanonical(codecs, events)
    ensures Relayed(codecs, Run(codecs, interval, w, events)) <= Relayed(codecs, w) + Copies(events)
    decreases events
  {
    if events != [] {
      var e := events[0];
      assert e in events;
      if e.Turn? {
        CommandsAddNothing(codecs, w, e.command);
        PollingAddsNothing(codecs, Copy(Obey(codecs, w, e.command), e.meanwhile), e.now, interval);
      }
      NoEcho(codecs, interval, Step(codecs, interval, w, e), events[1..]);
    }
  }

  lemma NothingIsRelayedUncopied(codecs: Codecs, interval: nat, clip: Clip, limits: Limits, firstPoll: nat, events: seq<Event>)
    requires OnlyCanonical(codecs, events)
    ensures |Run(codecs, interval, Start(codecs, clip, limits, firstPoll), events).reported| <= Copies(events)
  {
    NoEcho(codecs, interval, Start(codecs, clip, limits, firstPoll), events);
  }

  /** What another machine relays is canonical here, as long as both encode pictures alike. */
  lemma SnapshotsAreCanonical(codecs: Codecs, clip: Clip, limits: Limits)
    requires Lossless(codecs) && Snapshot(codecs, clip, limits).Some?
    ensures Canonical(codecs, Snapshot(codecs, clip, limits).value)
  {
  }

  /** A list of files is the exception: nobody copied anything, and what was on the clipboard all along
      is relayed. */
  lemma FileListsRelayOldText(codecs: Codecs, text: Bytes, limits: Limits, paths: seq<Bytes>)
    requires CollisionFree(codecs) && text != [] && limits.text && |text| <= limits.maxBytes
    ensures var w := Start(codecs, Clip(Some(text), None), limits, 0);
            Run(codecs, 0, w, [Turn(Apply(Files(paths), true), None, 0)]).reported == [Text(text)]
  {
    var w := Start(codecs, Clip(Some(text), None), limits, 0);
    DigestsDiffer(codecs, Text(text), Some(Files(paths)));
    assert [Turn(Apply(Files(paths), true), None, 0)][1..] == [];
  }

  // ---- Digests stand for contents ----

  /** The worker with the last payload itself in place of its digest. */
  datatype Plain = Plain(clip: Clip, limits: Limits, known: Option<Payload>, nextPoll: nat, reported: seq<Payload>)

  function PlainObey(codecs: Codecs, w: Plain, command: Command): Plain {
    match command
    case Nothing => w
    case SetLimits(limits) => w.(limits := limits, known := Snapshot(codecs, w.clip, limits))
    case Apply(payload, writable) =>
      match Write(codecs, w.clip, payload, writable)
      case None => w
      case Some(clip) => w.(clip := clip, known := Some(payload))
  }

  function PlainPoll(codecs: Codecs, w: Plain, now: nat, interval: nat): Plain {
    if now < w.nextPoll then w
    else
      var current := Snapshot(codecs, w.clip, w.limits);
      w.(nextPoll := now + interval, known := current,
         reported := if current.Some? && current != w.known then w.reported + [current.value] else w.reported)
  }

  function PlainStep(codecs: Codecs, interval: nat, w: Plain, e: Event): Plain {
    match e
    case Copied(clip) => w.(clip := clip)
    case Turn(command, meanwhile, now) =>
      var obeyed := PlainObey(codecs, w, command);
      PlainPoll(codecs, if meanwhile.Some? then obeyed.(clip := meanwhile.value) else obeyed, now, interval)
  }

  function PlainRun(codecs: Codecs, interval: nat, w: Plain, events: seq<Event>): Plain
    decreases events
  {
    if events == [] then w else PlainRun(codecs, interval, PlainStep(codecs, interval, w, events[0]), events[1..])
  }

  predicate Stands(codecs: Codecs, w: Worker, p: Plain) {
    && w.clip == p.clip && w.limits == p.limits && w.nextPoll == p.nextPoll && w.reported == p.reported
    && w.last == Digest(codecs, p.known)
  }

  lemma StepStands(codecs: Codecs, interval: nat, w: Worker, p: Plain, e: Event)
    requires CollisionFree(codecs) && Stands(codecs, w, p)
    ensures Stands(codecs, Step(codecs, interval, w, e), PlainStep(codecs, interval, p, e))
  {
    if e.Turn? {
      var polled := Copy(Obey(codecs, w, e.command), e.meanwhile);
      var current := Snapshot(codecs, polled.clip, polled.limits);
      if current.Some? { DigestsDiffer(codecs, current.value, PlainObey(codecs, p, e.command).known); }
    }
  }

  /** Comparing digests relays what comparing contents would: whatever differs from what was last
      relayed or applied, and nothing else. */
  lemma {:induction false} DigestsStandForContents(codecs: Codecs, interval: nat, w: Worker, p: Plain, events: seq<Event>)
    requires CollisionFree(codecs) && Stands(codecs, w, p)
    ensures Stands(codecs, Run(codecs, interval, w, events), PlainRun(codecs, interval, p, events))
    decreases events
  {
    if events != [] {
      StepStands(codecs, interval, w, p, events[0]);
      DigestsStandForContents(codecs, interval, Step(codecs, interval, w, events[0]),
                              PlainStep(codecs, interval, p, events[0]), events[1..]);
    }
  }
}
