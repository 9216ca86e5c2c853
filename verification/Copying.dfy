/** What is copied on one machine is on the clipboard of the other (crates/ud-clipboard/src/lib.rs:143-252). */
module Copying {
  import opened Wrappers
  import opened Codec
  import opened Clipboard

  /** Whether limits let a payload be relayed. */
  predicate Admits(limits: Limits, payload: Payload) {
    match payload
    case Text(text) => limits.text && text != [] && |text| <= limits.maxBytes
    case Image(_, _, png) => limits.images && |png| <= limits.maxBytes
    case _ => false
  }

  /** The clipboard holds what a payload says, and nothing else. */
  predicate Holds(codecs: Codecs, clip: Clip, payload: Payload) {
    match payload
    case Text(text) => clip.text == Some(text) && clip.picture.None?
    case Image(_, _, png) => clip.text.None? && clip.picture.Some? && clip.picture == codecs.decode(png)
    case Clear => clip.text.None? && clip.picture.None?
    case Files(_) => false
  }

  /** The payload can be put on a clipboard at all. */
  predicate Writable(codecs: Codecs, payload: Payload) {
    !payload.Files? && (payload.Image? ==> codecs.decode(payload.png).Some?)
  }

  /** Applying a payload puts it on the clipboard if that can be done, and leaves the clipboard alone if not, which is an
      error unless it is a list of files; a poll in the same turn does not touch it. */
  lemma AppliedIsThere(codecs: Codecs, interval: nat, w: Worker, payload: Payload, writable: bool, now: nat)
    ensures var after := Step(codecs, interval, w, Turn(Apply(payload, writable), None, now));
            && (if writable && Writable(codecs, payload) then Holds(codecs, after.clip, payload) else after.clip == w.clip)
            && after.errors == w.errors + (if payload.Files? || (writable && Writable(codecs, payload)) then 0 else 1)
  {
  }

  /** What is relayed of a clipboard: its text if that is admitted, and otherwise its picture if that is. */
  lemma RelaysTextFirst(codecs: Codecs, clip: Clip, limits: Limits, payload: Payload)
    ensures Snapshot(codecs, clip, limits) == Some(payload)
       <==> || (payload.Text? && clip.text == Some(payload.text) && Admits(limits, payload))
            || (payload.Image? && clip.picture.Some? && Admits(limits, payload)
                && (clip.text.Some? ==> !Admits(limits, Text(clip.text.value)))
                && codecs.encode(clip.picture.value) == Some(payload.png)
                && payload.width == clip.picture.value.width && payload.height == clip.picture.value.height)
  {
  }

  /** What one machine relays and the other applies reads back there as it was, if the other's limits admit it, and
      as nothing if they do not. */
  lemma RelayedReadsBack(codecs: Codecs, from: Clip, fromLimits: Limits, to: Worker, payload: Payload)
    requires Lossless(codecs) && Snapshot(codecs, from, fromLimits) == Some(payload)
    ensures Writable(codecs, payload)
    ensures var after := Obey(codecs, to, Apply(payload, true));
            Snapshot(codecs, after.clip, after.limits) == if Admits(to.limits, payload) then Some(payload) else None
  {
  }

  lemma RunTwo(codecs: Codecs, interval: nat, w: Worker, first: Event, second: Event)
    ensures Run(codecs, interval, w, [first, second]) == Step(codecs, interval, Step(codecs, interval, w, first), second)
  {
    var next := Step(codecs, interval, w, first);
    assert [first, second][1..] == [second] && [second][1..] == [];
    assert Run(codecs, interval, next, [second]) == Run(codecs, interval, Step(codecs, interval, next, second), []);
  }

  /** Something new on the clipboard is relayed by the next poll that is due, exactly if it is admitted and is not what
      was relayed or applied last; and polls keep coming. */
  lemma CopyIsRelayed(codecs: Codecs, interval: nat, w: Worker, known: Option<Payload>, clip: Clip, payload: Payload, now: nat)
    requires CollisionFree(codecs) && w.last == Digest(codecs, known) && now >= w.nextPoll
    requires Snapshot(codecs, clip, w.limits) == Some(payload)
    ensures var after := Run(codecs, interval, w, [Copied(clip), Turn(Nothing, None, now)]);
            && after.reported == w.reported + (if known == Some(payload) then [] else [payload])
            && after.clip == clip && after.nextPoll == now + interval && after.last == Digest(codecs, Some(payload))
  {
    DigestsDiffer(codecs, payload, known);
    RunTwo(codecs, interval, w, Copied(clip), Turn(Nothing, None, now));
    assert w.reported + [] == w.reported;
  }

  /** From one machine to the other. Something is copied here, the next poll relays it, and the other machine applies
      it: then it is on the clipboard there, and is not relayed back by any poll there until something else is
      copied. */
  lemma CopyReachesTheOther(
      codecs: Codecs, interval: nat, here: Worker, known: Option<Payload>, clip: Clip, payload: Payload, now: nat,
      there: Worker, later: nat, polls: seq<Event>)
    requires CollisionFree(codecs) && Lossless(codecs)
    requires here.last == Digest(codecs, known) && known != Some(payload) && now >= here.nextPoll
    requires Snapshot(codecs, clip, here.limits) == Some(payload)
    requires forall e :: e in polls ==> e.Turn? && e.command.Nothing? && e.meanwhile.None?
    ensures Run(codecs, interval, here, [Copied(clip), Turn(Nothing, None, now)]).reported == here.reported + [payload]
    ensures var applied := Step(codecs, interval, there, Turn(Apply(payload, true), None, later));
            var end := Run(codecs, interval, applied, polls);
            Holds(codecs, end.clip, payload) && end.reported == there.reported
  {
    CopyIsRelayed(codecs, interval, here, known, clip, payload, now);
    RelayedReadsBack(codecs, clip, here.limits, there, payload);
    AppliedIsThere(codecs, interval, there, payload, true, later);
    NotRelayedBack(codecs, interval, there, payload, later);
    PollsRelayNothing(codecs, interval, Step(codecs, interval, there, Turn(Apply(payload, true), None, later)), polls);
  }

  lemma NotRelayedBack(codecs: Codecs, interval: nat, there: Worker, payload: Payload, later: nat)
    requires Writable(codecs, payload)
    requires var read := Snapshot(codecs, Obey(codecs, there, Apply(payload, true)).clip, there.limits);
             read == Some(payload) || read == None
    ensures var applied := Step(codecs, interval, there, Turn(Apply(payload, true), None, later));
            applied.reported == there.reported && !Stale(codecs, applied)
  {
  }

  lemma {:induction false} PollsRelayNothing(codecs: Codecs, interval: nat, w: Worker, polls: seq<Event>)
    requires !Stale(codecs, w)
    requires forall e :: e in polls ==> e.Turn? && e.command.Nothing? && e.meanwhile.None?
    ensures var end := Run(codecs, interval, w, polls);
            end.clip == w.clip && end.reported == w.reported
    decreases polls
  {
    if polls != [] {
      assert polls[0] in polls;
      PollsRelayNothing(codecs, interval, Step(codecs, interval, w, polls[0]), polls[1..]);
    }
  }

  /** New limits apply at once, and changing them relays nothing by itself. */
  lemma LimitsApplyAtOnce(codecs: Codecs, interval: nat, w: Worker, limits: Limits, now: nat)
    ensures var after := Step(codecs, interval, w, Turn(SetLimits(limits), None, now));
            after.limits == limits && after.clip == w.clip && after.reported == w.reported
  {
  }
}
