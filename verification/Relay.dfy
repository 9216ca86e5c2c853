/** What the user does on the controlling machine happens on the controlled one
    (crates/ud-engine/src/engine.rs:1604-1643 and 1680-1745). */
module Relay {
  import opened Wrappers
  import opened Geometry
  import opened Layout
  import opened Identity
  import opened Handover

  /** Machine `t` takes its input from machine `s`. */
  predicate Linked(s: State, t: State) {
    && s.control.Controlling? && s.control.target == t.id && t.id in s.sessions
    && t.control.Controlled? && t.control.owner == s.id && t.input.Some?
  }

  /** The controlling machine after one captured event. */
  function Sends(s: State, now: Instant, event: CapturedEvent): State {
    Step(s.(outbox := []), Captured(now, event, true))
  }

  /** The controlled machine once the message has arrived. */
  function Gets(t: State, now: Instant, sent: State): State {
    if sent.outbox == [] then t else Step(t, Incoming(now, sent.id, sent.outbox[0].1))
  }

  /** An event that is relayed, rather than ending the handover. */
  predicate IsRelayed(s: State, now: Instant, event: CapturedEvent) {
    !event.CaptureLost? && !IsReleaseGesture(s, event, now)
  }

  function Speed(s: State): real {
    if s.settings.mouseSpeed <= 0.05 then 0.05 else s.settings.mouseSpeed
  }

  /** How far an event moves a cursor. */
  function Movement(s: State, event: CapturedEvent): Point {
    if event.Moved? then Point(event.mx * Speed(s), event.my * Speed(s)) else Point(0.0, 0.0)
  }

  /** What is down after an event, of what was. */
  predicate ButtonAfter(event: CapturedEvent, button: MouseButton, before: bool) {
    if event.Clicked? && event.clicked == button then event.clickedDown else before
  }

  predicate KeyAfter(event: CapturedEvent, code: KeyCode, relays: bool, before: bool) {
    if event.Typed? && event.typed == code && relays then event.typedDown else before
  }

  lemma ReckonsTheMovement(s: State, cursor: Point, event: CapturedEvent)
    ensures Max(s.settings.mouseSpeed, 0.05) == Speed(s)
    ensures DeadReckon(cursor, event, Speed(s)) == Point(cursor.x + Movement(s, event).x, cursor.y + Movement(s, event).y)
  {
  }

  lemma SendingOne(s: State, now: Instant, event: CapturedEvent) returns (sent: State, input: InputEvent)
    requires s.control.Controlling? && s.control.target in s.sessions && IsRelayed(s, now, event)
    ensures sent == Sends(s, now, event) && sent.outbox == [(s.control.target, Input(input))]
    ensures sent.id == s.id && sent.sessions == s.sessions && sent.settings == s.settings
    ensures sent.control == s.control.(peerCursor := Point(s.control.peerCursor.x + Movement(s, event).x,
                                                           s.control.peerCursor.y + Movement(s, event).y))
    ensures match event
            case Moved(mx, my) => input == MoveRel(mx * Speed(s), my * Speed(s))
            case Clicked(button, down) => input == Button(button, down)
            case Scrolled(sx, sy) => input == Wheel(sx, sy)
            case Typed(code, down, held) => input == Key(code, down, held)
  {
    ReckonsTheMovement(s, s.control.peerCursor, event);
    sent := Sends(s, now, event);
    input := sent.outbox[0].1.event;
  }

  /** One event: the cursor over there moves as the one in mind here does, and exactly the button or key concerned is
      pressed or released, if its platform has it and keys are relayed at all. */
  lemma RelayedIsInjected(s: State, t: State, now: Instant, later: Instant, event: CapturedEvent)
    requires Linked(s, t) && IsRelayed(s, now, event)
    ensures var sent := Sends(s, now, event);
            var got := Gets(t, later, sent);
            && Linked(sent, got) && got.control == t.control && sent.settings == s.settings
            && got.input.value.mapped == t.input.value.mapped
            && sent.control.peerCursor.x - s.control.peerCursor.x == got.input.value.cursor.x - t.input.value.cursor.x
            && sent.control.peerCursor.y - s.control.peerCursor.y == got.input.value.cursor.y - t.input.value.cursor.y
            && got.input.value.cursor.x - t.input.value.cursor.x == Movement(s, event).x
            && got.input.value.cursor.y - t.input.value.cursor.y == Movement(s, event).y
            && (forall b :: b in got.input.value.buttonsDown <==> ButtonAfter(event, b, b in t.input.value.buttonsDown))
            && (forall c :: c in got.input.value.keysDown
                  <==> KeyAfter(event, c, t.control.keyboard && c in t.input.value.mapped, c in t.input.value.keysDown))
  {
    var sent, input := SendingOne(s, now, event);
    assert Gets(t, later, sent) == OnRemoteInput(t, input);
  }

  /** Input that finds the queue full is lost over there; here the cursor in mind moves on without it. */
  lemma LostInputMovesTheMindOnly(s: State, now: Instant, event: CapturedEvent)
    requires s.control.Controlling? && IsRelayed(s, now, event)
    ensures var after := Step(s, Captured(now, event, false));
            && after.outbox == s.outbox && after.control.Controlling?
            && after.control.peerCursor == Point(s.control.peerCursor.x + Movement(s, event).x,
                                                 s.control.peerCursor.y + Movement(s, event).y)
  {
    ReckonsTheMovement(s, s.control.peerCursor, event);
  }

  // ---- Over runs ----

  /** Both machines after a series of events, each captured here and arrived there. */
  function Feed(s: State, t: State, now: Instant, events: seq<CapturedEvent>): (State, State)
    decreases events
  {
    if events == [] then (s, t)
    else
      var sent := Sends(s, now, events[0]);
      Feed(sent, Gets(t, now, sent), now, events[1..])
  }

  predicate AllRelayed(s: State, now: Instant, events: seq<CapturedEvent>)
    decreases events
  {
    events == [] || (IsRelayed(s, now, events[0]) && AllRelayed(Sends(s, now, events[0]), now, events[1..]))
  }

  predicate ButtonAtTheEnd(events: seq<CapturedEvent>, button: MouseButton, before: bool)
    decreases events
  {
    if events == [] then before else ButtonAtTheEnd(events[1..], button, ButtonAfter(events[0], button, before))
  }

  predicate KeyAtTheEnd(events: seq<CapturedEvent>, code: KeyCode, relays: bool, before: bool)
    decreases events
  {
    if events == [] then before else KeyAtTheEnd(events[1..], code, relays, KeyAfter(events[0], code, relays, before))
  }

  /** The cursor over there is where this machine believes it to be. */
  predicate InStep(s: State, t: State) {
    Linked(s, t) && s.control.peerCursor == t.input.value.cursor
  }

  /** Over any series of events the cursors stay in step, and each button and key over there is as the user left it. */
  lemma {:induction false} WhatIsDoneHereHappensThere(
      s: State, t: State, now: Instant, events: seq<CapturedEvent>, button: MouseButton, code: KeyCode)
    requires InStep(s, t) && AllRelayed(s, now, events)
    ensures var (sent, got) := Feed(s, t, now, events);
            && InStep(sent, got)
            && (button in got.input.value.buttonsDown <==> ButtonAtTheEnd(events, button, button in t.input.value.buttonsDown))
            && (code in got.input.value.keysDown
                <==> KeyAtTheEnd(events, code, t.control.keyboard && code in t.input.value.mapped, code in t.input.value.keysDown))
    decreases events
  {
    if events != [] {
      var sent := Sends(s, now, events[0]);
      RelayedIsInjected(s, t, now, now, events[0]);
      WhatIsDoneHereHappensThere(sent, Gets(t, now, sent), now, events[1..], button, code);
    }
  }

  /** Nothing is injected into a machine that is not controlled, and no key where keys are not relayed. */
  lemma UninvitedInputIsDropped(t: State, now: Instant, from: DeviceId, input: InputEvent)
    requires !t.control.Controlled? || (!t.control.keyboard && input.Key?)
    ensures Step(t, Incoming(now, from, Input(input))) == t
  {
  }
}
