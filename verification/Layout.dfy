/** Two desktops side by side, and the way a cursor takes between them (crates/ud-core/src/layout.rs). */
module Layout {
  import opened Geometry

  /** How far inside an edge a cursor is put down. */
  const INSET := 12.0

  /** The guard against degenerate spans: the spacing of 64-bit floats at one. */
  const EPSILON: real := 1.0 / 4503599627370496.0

  type Range = (real, real)

  datatype EdgeLink = EdgeLink(
    peer: string, localSide: Side, remoteSide: Side, localRange: Range, remoteRange: Range, enabled: bool)

  /** The other machine's desktop, moved beside the local one along a link. */
  datatype PlacedPeer = PlacedPeer(local: Rect, bounds: Rect, offset: Point, link: EdgeLink) {
    function ToLocal(p: Point): Point {
      Point(p.x + offset.x, p.y + offset.y)
    }

    function ToPeer(p: Point): Point {
      Point(p.x - offset.x, p.y - offset.y)
    }
  }

  /** Where an edge starts along its own axis, and how long it is. */
  function EdgeStart(bounds: Rect, side: Side): real {
    if side.IsHorizontal() then bounds.y else bounds.x
  }

  function EdgeLength(bounds: Rect, side: Side): real {
    if side.IsHorizontal() then bounds.height else bounds.width
  }

  function AlongAxis(side: Side, point: Point): real {
    if side.IsHorizontal() then point.y else point.x
  }

  /** The coordinate `fraction` of the way along a stretch. */
  function Along(start: real, length: real, fraction: real): real {
    start + fraction * length
  }

  /** The coordinate `fraction` of the way along an edge. */
  function AtFraction(bounds: Rect, side: Side, fraction: real): real {
    Along(EdgeStart(bounds, side), EdgeLength(bounds, side), fraction)
  }

  /** The corner of the peer's box once it touches `side`, its ranges aligned. */
  function PlacedCorner(local: Rect, peer: Rect, link: EdgeLink): Point {
    var along := AtFraction(local, link.localSide, link.localRange.0)
                 - link.remoteRange.0 * EdgeLength(peer, link.localSide);
    match link.localSide
    case Right => Point(local.RightEdge(), along)
    case Left => Point(local.x - peer.width, along)
    case Bottom => Point(along, local.BottomEdge())
    case Top => Point(along, local.y - peer.height)
  }

  function PlacePeer(local: Rect, peerDesktop: Rect, link: EdgeLink): PlacedPeer {
    var corner := PlacedCorner(local, peerDesktop, link);
    PlacedPeer(
      local,
      Rect(corner.x, corner.y, peerDesktop.width, peerDesktop.height),
      Point(corner.x - peerDesktop.x, corner.y - peerDesktop.y),
      link)
  }

  function Abs(a: real): real {
    if a < 0.0 then -a else a
  }

  function Clamp(value: real, low: real, high: real): real {
    if value < low then low else if value > high then high else value
  }

  /** How far along an edge a cursor is, as a fraction of its length; past either end counts as there. */
  function FractionAlong(bounds: Rect, side: Side, point: Point): (f: real)
    ensures 0.0 <= f <= 1.0
  {
    if Abs(EdgeLength(bounds, side)) < EPSILON then 0.5
    else Clamp((AlongAxis(side, point) - EdgeStart(bounds, side)) / EdgeLength(bounds, side), 0.0, 1.0)
  }

  /** How far a value is through a range, clamped to its ends. */
  function Progress(value: real, from: Range): (t: real)
    requires from.0 != from.1
    ensures 0.0 <= t <= 1.0
  {
    Clamp((value - from.0) / (from.1 - from.0), 0.0, 1.0)
  }

  /** The fraction that is as far through `to` as `value` is through `from`. */
  function MapFraction(value: real, from: Range, to: Range): real {
    if Abs(from.1 - from.0) < EPSILON then to.0
    else to.0 + Progress(value, from) * (to.1 - to.0)
  }

  /** The point at coordinate `along` of an edge, `INSET` inside the rectangle. */
  function InsetAt(bounds: Rect, side: Side, along: real): Point {
    match side
    case Left => Point(bounds.x + INSET, along)
    case Right => Point(bounds.RightEdge() - INSET, along)
    case Top => Point(along, bounds.y + INSET)
    case Bottom => Point(along, bounds.BottomEdge() - INSET)
  }

  function InsetPoint(bounds: Rect, side: Side, fraction: real): Point {
    InsetAt(bounds, side, AtFraction(bounds, side, fraction))
  }

  /** Where a cursor that leaves through a link comes in on the other machine, as that machine counts. */
  function EntryPoint(placed: PlacedPeer, localCursor: Point): Point {
    var f := FractionAlong(placed.local, placed.link.localSide, localCursor);
    var g := MapFraction(f, placed.link.localRange, placed.link.remoteRange);
    placed.ToPeer(InsetPoint(placed.bounds, placed.link.remoteSide, g))
  }

  /** Where a cursor that comes back through a link turns up here. */
  function ReturnPoint(placed: PlacedPeer, peerCursor: Point): Point {
    var g := FractionAlong(placed.bounds, placed.link.remoteSide, placed.ToLocal(peerCursor));
    var f := MapFraction(g, placed.link.remoteRange, placed.link.localRange);
    InsetPoint(placed.local, placed.link.localSide, f)
  }

  /** Whether a point is no more than `tolerance` short of an edge, and no more beside it. */
  predicate HitsEdge(bounds: Rect, side: Side, point: Point, tolerance: real) {
    var insideY := bounds.y - tolerance <= point.y <= bounds.BottomEdge() + tolerance;
    var insideX := bounds.x - tolerance <= point.x <= bounds.RightEdge() + tolerance;
    match side
    case Left => insideY && point.x <= bounds.x + tolerance
    case Right => insideY && point.x >= bounds.RightEdge() - tolerance
    case Top => insideX && point.y <= bounds.y + tolerance
    case Bottom => insideX && point.y >= bounds.BottomEdge() - tolerance
  }

  predicate IsOutward(side: Side, dx: real, dy: real) {
    match side
    case Right => dx > 0.0
    case Left => dx < 0.0
    case Bottom => dy > 0.0
    case Top => dy < 0.0
  }

  // ---- The two machines agree on one mapping ----

  /** The link the peer configures for the same physical arrangement. */
  function Mirror(link: EdgeLink, self: string): EdgeLink {
    EdgeLink(self, link.remoteSide, link.localSide, link.remoteRange, link.localRange, link.enabled)
  }

  /** Each machine places the other with its own link. When the links mirror each other the two
      placements are inverse translations, and where one machine says the cursor enters is where
      the other says it comes back, for every cursor position. */
  lemma MirroredLinksAgree(here: Rect, there: Rect, link: EdgeLink, self: string, cursor: Point)
    requires link.remoteSide == link.localSide.Opposite()
    ensures var ours := PlacePeer(here, there, link);
            var theirs := PlacePeer(there, here, Mirror(link, self));
            && theirs.offset == Point(-ours.offset.x, -ours.offset.y)
            && EntryPoint(ours, cursor) == ReturnPoint(theirs, cursor)
            && EntryPoint(theirs, cursor) == ReturnPoint(ours, cursor)
  {
    PlacementsAreInverse(here, there, link, self);
    EntryOnOneIsReturnOnTheOther(here, there, link, self, cursor);
    EntryOnOneIsReturnOnTheOther(there, here, Mirror(link, self), link.peer, cursor);
    assert Mirror(Mirror(link, self), link.peer) == link;
  }

  lemma PlacementsAreInverse(here: Rect, there: Rect, link: EdgeLink, self: string)
    requires link.remoteSide == link.localSide.Opposite()
    ensures PlacePeer(there, here, Mirror(link, self)).offset
         == Point(-PlacePeer(here, there, link).offset.x, -PlacePeer(here, there, link).offset.y)
  {
    var ours, theirs := PlacedCorner(here, there, link), PlacedCorner(there, here, Mirror(link, self));
    var side := link.localSide;
    assert EdgeStart(there, side) == EdgeStart(there, link.remoteSide);
    assert AlongAxis(side, ours) - EdgeStart(there, side) == EdgeStart(here, side) - AlongAxis(side, theirs);
  }

  lemma EntryOnOneIsReturnOnTheOther(here: Rect, there: Rect, link: EdgeLink, self: string, cursor: Point)
    requires link.remoteSide == link.localSide.Opposite()
    ensures EntryPoint(PlacePeer(here, there, link), cursor)
         == ReturnPoint(PlacePeer(there, here, Mirror(link, self)), cursor)
  {
    var ours := PlacePeer(here, there, link);
    var theirs := PlacePeer(there, here, Mirror(link, self));
    PlacementsAreInverse(here, there, link, self);
    assert EdgeStart(theirs.bounds, link.localSide) - EdgeStart(here, link.localSide)
        == AlongAxis(link.localSide, theirs.ToLocal(cursor)) - AlongAxis(link.localSide, cursor);
    FractionIsTranslationInvariant(here, theirs.bounds, link.localSide, cursor, theirs.ToLocal(cursor));
    var g := MapFraction(FractionAlong(here, link.localSide, cursor), link.localRange, link.remoteRange);
    PeerCoordinatesOfAnInsetPoint(here, there, link, g);
  }

  lemma FractionIsTranslationInvariant(a: Rect, b: Rect, side: Side, p: Point, q: Point)
    requires EdgeLength(a, side) == EdgeLength(b, side)
    requires EdgeStart(b, side) - EdgeStart(a, side) == AlongAxis(side, q) - AlongAxis(side, p)
    ensures FractionAlong(a, side, p) == FractionAlong(b, side, q)
  {
    assert AlongAxis(side, p) - EdgeStart(a, side) == AlongAxis(side, q) - EdgeStart(b, side);
  }

  /** A point placed on the peer's box is the same point of the peer's own desktop. */
  lemma PeerCoordinatesOfAnInsetPoint(here: Rect, there: Rect, link: EdgeLink, fraction: real)
    ensures var placed := PlacePeer(here, there, link);
            placed.ToPeer(InsetPoint(placed.bounds, link.remoteSide, fraction))
            == InsetPoint(there, link.remoteSide, fraction)
  {
    var placed := PlacePeer(here, there, link);
    var side := link.remoteSide;
    assert AtFraction(placed.bounds, side, fraction) - AtFraction(there, side, fraction)
        == EdgeStart(placed.bounds, side) - EdgeStart(there, side);
    ShiftedInset(placed.bounds, there, side, AtFraction(placed.bounds, side, fraction),
                 AtFraction(there, side, fraction), placed.offset);
  }

  lemma ShiftedInset(a: Rect, b: Rect, side: Side, along: real, shifted: real, shift: Point)
    requires a == Rect(b.x + shift.x, b.y + shift.y, b.width, b.height)
    requires along - shifted == EdgeStart(a, side) - EdgeStart(b, side)
    ensures InsetAt(a, side, along) == Point(InsetAt(b, side, shifted).x + shift.x, InsetAt(b, side, shifted).y + shift.y)
  {
  }

  // ---- Going over and coming back ----

  predicate UsableRange(r: Range) {
    0.0 <= r.0 <= 1.0 && 0.0 <= r.1 <= 1.0
  }

  function Project(f: real, r: Range): real {
    Clamp(f, Min(r.0, r.1), Max(r.0, r.1))
  }

  /** A fraction of a length is no longer than the length. */
  lemma FractionOfLength(t: real, length: real)
    requires 0.0 <= t <= 1.0 && 0.0 <= length
    ensures 0.0 <= t * length <= length
  {
    assert 0.0 <= (1.0 - t) * length;
  }

  lemma ScaledInUnit(t: real, a: real, b: real)
    requires 0.0 <= t <= 1.0
    ensures Min(a, b) <= a + t * (b - a) <= Max(a, b)
  {
    var step := b - a;
    if 0.0 <= step {
      FractionOfLength(t, step);
    } else {
      FractionOfLength(t, -step);
      assert t * step == -(t * (-step));
    }
  }

  /** Dividing a product by one of its factors. */
  lemma QuotientOfProduct(x: real, y: real)
    requires y != 0.0
    ensures (x * y) / y == x
  {
  }

  /** Where a value divided by a positive length lies against zero and one. */
  lemma QuotientAgainstUnit(value: real, length: real)
    requires 0.0 < length
    ensures (value / length) * length == value
    ensures value / length < 0.0 <==> value < 0.0
    ensures 1.0 < value / length <==> length < value
  {
    var q := value / length;
    assert q * length == value;
    if q < 0.0 { assert 0.0 < (-q) * length; } else { assert 0.0 <= q * length; }
    if 1.0 < q { assert 0.0 < (q - 1.0) * length; } else { assert 0.0 <= (1.0 - q) * length; }
  }

  /** A mapped fraction never leaves the range it is mapped onto. */
  lemma MapFractionStaysInRange(value: real, from: Range, to: Range)
    ensures Min(to.0, to.1) <= MapFraction(value, from, to) <= Max(to.0, to.1)
  {
    if Abs(from.1 - from.0) >= EPSILON {
      ScaledInUnit(Progress(value, from), to.0, to.1);
    }
  }

  lemma ProgressRecoversTheProjection(value: real, from: Range)
    requires from.0 != from.1
    ensures from.0 + Progress(value, from) * (from.1 - from.0) == Project(value, from)
  {
    var span, moved := from.1 - from.0, value - from.0;
    if span > 0.0 {
      QuotientAgainstUnit(moved, span);
    } else {
      QuotientAgainstUnit(-moved, -span);
      QuotientOfNegations(moved, span);
    }
  }

  lemma QuotientOfNegations(x: real, y: real)
    requires y != 0.0
    ensures (-x) / (-y) == x / y && (x / y) * y == x
  {
    var q := x / y;
    assert q * y == x;
    assert q * (-y) == -x;
    QuotientOfProduct(q, -y);
  }

  lemma ProgressOfMapped(t: real, to: Range)
    requires 0.0 <= t <= 1.0 && to.0 != to.1
    ensures Progress(to.0 + t * (to.1 - to.0), to) == t
  {
    QuotientOfProduct(t, to.1 - to.0);
  }

  /** Mapping there and back projects onto the source range, reversed ranges included. */
  lemma MapFractionRoundTrip(value: real, from: Range, to: Range)
    requires Abs(from.1 - from.0) >= EPSILON && Abs(to.1 - to.0) >= EPSILON
    ensures MapFraction(MapFraction(value, from, to), to, from) == Project(value, from)
  {
    var t, mapped := Progress(value, from), MapFraction(value, from, to);
    assert mapped == to.0 + t * (to.1 - to.0);
    ProgressOfMapped(t, to);
    assert Progress(mapped, to) == t;
    ProgressRecoversTheProjection(value, from);
  }

  lemma FractionOfInsetPoint(bounds: Rect, side: Side, fraction: real)
    requires 0.0 <= fraction <= 1.0 && Abs(EdgeLength(bounds, side)) >= EPSILON
    ensures FractionAlong(bounds, side, InsetPoint(bounds, side, fraction)) == fraction
  {
    QuotientOfProduct(fraction, EdgeLength(bounds, side));
  }

  /** The projection of a cursor onto the linked stretch of an edge, moved `INSET` inside. */
  function ProjectOntoEdge(bounds: Rect, side: Side, range: Range, cursor: Point): Point {
    InsetPoint(bounds, side, Project(FractionAlong(bounds, side, cursor), range))
  }

  predicate NonDegenerate(placed: PlacedPeer) {
    && UsableRange(placed.link.localRange) && UsableRange(placed.link.remoteRange)
    && Abs(placed.link.localRange.1 - placed.link.localRange.0) >= EPSILON
    && Abs(placed.link.remoteRange.1 - placed.link.remoteRange.0) >= EPSILON
    && Abs(EdgeLength(placed.local, placed.link.localSide)) >= EPSILON
    && Abs(EdgeLength(placed.bounds, placed.link.remoteSide)) >= EPSILON
  }

  /** Going over and straight back lands on the projection of the cursor onto the linked stretch:
      the identity along the edge for a cursor inside the range, its nearest end otherwise. */
  lemma ReturnAfterEntry(placed: PlacedPeer, cursor: Point)
    requires NonDegenerate(placed)
    ensures ReturnPoint(placed, EntryPoint(placed, cursor))
         == ProjectOntoEdge(placed.local, placed.link.localSide, placed.link.localRange, cursor)
  {
    var link := placed.link;
    var f := FractionAlong(placed.local, link.localSide, cursor);
    var g := MapFraction(f, link.localRange, link.remoteRange);
    MapFractionStaysInRange(f, link.localRange, link.remoteRange);
    var landing := InsetPoint(placed.bounds, link.remoteSide, g);
    assert placed.ToLocal(placed.ToPeer(landing)) == landing;
    FractionOfInsetPoint(placed.bounds, link.remoteSide, g);
    MapFractionRoundTrip(f, link.localRange, link.remoteRange);
  }

  lemma EntryAfterReturn(placed: PlacedPeer, peerCursor: Point)
    requires NonDegenerate(placed)
    ensures placed.ToLocal(EntryPoint(placed, ReturnPoint(placed, peerCursor)))
         == ProjectOntoEdge(placed.bounds, placed.link.remoteSide, placed.link.remoteRange, placed.ToLocal(peerCursor))
  {
    var link := placed.link;
    var g := FractionAlong(placed.bounds, link.remoteSide, placed.ToLocal(peerCursor));
    var f := MapFraction(g, link.remoteRange, link.localRange);
    MapFractionStaysInRange(g, link.remoteRange, link.localRange);
    FractionOfInsetPoint(placed.local, link.localSide, f);
    MapFractionRoundTrip(g, link.remoteRange, link.localRange);
    var landing := InsetPoint(placed.bounds, link.remoteSide, Project(g, link.remoteRange));
    assert placed.ToLocal(placed.ToPeer(landing)) == landing;
  }

  lemma AtFractionOfPoint(bounds: Rect, side: Side, p: Point)
    requires bounds.Holds(p) && EdgeLength(bounds, side) >= EPSILON
    ensures AtFraction(bounds, side, FractionAlong(bounds, side, p)) == AlongAxis(side, p)
  {
    QuotientAgainstUnit(AlongAxis(side, p) - EdgeStart(bounds, side), EdgeLength(bounds, side));
  }

  /** Inside the linked stretch, the return point is level with where the cursor left. */
  lemma RoundTripIsLevelInsideTheRange(placed: PlacedPeer, cursor: Point)
    requires NonDegenerate(placed) && placed.local.Holds(cursor)
    requires var f := FractionAlong(placed.local, placed.link.localSide, cursor);
             f == Project(f, placed.link.localRange)
    ensures AlongAxis(placed.link.localSide, ReturnPoint(placed, EntryPoint(placed, cursor)))
         == AlongAxis(placed.link.localSide, cursor)
  {
    ReturnAfterEntry(placed, cursor);
    AtFractionOfPoint(placed.local, placed.link.localSide, cursor);
  }

  // ---- Landing ----

  function Depth(bounds: Rect, side: Side): real {
    if side.IsHorizontal() then bounds.width else bounds.height
  }

  /** `p` is `INSET` inside `side`, and on the desktop along it. */
  predicate IsInset(bounds: Rect, side: Side, p: Point) {
    && EdgeStart(bounds, side) <= AlongAxis(side, p) <= EdgeStart(bounds, side) + EdgeLength(bounds, side)
    && p == InsetAt(bounds, side, AlongAxis(side, p))
  }

  lemma InsetPointIsInset(bounds: Rect, side: Side, fraction: real)
    requires 0.0 <= fraction <= 1.0 && 0.0 <= EdgeLength(bounds, side)
    ensures IsInset(bounds, side, InsetPoint(bounds, side, fraction))
  {
    AlongStaysInside(EdgeStart(bounds, side), EdgeLength(bounds, side), fraction);
    InsetAtIsInset(bounds, side, AtFraction(bounds, side, fraction));
  }

  lemma AlongStaysInside(start: real, length: real, fraction: real)
    requires 0.0 <= fraction <= 1.0 && 0.0 <= length
    ensures start <= Along(start, length, fraction) <= start + length
  {
    FractionOfLength(fraction, length);
  }

  lemma InsetAtIsInset(bounds: Rect, side: Side, along: real)
    requires EdgeStart(bounds, side) <= along <= EdgeStart(bounds, side) + EdgeLength(bounds, side)
    ensures IsInset(bounds, side, InsetAt(bounds, side, along))
  {
  }

  /** Where the cursor enters the peer, in the peer's own coordinates. */
  lemma EntryIsInset(here: Rect, there: Rect, link: EdgeLink, cursor: Point)
    requires 0.0 <= there.width && 0.0 <= there.height && UsableRange(link.remoteRange)
    ensures IsInset(there, link.remoteSide, EntryPoint(PlacePeer(here, there, link), cursor))
  {
    var f := FractionAlong(here, link.localSide, cursor);
    var g := MapFraction(f, link.localRange, link.remoteRange);
    MapFractionStaysInRange(f, link.localRange, link.remoteRange);
    PeerCoordinatesOfAnInsetPoint(here, there, link, g);
    InsetPointIsInset(there, link.remoteSide, g);
  }

  lemma ReturnIsInset(here: Rect, there: Rect, link: EdgeLink, peerCursor: Point)
    requires 0.0 <= here.width && 0.0 <= here.height && UsableRange(link.localRange)
    ensures IsInset(here, link.localSide, ReturnPoint(PlacePeer(here, there, link), peerCursor))
  {
    var placed := PlacePeer(here, there, link);
    var g := FractionAlong(placed.bounds, link.remoteSide, placed.ToLocal(peerCursor));
    MapFractionStaysInRange(g, link.remoteRange, link.localRange);
    InsetPointIsInset(here, link.localSide, MapFraction(g, link.remoteRange, link.localRange));
  }

  /** Entering never arms the edge back home, and coming home never arms the edge again, exactly
      as long as the edge tolerance is below the inset; both landings are on the target desktop
      exactly when it is at least `INSET` deep. This holds for every cursor, however far outside
      the desktop dead reckoning has taken it. */
  lemma LandingNeverRearms(here: Rect, there: Rect, link: EdgeLink, cursor: Point, peerCursor: Point, tolerance: real)
    requires 0.0 <= here.width && 0.0 <= here.height && 0.0 <= there.width && 0.0 <= there.height
    requires UsableRange(link.localRange) && UsableRange(link.remoteRange) && 0.0 <= tolerance
    ensures var placed := PlacePeer(here, there, link);
            var entry, home := EntryPoint(placed, cursor), ReturnPoint(placed, peerCursor);
            && (HitsEdge(there, link.remoteSide, entry, tolerance) <==> INSET <= tolerance)
            && (HitsEdge(here, link.localSide, home, tolerance) <==> INSET <= tolerance)
            && (there.Holds(entry) <==> INSET <= Depth(there, link.remoteSide))
            && (here.Holds(home) <==> INSET <= Depth(here, link.localSide))
  {
    var placed := PlacePeer(here, there, link);
    EntryIsInset(here, there, link, cursor);
    ReturnIsInset(here, there, link, peerCursor);
    InsetAgainstItsEdge(there, link.remoteSide, EntryPoint(placed, cursor), tolerance);
    InsetAgainstItsEdge(here, link.localSide, ReturnPoint(placed, peerCursor), tolerance);
  }

  lemma InsetAgainstItsEdge(bounds: Rect, side: Side, p: Point, tolerance: real)
    requires IsInset(bounds, side, p) && 0.0 <= tolerance
    ensures HitsEdge(bounds, side, p, tolerance) <==> INSET <= tolerance
    ensures bounds.Holds(p) <==> INSET <= Depth(bounds, side)
  {
  }
}
