/** Which point of one edge a point of the other edge goes to: end to end, in proportion, and straight across
    where nothing is stretched (crates/ud-core/src/layout.rs:48-130). */
module Edges {
  import opened Geometry
  import opened Layout

  /** The ends of a linked stretch, as coordinates along its edge. */
  function StretchFrom(bounds: Rect, side: Side, range: Range): real {
    Along(EdgeStart(bounds, side), EdgeLength(bounds, side), range.0)
  }

  function StretchTo(bounds: Rect, side: Side, range: Range): real {
    Along(EdgeStart(bounds, side), EdgeLength(bounds, side), range.1)
  }

  /** The nearest coordinate on a stretch whose ends come in either order. */
  function Nearest(value: real, from: real, to: real): real {
    if value <= Min(from, to) then Min(from, to) else if value >= Max(from, to) then Max(from, to) else value
  }

  /** `y` is as far from `b0` to `b1` as `x` is from `a0` to `a1`. */
  predicate InProportion(x: real, a0: real, a1: real, y: real, b0: real, b1: real) {
    (y - b0) * (a1 - a0) == (x - a0) * (b1 - b0)
  }

  // ---- On one axis ----

  /** Along a stretch of some length, order is kept. */
  lemma AlongKeepsOrder(start: real, length: real, a: real, b: real)
    requires 0.0 < length
    ensures a < b <==> Along(start, length, a) < Along(start, length, b)
  {
    assert (b - a) * length == b * length - a * length;
    if a < b { assert 0.0 < (b - a) * length; } else { assert 0.0 <= (a - b) * length; }
  }

  lemma AlongTheEnds(start: real, length: real)
    ensures Along(start, length, 0.0) == start && Along(start, length, 1.0) == start + length
  {
  }

  /** Where a cursor is along an edge, cut off at its ends. */
  lemma FractionIsWhereItWas(bounds: Rect, side: Side, p: Point, start: real, length: real)
    requires EdgeLength(bounds, side) >= EPSILON && start == EdgeStart(bounds, side) && length == EdgeLength(bounds, side)
    ensures Along(start, length, FractionAlong(bounds, side, p)) == Clamp(AlongAxis(side, p), start, start + length)
  {
    QuotientAgainstUnit(AlongAxis(side, p) - EdgeStart(bounds, side), EdgeLength(bounds, side));
  }

  /** The nearest point of a stretch is the projected fraction. */
  lemma NearestIsProjected(x: real, start: real, length: real, range: Range, f: real)
    requires 0.0 < length && UsableRange(range) && Along(start, length, f) == Clamp(x, start, start + length)
    ensures Along(start, length, Project(f, range))
         == Nearest(x, Along(start, length, range.0), Along(start, length, range.1))
  {
    AlongTheEnds(start, length);
    AlongKeepsOrder(start, length, range.0, range.1);
    AlongKeepsOrder(start, length, range.1, range.0);
    AlongKeepsOrder(start, length, f, range.0);
    AlongKeepsOrder(start, length, range.0, f);
    AlongKeepsOrder(start, length, f, range.1);
    AlongKeepsOrder(start, length, range.1, f);
    AlongKeepsOrder(start, length, range.0, 0.0);
    AlongKeepsOrder(start, length, range.1, 0.0);
    AlongKeepsOrder(start, length, 1.0, range.0);
    AlongKeepsOrder(start, length, 1.0, range.1);
  }

  /** Part of the way through a range is as much of the way along its stretch. */
  lemma AlongARange(start: real, length: real, from: real, to: real, t: real)
    ensures Along(start, length, Along(from, to - from, t))
         == Along(Along(start, length, from), Along(start, length, to) - Along(start, length, from), t)
  {
    var span := to - from;
    assert (from + t * span) * length == from * length + (t * span) * length;
    assert (t * span) * length == t * (span * length);
    assert span * length == to * length - from * length;
  }

  lemma SameProgress(t: real, x: real, a0: real, a1: real, y: real, b0: real, b1: real)
    requires x == Along(a0, a1 - a0, t) && y == Along(b0, b1 - b0, t)
    ensures InProportion(x, a0, a1, y, b0, b1)
  {
    var a, b := a1 - a0, b1 - b0;
    assert (t * b) * a == (t * a) * b;
  }

  /** What `f` is mapped to, with what it stands for, on the axes of the two edges. */
  lemma MappedOnAxes(x: real, start: real, length: real, from: Range, f: real, t: real, start2: real, length2: real, to: Range)
    requires 0.0 < length && UsableRange(from) && Along(start, length, f) == Clamp(x, start, start + length)
    requires Project(f, from) == Along(from.0, from.1 - from.0, t)
    ensures var a0, a1 := Along(start, length, from.0), Along(start, length, from.1);
            InProportion(Nearest(x, a0, a1), a0, a1, Along(start2, length2, Along(to.0, to.1 - to.0, t)),
                         Along(start2, length2, to.0), Along(start2, length2, to.1))
  {
    NearestIsProjected(x, start, length, from, f);
    AlongARange(start, length, from.0, from.1, t);
    AlongARange(start2, length2, to.0, to.1, t);
    var a0, a1 := Along(start, length, from.0), Along(start, length, from.1);
    SameProgress(t, Nearest(x, a0, a1), a0, a1, Along(start2, length2, Along(to.0, to.1 - to.0, t)),
                 Along(start2, length2, to.0), Along(start2, length2, to.1));
  }

  // ---- From edge to edge ----

  lemma ProgressOf(f: real, from: Range, to: Range) returns (t: real)
    requires Abs(from.1 - from.0) >= EPSILON
    ensures Project(f, from) == Along(from.0, from.1 - from.0, t)
    ensures MapFraction(f, from, to) == Along(to.0, to.1 - to.0, t)
  {
    ProgressRecoversTheProjection(f, from);
    t := Progress(f, from);
  }

  lemma PlaceOf(bounds: Rect, side: Side, p: Point) returns (f: real, start: real, length: real)
    requires EdgeLength(bounds, side) >= EPSILON
    ensures f == FractionAlong(bounds, side, p) && start == EdgeStart(bounds, side) && length == EdgeLength(bounds, side)
    ensures 0.0 < length && Along(start, length, f) == Clamp(AlongAxis(side, p), start, start + length)
  {
    f, start, length := FractionAlong(bounds, side, p), EdgeStart(bounds, side), EdgeLength(bounds, side);
    FractionIsWhereItWas(bounds, side, p, start, length);
  }

  /** A point that is mapped from a stretch of one edge to a stretch of another. */
  lemma MappedInProportion(a: Rect, from: Side, fromRange: Range, p: Point, b: Rect, to: Side, toRange: Range)
    requires UsableRange(fromRange) && Abs(fromRange.1 - fromRange.0) >= EPSILON && EdgeLength(a, from) >= EPSILON
    ensures var a0, a1 := StretchFrom(a, from, fromRange), StretchTo(a, from, fromRange);
            InProportion(Nearest(AlongAxis(from, p), a0, a1), a0, a1,
                         AtFraction(b, to, MapFraction(FractionAlong(a, from, p), fromRange, toRange)),
                         StretchFrom(b, to, toRange), StretchTo(b, to, toRange))
  {
    var f, start, length := PlaceOf(a, from, p);
    var t := ProgressOf(f, fromRange, toRange);
    MappedOnAxes(AlongAxis(from, p), start, length, fromRange, f, t, EdgeStart(b, to), EdgeLength(b, to), toRange);
  }

  /** A link that has a length at both ends, on edges that have one. */
  predicate Linkable(here: Rect, there: Rect, link: EdgeLink) {
    && UsableRange(link.localRange) && UsableRange(link.remoteRange)
    && Abs(link.localRange.1 - link.localRange.0) >= EPSILON && Abs(link.remoteRange.1 - link.remoteRange.0) >= EPSILON
    && EdgeLength(here, link.localSide) >= EPSILON && EdgeLength(there, link.remoteSide) >= EPSILON
  }

  /** Going over, a cursor comes in as far along the linked stretch of the other machine's edge as it left along
      that of its own; beyond an end it counts as at that end. */
  lemma EntryIsInProportion(here: Rect, there: Rect, link: EdgeLink, cursor: Point)
    requires Linkable(here, there, link)
    ensures var a0, a1 := StretchFrom(here, link.localSide, link.localRange), StretchTo(here, link.localSide, link.localRange);
            var b0, b1 := StretchFrom(there, link.remoteSide, link.remoteRange), StretchTo(there, link.remoteSide, link.remoteRange);
            InProportion(Nearest(AlongAxis(link.localSide, cursor), a0, a1), a0, a1,
                         AlongAxis(link.remoteSide, EntryPoint(PlacePeer(here, there, link), cursor)), b0, b1)
  {
    MappedInProportion(here, link.localSide, link.localRange, cursor, there, link.remoteSide, link.remoteRange);
    PeerCoordinatesOfAnInsetPoint(
      here, there, link, MapFraction(FractionAlong(here, link.localSide, cursor), link.localRange, link.remoteRange));
  }

  /** Coming back, the same the other way round. */
  lemma ReturnIsInProportion(here: Rect, there: Rect, link: EdgeLink, peerCursor: Point)
    requires Linkable(here, there, link)
    ensures var a0, a1 := StretchFrom(here, link.localSide, link.localRange), StretchTo(here, link.localSide, link.localRange);
            var b0, b1 := StretchFrom(there, link.remoteSide, link.remoteRange), StretchTo(there, link.remoteSide, link.remoteRange);
            InProportion(Nearest(AlongAxis(link.remoteSide, peerCursor), b0, b1), b0, b1,
                         AlongAxis(link.localSide, ReturnPoint(PlacePeer(here, there, link), peerCursor)), a0, a1)
  {
    var placed := PlacePeer(here, there, link);
    FractionIsTranslationInvariant(there, placed.bounds, link.remoteSide, peerCursor, placed.ToLocal(peerCursor));
    MappedInProportion(there, link.remoteSide, link.remoteRange, peerCursor, here, link.localSide, link.localRange);
  }

  /** From a stretch of no length a cursor comes in at the first end of the other. */
  lemma NoStretchGoesToTheFirstEnd(here: Rect, there: Rect, link: EdgeLink, cursor: Point)
    requires Abs(link.localRange.1 - link.localRange.0) < EPSILON
    ensures AlongAxis(link.remoteSide, EntryPoint(PlacePeer(here, there, link), cursor))
         == StretchFrom(there, link.remoteSide, link.remoteRange)
  {
    PeerCoordinatesOfAnInsetPoint(here, there, link, link.remoteRange.0);
  }

  // ---- Ends ----

  lemma StretchHasLength(bounds: Rect, side: Side, range: Range)
    requires range.0 != range.1 && EdgeLength(bounds, side) >= EPSILON
    ensures StretchFrom(bounds, side, range) != StretchTo(bounds, side, range)
  {
    var length, span := EdgeLength(bounds, side), range.1 - range.0;
    assert span * length == range.1 * length - range.0 * length;
    assert span * length != 0.0;
  }

  lemma NoZeroProduct(p: real, a: real)
    requires p * a == 0.0 && a != 0.0
    ensures p == 0.0
  {
  }

  lemma EndsOfProportion(x: real, a0: real, a1: real, y: real, b0: real, b1: real)
    requires InProportion(x, a0, a1, y, b0, b1) && a0 != a1
    ensures x == a0 ==> y == b0
    ensures x == a1 ==> y == b1
    ensures a1 - a0 == b1 - b0 ==> y - b0 == x - a0
  {
    var a, b, v, u := a1 - a0, b1 - b0, y - b0, x - a0;
    assert v * a == u * b;
    if x == a0 { NoZeroProduct(v, a); }
    if x == a1 {
      assert (v - b) * a == v * a - b * a;
      NoZeroProduct(v - b, a);
    }
    if a == b {
      assert (v - u) * a == v * a - u * a;
      NoZeroProduct(v - u, a);
    }
  }

  /** One end of the linked stretch goes to the one end of the other, and the other end to the other; and both
      back again. */
  lemma EndsMeetEnds(here: Rect, there: Rect, link: EdgeLink, cursor: Point, peerCursor: Point)
    requires Linkable(here, there, link)
    ensures var a0, a1 := StretchFrom(here, link.localSide, link.localRange), StretchTo(here, link.localSide, link.localRange);
            var b0, b1 := StretchFrom(there, link.remoteSide, link.remoteRange), StretchTo(there, link.remoteSide, link.remoteRange);
            var entry := AlongAxis(link.remoteSide, EntryPoint(PlacePeer(here, there, link), cursor));
            var home := AlongAxis(link.localSide, ReturnPoint(PlacePeer(here, there, link), peerCursor));
            && (AlongAxis(link.localSide, cursor) == a0 ==> entry == b0) && (AlongAxis(link.localSide, cursor) == a1 ==> entry == b1)
            && (AlongAxis(link.remoteSide, peerCursor) == b0 ==> home == a0) && (AlongAxis(link.remoteSide, peerCursor) == b1 ==> home == a1)
  {
    var a0, a1 := StretchFrom(here, link.localSide, link.localRange), StretchTo(here, link.localSide, link.localRange);
    var b0, b1 := StretchFrom(there, link.remoteSide, link.remoteRange), StretchTo(there, link.remoteSide, link.remoteRange);
    StretchHasLength(here, link.localSide, link.localRange);
    StretchHasLength(there, link.remoteSide, link.remoteRange);
    EntryIsInProportion(here, there, link, cursor);
    ReturnIsInProportion(here, there, link, peerCursor);
    EndsOfProportion(Nearest(AlongAxis(link.localSide, cursor), a0, a1), a0, a1,
                     AlongAxis(link.remoteSide, EntryPoint(PlacePeer(here, there, link), cursor)), b0, b1);
    EndsOfProportion(Nearest(AlongAxis(link.remoteSide, peerCursor), b0, b1), b0, b1,
                     AlongAxis(link.localSide, ReturnPoint(PlacePeer(here, there, link), peerCursor)), a0, a1);
  }

  /** Where the two stretches are as long and run the same way, the cursor goes straight across: where it
      comes in is level with where it left, seen in one and the same plane. */
  lemma StraightAcross(here: Rect, there: Rect, link: EdgeLink, cursor: Point)
    requires Linkable(here, there, link) && link.remoteSide.IsHorizontal() == link.localSide.IsHorizontal()
    requires StretchTo(here, link.localSide, link.localRange) - StretchFrom(here, link.localSide, link.localRange)
          == StretchTo(there, link.remoteSide, link.remoteRange) - StretchFrom(there, link.remoteSide, link.remoteRange)
    ensures var placed := PlacePeer(here, there, link);
            AlongAxis(link.localSide, placed.ToLocal(EntryPoint(placed, cursor)))
            == Nearest(AlongAxis(link.localSide, cursor), StretchFrom(here, link.localSide, link.localRange),
                       StretchTo(here, link.localSide, link.localRange))
  {
    var a0, a1 := StretchFrom(here, link.localSide, link.localRange), StretchTo(here, link.localSide, link.localRange);
    var b0, b1 := StretchFrom(there, link.remoteSide, link.remoteRange), StretchTo(there, link.remoteSide, link.remoteRange);
    StretchHasLength(here, link.localSide, link.localRange);
    EntryIsInProportion(here, there, link, cursor);
    EndsOfProportion(Nearest(AlongAxis(link.localSide, cursor), a0, a1), a0, a1,
                     AlongAxis(link.remoteSide, EntryPoint(PlacePeer(here, there, link), cursor)), b0, b1);
    StretchesAreAligned(here, there, link);
  }

  /** The other machine's box is placed so that the two stretches begin level. */
  lemma StretchesAreAligned(here: Rect, there: Rect, link: EdgeLink)
    requires link.remoteSide.IsHorizontal() == link.localSide.IsHorizontal()
    ensures var offset := PlacePeer(here, there, link).offset;
            AlongAxis(link.localSide, offset)
            == StretchFrom(here, link.localSide, link.localRange) - StretchFrom(there, link.remoteSide, link.remoteRange)
  {
  }

  // ---- At an edge ----

  /** How far a point is beyond a side of a rectangle; less than nothing if it is inside. */
  function Beyond(bounds: Rect, side: Side, p: Point): real {
    match side
    case Left => bounds.x - p.x
    case Right => p.x - (bounds.x + bounds.width)
    case Top => bounds.y - p.y
    case Bottom => p.y - (bounds.y + bounds.height)
  }

  /** An edge is hit from anywhere beyond it, and from `tolerance` inside, along its whole length and `tolerance` more. */
  lemma EdgeIsHitIff(bounds: Rect, side: Side, p: Point, tolerance: real)
    ensures HitsEdge(bounds, side, p, tolerance)
       <==> Beyond(bounds, side, p) >= -tolerance
            && EdgeStart(bounds, side) - tolerance <= AlongAxis(side, p) <= EdgeStart(bounds, side) + EdgeLength(bounds, side) + tolerance
  {
  }

  /** A movement is outward if it takes any point further beyond the side. */
  lemma OutwardIffFurtherBeyond(bounds: Rect, side: Side, p: Point, dx: real, dy: real)
    ensures IsOutward(side, dx, dy) <==> Beyond(bounds, side, p) < Beyond(bounds, side, Point(p.x + dx, p.y + dy))
  {
  }

  /** Both landings are twelve pixels inside their edge. */
  lemma LandingsAreInside(here: Rect, there: Rect, link: EdgeLink, cursor: Point, peerCursor: Point)
    ensures Beyond(there, link.remoteSide, EntryPoint(PlacePeer(here, there, link), cursor)) == -12.0
    ensures Beyond(here, link.localSide, ReturnPoint(PlacePeer(here, there, link), peerCursor)) == -12.0
  {
    PeerCoordinatesOfAnInsetPoint(
      here, there, link, MapFraction(FractionAlong(here, link.localSide, cursor), link.localRange, link.remoteRange));
  }

  /** The other machine's box touches the linked side from outside. */
  lemma BoxTouchesTheSide(here: Rect, there: Rect, link: EdgeLink)
    ensures var box := PlacePeer(here, there, link).bounds;
            && box.width == there.width && box.height == there.height
            && (match link.localSide
                case Right => box.x == here.x + here.width
                case Left => box.x + box.width == here.x
                case Bottom => box.y == here.y + here.height
                case Top => box.y + box.height == here.y)
            && PlacePeer(here, there, link).ToLocal(Point(there.x, there.y)) == Point(box.x, box.y)
  {
  }
}
