/** Points, rectangles and sides of a desktop (crates/ud-core/src/geom.rs).
    Coordinates are exact reals; rounding of 64-bit floats is not modelled. */
module Geometry {
  import opened Wrappers

  datatype Point = Point(x: real, y: real)

  datatype Side = Left | Right | Top | Bottom {
    function Opposite(): Side {
      match this
      case Left => Right
      case Right => Left
      case Top => Bottom
      case Bottom => Top
    }

    /** The two sides that are crossed sideways. */
    predicate IsHorizontal() {
      Left? || Right?
    }
  }

  datatype Rect = Rect(x: real, y: real, width: real, height: real) {
    function RightEdge(): real { x + width }

    function BottomEdge(): real { y + height }

    predicate IsEmpty() {
      width <= 0.0 || height <= 0.0
    }

    function Union(other: Rect): Rect {
      var x0, y0 := Min(x, other.x), Min(y, other.y);
      var x1, y1 := Max(RightEdge(), other.RightEdge()), Max(BottomEdge(), other.BottomEdge());
      Rect(x0, y0, x1 - x0, y1 - y0)
    }

    /** The closed rectangle, all four edges included. */
    predicate Holds(p: Point) {
      x <= p.x <= RightEdge() && y <= p.y <= BottomEdge()
    }

    predicate Covers(inner: Rect) {
      x <= inner.x && y <= inner.y && inner.RightEdge() <= RightEdge() && inner.BottomEdge() <= BottomEdge()
    }
  }

  function Min(a: real, b: real): real {
    if a <= b then a else b
  }

  function Max(a: real, b: real): real {
    if a <= b then b else a
  }

  /** The union of the non-empty displays, or nothing when there are none. */
  function Hull(displays: seq<Rect>): Option<Rect> {
    if displays == [] then None
    else
      var last := displays[|displays| - 1];
      match Hull(displays[..|displays| - 1])
      case None => if last.IsEmpty() then None else Some(last)
      case Some(acc) => Some(if last.IsEmpty() then acc else acc.Union(last))
  }

  const DEFAULT_DESKTOP := Rect(0.0, 0.0, 1920.0, 1080.0)

  function DesktopBounds(displays: seq<Rect>): Rect {
    match Hull(displays)
    case None => DEFAULT_DESKTOP
    case Some(bounds) => bounds
  }

  /** Grows a rectangle display by display. */
  method FoldDesktop(displays: seq<Rect>) returns (bounds: Rect)
    ensures bounds == DesktopBounds(displays)
  {
    var acc: Option<Rect> := None;
    for i := 0 to |displays|
      invariant acc == Hull(displays[..i])
    {
      assert displays[..i + 1][..i] == displays[..i];
      if !displays[i].IsEmpty() {
        acc := if acc.None? then Some(displays[i]) else Some(acc.value.Union(displays[i]));
      }
    }
    assert displays[..|displays|] == displays;
    bounds := if acc.None? then DEFAULT_DESKTOP else acc.value;
  }

  /** The desktop is the smallest rectangle around its non-empty displays: a rectangle covers the
      desktop exactly when it covers every one of them. */
  lemma {:induction false} DesktopIsTheSmallestCover(displays: seq<Rect>, outer: Rect)
    requires exists i :: 0 <= i < |displays| && !displays[i].IsEmpty()
    ensures outer.Covers(DesktopBounds(displays))
       <==> forall i :: 0 <= i < |displays| && !displays[i].IsEmpty() ==> outer.Covers(displays[i])
    ensures !DesktopBounds(displays).IsEmpty()
  {
    HullIsTheSmallestCover(displays, outer);
  }

  lemma {:induction false} HullIsTheSmallestCover(displays: seq<Rect>, outer: Rect)
    ensures Hull(displays).None? <==> forall i :: 0 <= i < |displays| ==> displays[i].IsEmpty()
    ensures Hull(displays).Some? ==> !Hull(displays).value.IsEmpty()
    ensures Hull(displays).Some? ==>
      (outer.Covers(Hull(displays).value)
       <==> forall i :: 0 <= i < |displays| && !displays[i].IsEmpty() ==> outer.Covers(displays[i]))
  {
    if displays != [] {
      var rest := displays[..|displays| - 1];
      HullIsTheSmallestCover(rest, outer);
      assert forall i :: 0 <= i < |rest| ==> rest[i] == displays[i];
    }
  }
}
