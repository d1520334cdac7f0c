/** Coordinates, roads and rounding shared by the server model and the client map. */
module Geometry {
  /** A point of the integer grid on which roads are laid. */
  datatype Point = Point(x: int, y: int)

  /** A position or a velocity; doubles are modelled as reals. */
  datatype Vec = Vec(x: real, y: real)

  const ZERO := Vec(0.0, 0.0)

  function Min(a: int, b: int): int { if a <= b then a else b }

  function Max(a: int, b: int): int { if a >= b then a else b }

  function MinReal(a: real, b: real): real { if a <= b then a else b }

  function MaxReal(a: real, b: real): real { if a >= b then a else b }

  /** A product that carries its sign rules with it. */
  function Times(x: real, y: real): (r: real)
    ensures x > 0.0 && y > 0.0 ==> r > 0.0
    ensures x < 0.0 && y < 0.0 ==> r > 0.0
    ensures x == 0.0 || y == 0.0 ==> r == 0.0
  {
    x * y
  }

  /** `std::clamp`. */
  function Clamp(v: real, lo: real, hi: real): (r: real)
    requires lo <= hi
    ensures lo <= r <= hi && (lo <= v <= hi ==> r == v)
  {
    if v < lo then lo else if hi < v then hi else v
  }

  /** `std::round`: to the nearest integer, halves away from zero. */
  function Round(v: real): (r: int)
    ensures v >= 0.0 ==> r as real - 0.5 <= v < r as real + 0.5
    ensures v < 0.0 ==> r as real - 0.5 < v <= r as real + 0.5
  {
    if v >= 0.0 then (v + 0.5).Floor else -(0.5 - v).Floor
  }

  lemma RoundMonotone(v: real, w: real)
    requires v <= w
    ensures Round(v) <= Round(w)
  {
    var a, b := Round(v), Round(w);
    assert a >= b + 1 ==> a as real >= b as real + 1.0;
  }

  /** Everything strictly within a half of an integer rounds to it. */
  lemma RoundNear(v: real, n: int)
    requires n as real - 0.5 < v < n as real + 0.5
    ensures Round(v) == n
  {
    var r := Round(v);
    assert (r as real) - 1.0 < n as real < (r as real) + 1.0;
  }

  lemma RoundBelow(v: real, hi: int)
    requires v < hi as real + 0.5
    ensures Round(v) <= hi
  {
    var r := Round(v);
    assert r >= hi + 1 ==> r as real >= hi as real + 1.0;
  }

  lemma RoundAbove(v: real, lo: int)
    requires lo as real - 0.5 < v
    ensures lo <= Round(v)
  {
    var r := Round(v);
    assert r <= lo - 1 ==> r as real <= lo as real - 1.0;
  }

  function CellOf(pos: Vec): Point { Point(Round(pos.x), Round(pos.y)) }

  /** A road as its two end points. */
  datatype Segment = Segment(start: Point, end: Point) {
    predicate IsHorizontal() { start.y == end.y }

    predicate IsVertical() { start.x == end.x }

    /** The same road with its ends in ascending order. */
    function Normalized(): (r: Segment)
      ensures {r.start, r.end} == {start, end}
      ensures IsHorizontal() ==> r.IsHorizontal() && r.start.x <= r.end.x
      ensures !IsHorizontal() ==> r.start.y <= r.end.y
    {
      if IsHorizontal() then
        if start.x > end.x then Segment(end, start) else this
      else
        if start.y > end.y then Segment(end, start) else this
    }

    /** Reference definition, by a scan of the road itself: the grid points on it. */
    predicate Covers(p: Point) {
      && Min(start.x, end.x) <= p.x <= Max(start.x, end.x)
      && Min(start.y, end.y) <= p.y <= Max(start.y, end.y)
    }
  }

  /** Both constructors of a road keep one coordinate fixed. */
  type Road = r: Segment | r.IsHorizontal() || r.IsVertical()
    witness Segment(Point(0, 0), Point(0, 0))

  /** Some road of the map passes through the grid point. */
  predicate OnSomeRoad(roads: seq<Road>, p: Point) {
    exists r :: r in roads && r.Covers(p)
  }

  /** `std::lerp` for a phase in [0, 1]. */
  function Lerp(a: real, b: real, phase: real): real { a + phase * (b - a) }
}
