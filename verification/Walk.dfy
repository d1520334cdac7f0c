/** Where a dog goes: the free step, the end of the road, and the way a command leads. */
module Walks {
  import opened Wrappers
  import opened Geometry
  import opened RoadIndices
  import opened Movement
  import opened Tiles
  import opened CollisionDetector
  import opened Dogs

  /* ---- the road under a dog ---- */

  /** The points of the line that roads join to `c`: from `first` to `second`, and no further. */
  ghost predicate Stretch(roads: seq<Road>, h: bool, line: Line, c: int, first: int, second: int) {
    && first <= c <= second
    && (forall e :: first <= e < second ==> ScanEdge(roads, h, line, e))
    && !ScanEdge(roads, h, line, first - 1) && !ScanEdge(roads, h, line, second)
  }

  lemma StretchUnique(roads: seq<Road>, h: bool, line: Line, c: int, f: Fragment, g: Fragment)
    requires Stretch(roads, h, line, c, f.first, f.second) && Stretch(roads, h, line, c, g.first, g.second)
    ensures f == g
  {
    assert f.first < g.first ==> ScanEdge(roads, h, line, g.first - 1);
    assert g.first < f.first ==> ScanEdge(roads, h, line, f.first - 1);
  }

  lemma EdgeHasPoints(roads: seq<Road>, h: bool, line: Line, c: int)
    requires ScanEdge(roads, h, line, c)
    ensures ScanPoint(roads, h, line, c) && ScanPoint(roads, h, line, c + 1)
  {
  }

  /** A stretch that the index finds is the stretch of the roads. */
  lemma FoundStretch(lines: Lines, roads: seq<Road>, h: bool, line: Line, c: int)
    requires LinesMatch(lines, roads, h) && LineLookup(lines, line, c).Some?
    ensures var f := LineLookup(lines, line, c).value; Stretch(roads, h, line, c, f.first, f.second)
  {
    LineLookupIsScan(lines, roads, h, line, c);
    var f := LineLookup(lines, line, c).value;
    assert f.Has(c) by {
      assert ScanJoins(roads, h, line, c, c);
    }
    assert ScanJoins(roads, h, line, c, f.first) && ScanJoins(roads, h, line, c, f.second);
  }

  /** Where no road runs along the line, the stretch is the point alone. */
  lemma LonePoint(lines: Lines, roads: seq<Road>, h: bool, line: Line, c: int)
    requires LinesMatch(lines, roads, h) && LineLookup(lines, line, c).None?
    ensures Stretch(roads, h, line, c, c, c)
  {
    LineLookupIsScan(lines, roads, h, line, c);
    if ScanEdge(roads, h, line, c) {
      EdgeHasPoints(roads, h, line, c);
    }
    if ScanEdge(roads, h, line, c - 1) {
      EdgeHasPoints(roads, h, line, c - 1);
    }
  }

  /** Every point on a road has its stretches. */
  lemma SpanIsStretch(ix: Index, roads: seq<Road>, cell: Point)
    requires Represents(ix, roads) && OnSomeRoad(roads, cell)
    ensures SpanX(ix, cell).Some?
    ensures var f := SpanX(ix, cell).value; Stretch(roads, true, Line(cell.y), cell.x, f.first, f.second)
  {
    IndexAgreesWithScan(ix, roads, cell);
    if LineLookup(ix.horizontal, Line(cell.y), cell.x).Some? {
      FoundStretch(ix.horizontal, roads, true, Line(cell.y), cell.x);
    } else {
      LonePoint(ix.horizontal, roads, true, Line(cell.y), cell.x);
    }
  }

  lemma SwappedIsStretch(ix: Index, roads: seq<Road>, cell: Point)
    requires Represents(ix, roads) && OnSomeRoad(roads, cell)
    ensures SpanX(SwapIndex(ix), Point(cell.y, cell.x)).Some?
    ensures var f := SpanX(SwapIndex(ix), Point(cell.y, cell.x)).value;
      Stretch(roads, false, Line(cell.x), cell.y, f.first, f.second)
  {
    IndexAgreesWithScan(ix, roads, cell);
    if LineLookup(ix.vertical, Line(cell.x), cell.y).Some? {
      FoundStretch(ix.vertical, roads, false, Line(cell.x), cell.y);
    } else {
      LonePoint(ix.vertical, roads, false, Line(cell.x), cell.y);
    }
  }

  /* ---- one step ---- */

  /** A walk of `t` milliseconds at speed `v` from `x`, on a stretch: speed times time, if that ends on the road;
      else to the edge of the road on the side it runs to, or nowhere from beyond that edge, and then at rest. */
  predicate WalksTo(x: real, v: real, t: nat, first: int, second: int, end: real, left: real) {
    var goal := x + v * (t as real / 1000.0);
    if v >= 0.0 then
      if goal <= second as real + 0.4 || goal <= x then end == goal && left == v
      else end == (if x <= second as real + 0.4 then second as real + 0.4 else x) && left == 0.0
    else
      if goal >= first as real - 0.4 || goal >= x then end == goal && left == v
      else end == (if x >= first as real - 0.4 then first as real - 0.4 else x) && left == 0.0
  }

  lemma SlideWalks(f: Fragment, x: real, v: real, t: nat, step: real, end: real, left: real)
    requires step == v * Seconds(t) && (end, left) == Slide(Some(f), x, v, step)
    ensures WalksTo(x, v, t, f.first, f.second, end, left)
  {
    TimeSign(v, t);
  }

  lemma RowBy(ix: Index, b: Body, o: Vec, f: Fragment, end: Body)
    requires b.speed.y == 0.0 && o.y == 0.0 && SpanX(ix, CellOf(b.pos)) == Some(f) && end == MoveBy(ix, b, o)
    ensures end.pos.y == b.pos.y && end.speed.y == 0.0
    ensures (end.pos.x, end.speed.x) == Slide(Some(f), b.pos.x, b.speed.x, o.x)
  {
    MoveAlongRow(ix, b, o.x);
  }

  lemma ColumnBy(ix: Index, b: Body, o: Vec, f: Fragment, end: Body)
    requires b.speed.x == 0.0 && o.x == 0.0 && SpanX(SwapIndex(ix), CellOf(Swap(b.pos))) == Some(f)
    requires end == MoveBy(ix, b, o)
    ensures end.pos.x == b.pos.x && end.speed.x == 0.0
    ensures (end.pos.y, end.speed.y) == Slide(Some(f), b.pos.y, b.speed.y, o.y)
  {
    MoveSwapped(ix, b, o);
    RowBy(SwapIndex(ix), SwapBody(b), Swap(o), f, SwapBody(end));
  }

  lemma OffsetAlong(v: Vec, t: int) returns (o: Vec)
    ensures o == Offset(v, t) && o.x == v.x * Seconds(t) && o.y == v.y * Seconds(t)
    ensures (v.x == 0.0 ==> o.x == 0.0) && (v.y == 0.0 ==> o.y == 0.0)
  {
    o := Offset(v, t);
    OffsetOf(v, t);
  }

  lemma RowIsSlide(ix: Index, b: Body, t: int, f: Fragment, end: Body) returns (step: real)
    requires b.speed.y == 0.0 && SpanX(ix, CellOf(b.pos)) == Some(f) && end == MoveBody(ix, b, t)
    ensures end.pos.y == b.pos.y && end.speed.y == 0.0
    ensures step == b.speed.x * Seconds(t)
    ensures (end.pos.x, end.speed.x) == Slide(Some(f), b.pos.x, b.speed.x, step)
  {
    var o := OffsetAlong(b.speed, t);
    step := o.x;
    RowBy(ix, b, o, f, end);
  }

  /** The end of a step along a row, from the stretch. */
  predicate RowEnd(b: Body, t: nat, f: Fragment, end: Body) {
    && end.pos.y == b.pos.y && end.speed.y == 0.0
    && WalksTo(b.pos.x, b.speed.x, t, f.first, f.second, end.pos.x, end.speed.x)
  }

  predicate ColumnEnd(b: Body, t: nat, f: Fragment, end: Body) {
    && end.pos.x == b.pos.x && end.speed.x == 0.0
    && WalksTo(b.pos.y, b.speed.y, t, f.first, f.second, end.pos.y, end.speed.y)
  }

  lemma RowGoes(ix: Index, b: Body, t: nat, f: Fragment, end: Body)
    requires b.speed.y == 0.0 && SpanX(ix, CellOf(b.pos)) == Some(f) && end == MoveBody(ix, b, t)
    ensures RowEnd(b, t, f, end)
  {
    var step := RowIsSlide(ix, b, t, f, end);
    SlideWalks(f, b.pos.x, b.speed.x, t, step, end.pos.x, end.speed.x);
  }

  /** A body that runs along a row of the road map, in either direction. */
  lemma RowWalk(ix: Index, roads: seq<Road>, b: Body, t: nat, first: int, second: int)
    requires Represents(ix, roads) && OnRoad(roads, b) && b.speed.y == 0.0
    requires Stretch(roads, true, Line(CellOf(b.pos).y), CellOf(b.pos).x, first, second)
    ensures RowEnd(b, t, Fragment(first, second), MoveBody(ix, b, t))
  {
    var cell, f := CellOf(b.pos), Fragment(first, second);
    SpanIsStretch(ix, roads, cell);
    StretchUnique(roads, true, Line(cell.y), cell.x, SpanX(ix, cell).value, f);
    RowGoes(ix, b, t, f, MoveBody(ix, b, t));
  }

  lemma ColumnIsSlide(ix: Index, b: Body, t: int, f: Fragment, end: Body) returns (step: real)
    requires b.speed.x == 0.0 && SpanX(SwapIndex(ix), CellOf(Swap(b.pos))) == Some(f) && end == MoveBody(ix, b, t)
    ensures end.pos.x == b.pos.x && end.speed.x == 0.0
    ensures step == b.speed.y * Seconds(t)
    ensures (end.pos.y, end.speed.y) == Slide(Some(f), b.pos.y, b.speed.y, step)
  {
    var o := OffsetAlong(b.speed, t);
    step := o.y;
    ColumnBy(ix, b, o, f, end);
  }

  lemma ColumnGoes(ix: Index, b: Body, t: nat, f: Fragment, end: Body)
    requires b.speed.x == 0.0 && SpanX(SwapIndex(ix), CellOf(Swap(b.pos))) == Some(f) && end == MoveBody(ix, b, t)
    ensures ColumnEnd(b, t, f, end)
  {
    var step := ColumnIsSlide(ix, b, t, f, end);
    SlideWalks(f, b.pos.y, b.speed.y, t, step, end.pos.y, end.speed.y);
  }

  /** And along a column. */
  lemma ColumnWalk(ix: Index, roads: seq<Road>, b: Body, t: nat, first: int, second: int)
    requires Represents(ix, roads) && OnRoad(roads, b) && b.speed.x == 0.0
    requires Stretch(roads, false, Line(CellOf(b.pos).x), CellOf(b.pos).y, first, second)
    ensures ColumnEnd(b, t, Fragment(first, second), MoveBody(ix, b, t))
  {
    var cell, f := CellOf(b.pos), Fragment(first, second);
    SwappedIsStretch(ix, roads, cell);
    StretchUnique(roads, false, Line(cell.x), cell.y, SpanX(SwapIndex(ix), CellOf(Swap(b.pos))).value, f);
    ColumnGoes(ix, b, t, f, MoveBody(ix, b, t));
  }

  /** A body off every road stays where it is. */
  lemma OffRoadStays(ix: Index, roads: seq<Road>, b: Body, t: int)
    requires Represents(ix, roads) && !OnRoad(roads, b)
    ensures MoveBody(ix, b, t).pos == b.pos
  {
    IndexAgreesWithScan(ix, roads, CellOf(b.pos));
  }
}
