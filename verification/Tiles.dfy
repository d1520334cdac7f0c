/** The client's tile grid, and its agreement with the server's road index and movement. */
module Tiles {
  import opened Wrappers
  import opened Geometry
  import opened RoadIndices
  import opened Movement

  datatype Tile = Tile(road: bool, u: bool, r: bool, d: bool, l: bool)

  const BLANK := Tile(false, false, false, false, false)

  datatype Building = Building(x: int, y: int, w: int, h: int)

  /** What a tile should show, by a scan of the roads around it. */
  ghost function TileAt(roads: seq<Road>, p: Point): Tile {
    Tile(OnSomeRoad(roads, p),
         ScanEdge(roads, false, Line(p.x), p.y - 1),
         ScanEdge(roads, true, Line(p.y), p.x),
         ScanEdge(roads, false, Line(p.x), p.y),
         ScanEdge(roads, true, Line(p.y), p.x - 1))
  }

  /* ---- bounds of the grid ---- */

  function Least(s: seq<int>): (r: int)
    requires s != []
    ensures r in s && forall v :: v in s ==> r <= v
  {
    assert s == [s[0]] + s[1..];
    if |s| == 1 then s[0] else Min(s[0], Least(s[1..]))
  }

  function Greatest(s: seq<int>): (r: int)
    requires s != []
    ensures r in s && forall v :: v in s ==> v <= r
  {
    assert s == [s[0]] + s[1..];
    if |s| == 1 then s[0] else Max(s[0], Greatest(s[1..]))
  }

  datatype Bounds = Bounds(xmin: int, xmax: int, ymin: int, ymax: int) {
    predicate Contains(p: Point) { xmin <= p.x <= xmax && ymin <= p.y <= ymax }
  }

  function Each<T>(items: seq<T>, f: T -> int): (r: seq<int>)
    ensures |r| == |items| && forall i :: 0 <= i < |items| ==> r[i] == f(items[i])
  {
    seq(|items|, i requires 0 <= i < |items| => f(items[i]))
  }

  function XMins(roads: seq<Road>, buildings: seq<Building>): seq<int> {
    Each(roads, (r: Road) => Min(r.start.x, r.end.x)) + Each(buildings, (b: Building) => b.x)
  }

  function XMaxs(roads: seq<Road>, buildings: seq<Building>): seq<int> {
    Each(roads, (r: Road) => Max(r.start.x, r.end.x)) + Each(buildings, (b: Building) => b.x + b.w)
  }

  function YMins(roads: seq<Road>, buildings: seq<Building>): seq<int> {
    Each(roads, (r: Road) => Min(r.start.y, r.end.y)) + Each(buildings, (b: Building) => b.y)
  }

  function YMaxs(roads: seq<Road>, buildings: seq<Building>): seq<int> {
    Each(roads, (r: Road) => Max(r.start.y, r.end.y)) + Each(buildings, (b: Building) => b.y + b.h)
  }

  /** An empty map has infinite bounds in the program and so no tiles; any empty bounds stand for them. */
  function BoundsOf(roads: seq<Road>, buildings: seq<Building>): Bounds {
    if roads == [] && buildings == [] then Bounds(0, -1, 0, -1)
    else
      Bounds(Least(XMins(roads, buildings)), Greatest(XMaxs(roads, buildings)),
             Least(YMins(roads, buildings)), Greatest(YMaxs(roads, buildings)))
  }

  /** Every grid point of every road is inside the grid, so every write is in bounds. */
  lemma RoadsInBounds(roads: seq<Road>, buildings: seq<Building>, k: nat, p: Point)
    requires k < |roads| && roads[k].Covers(p)
    ensures BoundsOf(roads, buildings).Contains(p)
  {
    assert XMins(roads, buildings)[k] in XMins(roads, buildings);
    assert XMaxs(roads, buildings)[k] in XMaxs(roads, buildings);
    assert YMins(roads, buildings)[k] in YMins(roads, buildings);
    assert YMaxs(roads, buildings)[k] in YMaxs(roads, buildings);
  }

  /** A grid that holds the ends of every road and the corners of every building. */
  ghost predicate HoldsAll(b: Bounds, roads: seq<Road>, buildings: seq<Building>) {
    && (forall r :: r in roads ==> b.Contains(r.start) && b.Contains(r.end))
    && (forall h :: h in buildings ==> b.Contains(Point(h.x, h.y)) && b.Contains(Point(h.x + h.w, h.y + h.h)))
  }

  /** The grid is the least one that holds them; a building's size is not negative. */
  lemma BoundsAreLeast(roads: seq<Road>, buildings: seq<Building>, c: Bounds)
    requires forall h :: h in buildings ==> h.w >= 0 && h.h >= 0
    ensures HoldsAll(BoundsOf(roads, buildings), roads, buildings)
    ensures HoldsAll(c, roads, buildings) && (roads != [] || buildings != []) ==>
      var b := BoundsOf(roads, buildings);
      c.xmin <= b.xmin && b.xmax <= c.xmax && c.ymin <= b.ymin && b.ymax <= c.ymax
  {
    forall k: nat | k < |roads|
      ensures var b := BoundsOf(roads, buildings); b.Contains(roads[k].start) && b.Contains(roads[k].end)
    {
      RoadsInBounds(roads, buildings, k, roads[k].start);
      RoadsInBounds(roads, buildings, k, roads[k].end);
    }
    forall h | h in buildings ensures var b := BoundsOf(roads, buildings);
      b.Contains(Point(h.x, h.y)) && b.Contains(Point(h.x + h.w, h.y + h.h))
    {
      BuildingInBounds(roads, buildings, h);
    }
    if HoldsAll(c, roads, buildings) && (roads != [] || buildings != []) {
      BoundsWithin(roads, buildings, c);
    }
  }

  lemma BuildingAcross(roads: seq<Road>, buildings: seq<Building>, i: nat)
    requires i < |buildings|
    ensures var b := BoundsOf(roads, buildings); b.xmin <= buildings[i].x && buildings[i].x + buildings[i].w <= b.xmax
  {
    assert XMins(roads, buildings)[|roads| + i] in XMins(roads, buildings);
    assert XMaxs(roads, buildings)[|roads| + i] in XMaxs(roads, buildings);
  }

  lemma BuildingDown(roads: seq<Road>, buildings: seq<Building>, i: nat)
    requires i < |buildings|
    ensures var b := BoundsOf(roads, buildings); b.ymin <= buildings[i].y && buildings[i].y + buildings[i].h <= b.ymax
  {
    assert YMins(roads, buildings)[|roads| + i] in YMins(roads, buildings);
    assert YMaxs(roads, buildings)[|roads| + i] in YMaxs(roads, buildings);
  }

  lemma BuildingInBounds(roads: seq<Road>, buildings: seq<Building>, h: Building)
    requires h in buildings && h.w >= 0 && h.h >= 0
    ensures var b := BoundsOf(roads, buildings); b.Contains(Point(h.x, h.y)) && b.Contains(Point(h.x + h.w, h.y + h.h))
  {
    var i :| 0 <= i < |buildings| && buildings[i] == h;
    BuildingAcross(roads, buildings, i);
    BuildingDown(roads, buildings, i);
  }

  lemma BoundsWithin(roads: seq<Road>, buildings: seq<Building>, c: Bounds)
    requires (roads != [] || buildings != []) && HoldsAll(c, roads, buildings)
    ensures var b := BoundsOf(roads, buildings);
      c.xmin <= b.xmin && b.xmax <= c.xmax && c.ymin <= b.ymin && b.ymax <= c.ymax
  {
    assert forall v :: v in XMins(roads, buildings) ==> c.xmin <= v;
    assert forall v :: v in XMaxs(roads, buildings) ==> v <= c.xmax;
    assert forall v :: v in YMins(roads, buildings) ==> c.ymin <= v;
    assert forall v :: v in YMaxs(roads, buildings) ==> v <= c.ymax;
  }

  /* ---- painting ---- */

  function Low(r: Road): int { FragmentOf(r).first }

  function High(r: Road): int { FragmentOf(r).second }

  function Coordinate(r: Road, p: Point): int { if r.IsHorizontal() then p.x else p.y }

  predicate PaintedUpTo(r: Road, z: int, p: Point) { r.Covers(p) && Coordinate(r, p) < z }

  /** A tile after the painting of road `r` has reached coordinate `z`. */
  function Painted(t: Tile, r: Road, z: int, p: Point): Tile {
    if !PaintedUpTo(r, z, p) then t
    else
      var (c, h) := (Coordinate(r, p), r.IsHorizontal());
      Tile(true,
           t.u || (!h && c != Low(r)),
           t.r || (h && c != High(r)),
           t.d || (!h && c != High(r)),
           t.l || (h && c != Low(r)))
  }

  lemma LowHigh(r: Road)
    ensures r.IsHorizontal() ==> Low(r) == Min(r.start.x, r.end.x) && High(r) == Max(r.start.x, r.end.x)
    ensures !r.IsHorizontal() ==> Low(r) == Min(r.start.y, r.end.y) && High(r) == Max(r.start.y, r.end.y)
  {
  }

  function Either(s: Tile, t: Tile): Tile { Tile(s.road || t.road, s.u || t.u, s.r || t.r, s.d || t.d, s.l || t.l) }

  lemma OneRoad(r: Road, p: Point)
    ensures TileAt([r], p) == Painted(BLANK, r, High(r) + 1, p)
  {
    LowHigh(r);
    AddRoad([], r, true, Line(p.y), p.x);
    AddRoad([], r, true, Line(p.y), p.x - 1);
    AddRoad([], r, false, Line(p.x), p.y);
    AddRoad([], r, false, Line(p.x), p.y - 1);
    assert r in [r];
  }

  lemma OneMoreRoad(roads: seq<Road>, r: Road, p: Point)
    ensures TileAt(roads + [r], p) == Either(TileAt(roads, p), TileAt([r], p))
  {
    AddRoad(roads, r, true, Line(p.y), p.x);
    AddRoad(roads, r, true, Line(p.y), p.x - 1);
    AddRoad(roads, r, false, Line(p.x), p.y);
    AddRoad(roads, r, false, Line(p.x), p.y - 1);
    assert r in [r];
  }

  /** Painting a whole road on top of what the roads before it show gives what they all show. */
  lemma PaintedRoad(roads: seq<Road>, k: nat, p: Point)
    requires k < |roads|
    ensures Painted(TileAt(roads[..k], p), roads[k], High(roads[k]) + 1, p) == TileAt(roads[..k + 1], p)
  {
    assert roads[..k + 1] == roads[..k] + [roads[k]];
    OneMoreRoad(roads[..k], roads[k], p);
    OneRoad(roads[k], p);
  }

  lemma AddRoad(roads: seq<Road>, r: Road, h: bool, line: Line, c: int)
    ensures ScanEdge(roads + [r], h, line, c) <==> (ScanEdge(roads, h, line, c) || ScanEdge([r], h, line, c))
    ensures ScanEdge([r], h, line, c) <==>
      (r.IsHorizontal() == h && r.Covers(OnLine(h, line, c)) && r.Covers(OnLine(h, line, c + 1)))
  {
    assert r in [r];
  }

  /** The three assignments of the inner loop at one point. */
  function PaintPoint(t: Tile, h: bool, first: bool, last: bool): Tile {
    Tile(true, t.u || (!h && !first), t.r || (h && !last), t.d || (!h && !last), t.l || (h && !first))
  }

  function PointAt(r: Road, z: int): Point {
    if r.IsHorizontal() then Point(z, r.start.y) else Point(r.start.x, z)
  }

  lemma PaintNextPoint(t: Tile, r: Road, z: int, p: Point)
    requires Low(r) <= z <= High(r)
    ensures r.Covers(PointAt(r, z))
    ensures Painted(t, r, z + 1, p) ==
        if p == PointAt(r, z) then PaintPoint(Painted(t, r, z, p), r.IsHorizontal(), z == Low(r), z == High(r))
        else Painted(t, r, z, p)
  {
    LowHigh(r);
  }

  class GameMap {
    var tiles: array2<Tile>
    var bounds: Bounds

    constructor ()
      ensures tiles.Length0 == tiles.Length1 == 0 && fresh(tiles)
    {
      tiles := new Tile[0, 0]((i, j) => BLANK);
      bounds := Bounds(0, -1, 0, -1);
    }

    /** The grid has one tile for each point within the bounds. */
    ghost predicate FitsBounds()
      reads this
    {
      tiles.Length0 == Max(0, bounds.ymax - bounds.ymin + 1) && tiles.Length1 == Max(0, bounds.xmax - bounds.xmin + 1)
    }

    function Get(p: Point): Tile
      requires FitsBounds() && bounds.Contains(p)
      reads this, tiles
    {
      tiles[p.y - bounds.ymin, p.x - bounds.xmin]
    }

    /** `gameLoadMap`. */
    method Load(roads: seq<Road>, buildings: seq<Building>)
      modifies this
      ensures fresh(tiles) && FitsBounds() && bounds == BoundsOf(roads, buildings)
      ensures forall p :: bounds.Contains(p) ==> Get(p) == TileAt(roads, p)
    {
      bounds := BoundsOf(roads, buildings);
      tiles := new Tile[Max(0, bounds.ymax - bounds.ymin + 1), Max(0, bounds.xmax - bounds.xmin + 1)]((i, j) => BLANK);
      for k := 0 to |roads|
        invariant fresh(tiles) && FitsBounds() && bounds == BoundsOf(roads, buildings)
        invariant forall p :: bounds.Contains(p) ==> Get(p) == TileAt(roads[..k], p)
      {
        PaintRoad(roads, buildings, k);
        forall p | bounds.Contains(p) ensures Get(p) == TileAt(roads[..k + 1], p) {
          PaintedRoad(roads, k, p);
        }
      }
      assert roads[..|roads|] == roads;
    }

    /** The inner loop: one road, from its low end to its high end. */
    method PaintRoad(roads: seq<Road>, buildings: seq<Building>, k: nat)
      requires k < |roads| && FitsBounds() && bounds == BoundsOf(roads, buildings)
      modifies tiles
      ensures forall p :: bounds.Contains(p) ==> Get(p) == Painted(old(Get(p)), roads[k], High(roads[k]) + 1, p)
    {
      var r := roads[k];
      var z := Low(r);
      while z <= High(r)
        invariant Low(r) <= z <= High(r) + 1
        invariant forall p :: bounds.Contains(p) ==> Get(p) == Painted(old(Get(p)), r, z, p)
      {
        var here := PointAt(r, z);
        PaintNextPoint(BLANK, r, z, here);
        RoadsInBounds(roads, buildings, k, here);
        PaintTile(here, r.IsHorizontal(), z == Low(r), z == High(r));
        forall p | bounds.Contains(p) ensures Get(p) == Painted(old(Get(p)), r, z + 1, p) {
          PaintNextPoint(old(Get(p)), r, z, p);
        }
        z := z + 1;
      }
    }

    /** The body of the inner loop: the tile of one point of the road. */
    method PaintTile(here: Point, h: bool, first: bool, last: bool)
      requires FitsBounds() && bounds.Contains(here)
      modifies tiles
      ensures forall p :: bounds.Contains(p) ==>
        Get(p) == if p == here then PaintPoint(old(Get(p)), h, first, last) else old(Get(p))
    {
      var x, y := here.x - bounds.xmin, here.y - bounds.ymin;
      var tile := tiles[y, x].(road := true);
      if !first {
        tile := if h then tile.(l := true) else tile.(u := true);
      }
      if !last {
        tile := if h then tile.(r := true) else tile.(d := true);
      }
      tiles[y, x] := tile;
    }
  }

  /* ---- agreement with the server ---- */

  /** A tile is road iff the server finds a road there; an open edge between neighbours, seen from
      either side, means that the server's stretch through one also holds the other. */
  lemma ClientAgreesWithServer(ix: Index, roads: seq<Road>, p: Point)
    requires Represents(ix, roads)
    ensures TileAt(roads, p).road <==> Lookup(ix, p).horizontal.Some? || Lookup(ix, p).vertical.Some?
    ensures TileAt(roads, p).r == TileAt(roads, Point(p.x + 1, p.y)).l
    ensures TileAt(roads, p).d == TileAt(roads, Point(p.x, p.y + 1)).u
    ensures TileAt(roads, p).r <==>
      (Lookup(ix, p).horizontal.Some? && Lookup(ix, p).horizontal == Lookup(ix, Point(p.x + 1, p.y)).horizontal)
    ensures TileAt(roads, p).d <==>
      (Lookup(ix, p).vertical.Some? && Lookup(ix, p).vertical == Lookup(ix, Point(p.x, p.y + 1)).vertical)
  {
    IndexAgreesWithScan(ix, roads, p);
    OpenEdge(ix.horizontal, roads, true, Line(p.y), p.x);
    OpenEdge(ix.vertical, roads, false, Line(p.x), p.y);
  }

  lemma OpenEdge(lines: Lines, roads: seq<Road>, h: bool, line: Line, c: int)
    requires LinesMatch(lines, roads, h)
    ensures ScanEdge(roads, h, line, c) <==>
      (LineLookup(lines, line, c).Some? && LineLookup(lines, line, c) == LineLookup(lines, line, c + 1))
  {
    var here := LineLookup(lines, line, c);
    LineLookupIsScan(lines, roads, h, line, c);
    if ScanEdge(roads, h, line, c) {
      assert here.Some?;
      assert ScanJoins(roads, h, line, c, c + 1);
      LookupSame(lines, line, c, c + 1);
    }
    if here.Some? && here == LineLookup(lines, line, c + 1) {
      assert here.value.Has(c + 1);
      assert ScanJoins(roads, h, line, c, c + 1);
    }
  }

  /** Both cells in one row (column), and every tile between them open to the next. */
  ghost predicate JoinedByTiles(roads: seq<Road>, a: Point, b: Point) {
    || (a.y == b.y && forall x :: Min(a.x, b.x) <= x < Max(a.x, b.x) ==> TileAt(roads, Point(x, a.y)).r)
    || (a.x == b.x && forall y :: Min(a.y, b.y) <= y < Max(a.y, b.y) ==> TileAt(roads, Point(a.x, y)).d)
  }

  /** A server move only crosses cells that the client shows as joined. */
  lemma MovesFollowTiles(ix: Index, roads: seq<Road>, b: Body, t: int)
    requires Represents(ix, roads) && AxisAligned(b.speed)
    ensures JoinedByTiles(roads, CellOf(b.pos), CellOf(MoveBody(ix, b, t).pos))
  {
    RepresentsWellFormed(ix, roads);
    OffsetOf(b.speed, t);
    var o, end := Offset(b.speed, t), MoveBody(ix, b, t);
    if b.speed.y == 0.0 {
      MoveAlongRow(ix, b, o.x);
      SpanIsKept(ix, b.pos, end.pos.x);
      if Round(end.pos.x) != Round(b.pos.x) {
        LineLookupIsScan(ix.horizontal, roads, true, Line(Round(b.pos.y)), Round(b.pos.x));
        assert ScanJoins(roads, true, Line(Round(b.pos.y)), Round(b.pos.x), Round(end.pos.x));
      }
    } else {
      var sx, s := SwapIndex(ix), SwapBody(b);
      MoveSwapped(ix, b, o);
      MoveAlongRow(sx, s, o.y);
      SpanIsKept(sx, s.pos, end.pos.y);
      if Round(end.pos.y) != Round(b.pos.y) {
        LineLookupIsScan(ix.vertical, roads, false, Line(Round(b.pos.x)), Round(b.pos.y));
        assert ScanJoins(roads, false, Line(Round(b.pos.x)), Round(b.pos.y), Round(end.pos.y));
      }
    }
  }
}
