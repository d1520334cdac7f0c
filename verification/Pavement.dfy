/** How close to a road a dog stays: half a road's width, unless it turned away from a centre line. */
module Pavements {
  import opened Wrappers
  import opened Geometry
  import opened RoadIndices
  import opened Movement

  /** Within half a road's width of some road. */
  predicate OnPavement(roads: seq<Road>, pos: Vec) {
    exists r :: r in roads && Near(r, pos, HALF_ROAD_WIDTH)
  }

  /* ---- a dog leaves the pavement ---- */

  function CrossRoads(): seq<Road> {
    [Segment(Point(10, 0), Point(10, 10)), Segment(Point(0, 5), Point(20, 5))]
  }

  function CrossIndex(): Index {
    Index(map[Line(5) := [Fragment(0, 20)]], map[Line(10) := [Fragment(0, 10)]])
  }

  lemma CrossIndexRepresents()
    ensures Represents(CrossIndex(), CrossRoads())
  {
    var ix, roads := CrossIndex(), CrossRoads();
    assert roads[0] in roads && roads[1] in roads;
    forall line, c
      ensures LineHas(ix.horizontal, line, c) <==> ScanPoint(roads, true, line, c)
      ensures LineHas(ix.vertical, line, c) <==> ScanPoint(roads, false, line, c)
      ensures LineHasEdge(ix.horizontal, line, c) <==> ScanEdge(roads, true, line, c)
      ensures LineHasEdge(ix.vertical, line, c) <==> ScanEdge(roads, false, line, c)
    {
      assert ScanPoint(roads, true, line, c) <==> (line.at == 5 && 0 <= c <= 20) by {
        assert roads[1].Covers(OnLine(true, line, c)) <==> (line.at == 5 && 0 <= c <= 20);
      }
      assert ScanPoint(roads, false, line, c) <==> (line.at == 10 && 0 <= c <= 10) by {
        assert roads[0].Covers(OnLine(false, line, c)) <==> (line.at == 10 && 0 <= c <= 10);
      }
      AppendCover([], Fragment(0, 20), c);
      AppendCover([], Fragment(0, 10), c);
      assert forall f: Fragment :: [] + [f] == [f];
    }
  }

  /** A dog can leave the pavement: down the vertical road, then along the crossing one. */
  lemma PavementCanBeLeft()
    ensures Represents(CrossIndex(), CrossRoads())
    ensures var end := Run(CrossIndex(), Body(SpawnPoint(CrossRoads(), false, 0, 0.0), ZERO), 1.0,
        [Command(Some(South)), Tick(5450), Command(Some(East)), Tick(5000)]);
      end.pos == Vec(15.0, 5.45) && !OnPavement(CrossRoads(), end.pos)
  {
    CrossIndexRepresents();
    var ix := CrossIndex();
    var b0 := Body(Vec(10.0, 0.0), Vec(0.0, 1.0));
    var b1 := Body(Vec(10.0, 5.45), Vec(0.0, 1.0));
    var b2 := b1.(speed := Vec(1.0, 0.0));
    var b3 := Body(Vec(15.0, 5.45), Vec(1.0, 0.0));
    RoundNear(10.0, 10);
    RoundNear(0.0, 0);
    RoundNear(5.45, 5);
    assert MoveBody(ix, b0, 5450) == b1;
    assert MoveBody(ix, b2, 5000) == b3;
    var inputs := [Command(Some(South)), Tick(5450), Command(Some(East)), Tick(5000)];
    var spawn := Body(SpawnPoint(CrossRoads(), false, 0, 0.0), ZERO);
    assert inputs[..3] == [Command(Some(South)), Tick(5450), Command(Some(East))];
    assert inputs[..3][..2] == [Command(Some(South)), Tick(5450)];
    assert inputs[..3][..2][..1] == [Command(Some(South))];
    assert Run(ix, spawn, 1.0, [Command(Some(South))]) == b0;
    assert Run(ix, spawn, 1.0, inputs[..3][..2]) == b1;
    assert Run(ix, spawn, 1.0, inputs[..3]) == b2;
  }

  /* ---- where the pavement is ---- */

  /** The side on which a coordinate is more than half a road's width off the centre of its cell. */
  function Side(v: real): int {
    if v > Round(v) as real + HALF_ROAD_WIDTH then 1
    else if v < Round(v) as real - HALF_ROAD_WIDTH then -1
    else 0
  }

  /** A road runs from the point to its neighbour on that side of the line. */
  ghost predicate EdgeOn(roads: seq<Road>, h: bool, line: Line, c: int, side: int) {
    ScanEdge(roads, h, line, if side > 0 then c else c - 1)
  }

  /** Paved at a cell, off its centre on the given sides. */
  ghost predicate PavedCell(roads: seq<Road>, cell: Point, sideX: int, sideY: int) {
    if sideX == 0 then
      if sideY == 0 then OnSomeRoad(roads, cell) else EdgeOn(roads, false, Line(cell.x), cell.y, sideY)
    else sideY == 0 && EdgeOn(roads, true, Line(cell.y), cell.x, sideX)
  }

  lemma NearCoversCell(r: Road, pos: Vec)
    ensures Near(r, pos, HALF_ROAD_WIDTH) <==>
      r.Covers(CellOf(pos))
      && (Side(pos.x) != 0 ==> r.Covers(Point(CellOf(pos).x + Side(pos.x), CellOf(pos).y)))
      && (Side(pos.y) != 0 ==> r.Covers(Point(CellOf(pos).x, CellOf(pos).y + Side(pos.y))))
  {
    if Near(r, pos, HALF_ROAD_WIDTH) {
      RoundAbove(pos.x, Min(r.start.x, r.end.x));
      RoundBelow(pos.x, Max(r.start.x, r.end.x));
      RoundAbove(pos.y, Min(r.start.y, r.end.y));
      RoundBelow(pos.y, Max(r.start.y, r.end.y));
    }
  }

  /** Being a straight line, a road that covers the cell and all needed neighbours leads off on one side only. */
  lemma NearPaves(roads: seq<Road>, r: Road, pos: Vec)
    requires r in roads && Near(r, pos, HALF_ROAD_WIDTH)
    ensures PavedCell(roads, CellOf(pos), Side(pos.x), Side(pos.y))
  {
    NearCoversCell(r, pos);
  }

  lemma PavedHasRoad(roads: seq<Road>, cell: Point, sideX: int, sideY: int) returns (r: Road)
    requires PavedCell(roads, cell, sideX, sideY) && -1 <= sideX <= 1 && -1 <= sideY <= 1
    ensures r in roads && r.Covers(cell)
    ensures sideX != 0 ==> r.Covers(Point(cell.x + sideX, cell.y))
    ensures sideY != 0 ==> r.Covers(Point(cell.x, cell.y + sideY))
  {
    if sideX != 0 {
      var c := if sideX > 0 then cell.x else cell.x - 1;
      r :| r in roads && r.IsHorizontal()
        && r.Covers(OnLine(true, Line(cell.y), c)) && r.Covers(OnLine(true, Line(cell.y), c + 1));
    } else if sideY != 0 {
      var c := if sideY > 0 then cell.y else cell.y - 1;
      r :| r in roads && !r.IsHorizontal()
        && r.Covers(OnLine(false, Line(cell.x), c)) && r.Covers(OnLine(false, Line(cell.x), c + 1));
    } else {
      r :| r in roads && r.Covers(cell);
    }
  }

  /** A position is paved iff its cell is on a road and, where it is off the centre, a road leads off on that
      side; off both centres it never is. */
  lemma OnPavementIff(roads: seq<Road>, pos: Vec)
    ensures OnPavement(roads, pos) <==> PavedCell(roads, CellOf(pos), Side(pos.x), Side(pos.y))
  {
    if r :| r in roads && Near(r, pos, HALF_ROAD_WIDTH) {
      NearPaves(roads, r, pos);
    }
    if PavedCell(roads, CellOf(pos), Side(pos.x), Side(pos.y)) {
      var r := PavedHasRoad(roads, CellOf(pos), Side(pos.x), Side(pos.y));
      NearCoversCell(r, pos);
    }
  }

  /* ---- when a move ends on the pavement ---- */

  /** An edge leads off a point of a line iff the index's stretch through the point goes on there. */
  lemma EdgeIsStretch(ix: Index, roads: seq<Road>, h: bool, line: Line, c: int, side: int)
    requires Represents(ix, roads) && (side == 1 || side == -1)
    ensures EdgeOn(roads, h, line, c, side) <==>
      LineLookup(ix.Lines(h), line, c).Some? && LineLookup(ix.Lines(h), line, c).value.Has(c + side)
  {
    LineLookupIsScan(ix.Lines(h), roads, h, line, c);
    assert ScanJoins(roads, h, line, c, c + side) <==> EdgeOn(roads, h, line, c, side);
    if EdgeOn(roads, h, line, c, side) {
      assert ScanPoint(roads, h, line, c);
    }
  }

  /** A dog that stands at `x` ends the step `o` within half a road's width of the stretch: it stands there
      already, or it stands beyond one end and the step brings it back. */
  predicate EndsWithin(f: Fragment, x: real, o: real) {
    && (x <= f.second as real + HALF_ROAD_WIDTH || x + o <= f.second as real + HALF_ROAD_WIDTH)
    && (f.first as real - HALF_ROAD_WIDTH <= x || f.first as real - HALF_ROAD_WIDTH <= x + o)
  }

  /** Where the clamped step ends. */
  function EndOf(f: Fragment, x: real, o: real): real {
    Clamp(x + o, MinReal(f.first as real - HALF_ROAD_WIDTH, x), MaxReal(f.second as real + HALF_ROAD_WIDTH, x))
  }

  /** The condition on a step along a line: in the middle of it the dog only must not stay beyond an end of
      the stretch; off the middle it must stop at a crossing road on its side. */
  ghost predicate StepPaved(roads: seq<Road>, h: bool, f: Fragment, x: real, o: real, across: real) {
    if Side(across) == 0 then EndsWithin(f, x, o)
    else Side(EndOf(f, x, o)) == 0 && EdgeOn(roads, !h, Line(Round(EndOf(f, x, o))), Round(across), Side(across))
  }

  lemma EndsWithinIff(f: Fragment, x: real, o: real)
    requires f.first <= f.second
    ensures EndsWithin(f, x, o) <==>
      f.first as real - HALF_ROAD_WIDTH <= EndOf(f, x, o) <= f.second as real + HALF_ROAD_WIDTH
  {
  }

  /** On a stretch that holds the cell, half a road's width beyond no end means that any side the position is
      off the centre is a side on which the stretch goes on. */
  lemma WithinIffGoesOn(f: Fragment, x: real)
    requires f.Has(Round(x))
    ensures f.first as real - HALF_ROAD_WIDTH <= x <= f.second as real + HALF_ROAD_WIDTH <==> f.Has(Round(x) + Side(x))
  {
  }

  /** The end of a step along a row, whatever the map. */
  lemma StepEnd(ix: Index, b: Body, o: real)
    requires ix.WellFormed() && b.speed.y == 0.0 && SpanX(ix, CellOf(b.pos)).Some?
    ensures var (f, end) := (SpanX(ix, CellOf(b.pos)).value, MoveBy(ix, b, Vec(o, 0.0)).pos);
      && end == Vec(EndOf(f, b.pos.x, o), b.pos.y)
      && SpanX(ix, CellOf(end)) == Some(f) && f.Has(Round(end.x))
  {
    MoveAlongRow(ix, b, o);
    StepKeepsSpan(ix, b, o);
    SpanHasCell(ix, CellOf(MoveBy(ix, b, Vec(o, 0.0)).pos));
  }

  lemma SpanHasCell(ix: Index, cell: Point)
    ensures SpanX(ix, cell).Some? ==> SpanX(ix, cell).value.Has(cell.x)
  {
  }

  lemma RowEnd(ix: Index, roads: seq<Road>, b: Body, t: int)
    requires Represents(ix, roads) && OnRoad(roads, b) && b.speed.y == 0.0
    ensures SpanX(ix, CellOf(b.pos)).Some?
    ensures var (f, end) := (SpanX(ix, CellOf(b.pos)).value, MoveBody(ix, b, t).pos);
      && end == Vec(EndOf(f, b.pos.x, Offset(b.speed, t).x), b.pos.y)
      && SpanX(ix, CellOf(end)) == Some(f) && f.Has(Round(end.x)) && OnSomeRoad(roads, CellOf(end))
  {
    RepresentsWellFormed(ix, roads);
    OnRoadIsSpan(ix, roads, b);
    OffsetOf(b.speed, t);
    StepEnd(ix, b, Offset(b.speed, t).x);
    MoveKeepsRoad(ix, roads, b, t);
  }

  /** When a move along a row ends on the pavement, for any dog on the road map. */
  lemma RowMovePaved(ix: Index, roads: seq<Road>, b: Body, t: int)
    requires Represents(ix, roads) && OnRoad(roads, b) && b.speed.y == 0.0
    ensures SpanX(ix, CellOf(b.pos)).Some?
    ensures OnPavement(roads, MoveBody(ix, b, t).pos) <==>
      StepPaved(roads, true, SpanX(ix, CellOf(b.pos)).value, b.pos.x, Offset(b.speed, t).x, b.pos.y)
  {
    RowEnd(ix, roads, b, t);
    var f, end := SpanX(ix, CellOf(b.pos)).value, MoveBody(ix, b, t).pos;
    OnPavementIff(roads, end);
    EndsWithinIff(f, b.pos.x, Offset(b.speed, t).x);
    WithinIffGoesOn(f, end.x);
    if Side(end.x) != 0 {
      EdgeIsStretch(ix, roads, true, Line(Round(end.y)), Round(end.x), Side(end.x));
    }
  }

  /* ---- columns ---- */

  /** How far a dog in this cell may go along its column. */
  function SpanY(ix: Index, cell: Point): Option<Fragment> { SpanX(SwapIndex(ix), Point(cell.y, cell.x)) }

  lemma ColumnStepEnd(ix: Index, b: Body, o: real)
    requires ix.WellFormed() && b.speed.x == 0.0 && SpanY(ix, CellOf(b.pos)).Some?
    ensures var (f, end) := (SpanY(ix, CellOf(b.pos)).value, MoveBy(ix, b, Vec(0.0, o)).pos);
      && end == Vec(b.pos.x, EndOf(f, b.pos.y, o))
      && SpanY(ix, CellOf(end)) == Some(f) && f.Has(Round(end.y))
  {
    MoveSwapped(ix, b, Vec(0.0, o));
    StepEnd(SwapIndex(ix), SwapBody(b), o);
  }

  lemma ColumnEnd(ix: Index, roads: seq<Road>, b: Body, t: int)
    requires Represents(ix, roads) && OnRoad(roads, b) && b.speed.x == 0.0
    ensures SpanY(ix, CellOf(b.pos)).Some?
    ensures var (f, end) := (SpanY(ix, CellOf(b.pos)).value, MoveBody(ix, b, t).pos);
      && end == Vec(b.pos.x, EndOf(f, b.pos.y, Offset(b.speed, t).y))
      && SpanY(ix, CellOf(end)) == Some(f) && f.Has(Round(end.y)) && OnSomeRoad(roads, CellOf(end))
  {
    RepresentsWellFormed(ix, roads);
    OnRoadIsSpan(ix, roads, b);
    SwappedSpan(ix, b);
    OffsetOf(b.speed, t);
    ColumnStepEnd(ix, b, Offset(b.speed, t).y);
    MoveKeepsRoad(ix, roads, b, t);
  }

  /** When a move along a column ends on the pavement, for any dog on the road map. */
  lemma ColumnMovePaved(ix: Index, roads: seq<Road>, b: Body, t: int)
    requires Represents(ix, roads) && OnRoad(roads, b) && b.speed.x == 0.0
    ensures SpanY(ix, CellOf(b.pos)).Some?
    ensures OnPavement(roads, MoveBody(ix, b, t).pos) <==>
      StepPaved(roads, false, SpanY(ix, CellOf(b.pos)).value, b.pos.y, Offset(b.speed, t).y, b.pos.x)
  {
    ColumnEnd(ix, roads, b, t);
    var f, end := SpanY(ix, CellOf(b.pos)).value, MoveBody(ix, b, t).pos;
    OnPavementIff(roads, end);
    EndsWithinIff(f, b.pos.y, Offset(b.speed, t).y);
    WithinIffGoesOn(f, end.y);
    if Side(end.y) != 0 {
      EdgeIsStretch(ix, roads, false, Line(Round(end.x)), Round(end.y), Side(end.y));
    }
  }

  /* ---- runs ---- */

  /** The condition on a tick: it speaks of the dog before the tick, the length of the tick and the roads. */
  ghost predicate TickPaved(ix: Index, roads: seq<Road>, b: Body, t: int) {
    var (cell, o) := (CellOf(b.pos), Offset(b.speed, t));
    if b.speed.y == 0.0 then
      SpanX(ix, cell).Some? && StepPaved(roads, true, SpanX(ix, cell).value, b.pos.x, o.x, b.pos.y)
    else
      SpanY(ix, cell).Some? && StepPaved(roads, false, SpanY(ix, cell).value, b.pos.y, o.y, b.pos.x)
  }

  lemma TickPavedIff(ix: Index, roads: seq<Road>, b: Body, t: int)
    requires Represents(ix, roads) && OnRoad(roads, b) && AxisAligned(b.speed)
    ensures OnPavement(roads, MoveBody(ix, b, t).pos) <==> TickPaved(ix, roads, b, t)
  {
    if b.speed.y == 0.0 {
      RowMovePaved(ix, roads, b, t);
    } else {
      ColumnMovePaved(ix, roads, b, t);
    }
  }

  lemma SpawnPaved(roads: seq<Road>, isRandom: bool, roadIndex: nat, phase: real)
    requires roadIndex < |roads| && 0.0 <= phase <= 1.0
    ensures OnPavement(roads, SpawnPoint(roads, isRandom, roadIndex, phase))
  {
    var r := if isRandom then roads[roadIndex] else roads[0];
    LerpBounds(r.start.x as real, r.end.x as real, phase);
    LerpBounds(r.start.y as real, r.end.y as real, phase);
    assert r in roads && Near(r, SpawnPoint(roads, isRandom, roadIndex, phase), HALF_ROAD_WIDTH);
  }

  /** The dog before input `i`. */
  function At(ix: Index, b: Body, dogSpeed: real, inputs: seq<Input>, i: nat): Body
    requires i <= |inputs|
  {
    Run(ix, b, dogSpeed, inputs[..i])
  }

  lemma NextAt(ix: Index, b: Body, dogSpeed: real, inputs: seq<Input>, i: nat)
    requires i < |inputs|
    ensures At(ix, b, dogSpeed, inputs, i + 1) == Step(ix, At(ix, b, dogSpeed, inputs, i), dogSpeed, inputs[i])
  {
    assert inputs[..i + 1][..i] == inputs[..i];
  }

  /** One input: a command leaves the dog where it is, and a tick keeps it on the pavement iff the condition holds. */
  lemma InputPaved(ix: Index, roads: seq<Road>, b: Body, dogSpeed: real, inputs: seq<Input>, i: nat)
    requires Represents(ix, roads) && OnRoad(roads, b) && AxisAligned(b.speed) && i < |inputs|
    ensures var now := At(ix, b, dogSpeed, inputs, i);
      OnPavement(roads, At(ix, b, dogSpeed, inputs, i + 1).pos) <==>
        if inputs[i].Tick? then TickPaved(ix, roads, now, inputs[i].length) else OnPavement(roads, now.pos)
  {
    NextAt(ix, b, dogSpeed, inputs, i);
    RunKeepsRoad(ix, roads, b, dogSpeed, inputs[..i]);
    if inputs[i].Tick? {
      TickPavedIff(ix, roads, At(ix, b, dogSpeed, inputs, i), inputs[i].length);
    }
  }

  lemma {:induction false} PavedUpTo(ix: Index, roads: seq<Road>, b: Body, dogSpeed: real, inputs: seq<Input>, n: nat)
    requires Represents(ix, roads) && OnRoad(roads, b) && AxisAligned(b.speed) && OnPavement(roads, b.pos)
    requires n <= |inputs|
    requires forall i :: 0 <= i < |inputs| && inputs[i].Tick? ==>
      TickPaved(ix, roads, At(ix, b, dogSpeed, inputs, i), inputs[i].length)
    ensures OnPavement(roads, At(ix, b, dogSpeed, inputs, n).pos)
  {
    if n > 0 {
      PavedUpTo(ix, roads, b, dogSpeed, inputs, n - 1);
      InputPaved(ix, roads, b, dogSpeed, inputs, n - 1);
    }
  }

  /** From any spawn: the dog is on the pavement all the time iff every tick meets the condition. */
  lemma RunPavedIff(ix: Index, roads: seq<Road>, isRandom: bool, roadIndex: nat, phase: real, dogSpeed: real,
                    inputs: seq<Input>)
    requires Represents(ix, roads) && roadIndex < |roads| && 0.0 <= phase <= 1.0
    ensures var b := Body(SpawnPoint(roads, isRandom, roadIndex, phase), ZERO);
      (forall i :: 0 <= i <= |inputs| ==> OnPavement(roads, At(ix, b, dogSpeed, inputs, i).pos))
      <==> (forall i :: 0 <= i < |inputs| && inputs[i].Tick? ==>
        TickPaved(ix, roads, At(ix, b, dogSpeed, inputs, i), inputs[i].length))
  {
    var b := Body(SpawnPoint(roads, isRandom, roadIndex, phase), ZERO);
    SpawnIsOnRoad(roads, isRandom, roadIndex, phase);
    SpawnPaved(roads, isRandom, roadIndex, phase);
    if forall i :: 0 <= i <= |inputs| ==> OnPavement(roads, At(ix, b, dogSpeed, inputs, i).pos) {
      forall i | 0 <= i < |inputs| && inputs[i].Tick?
        ensures TickPaved(ix, roads, At(ix, b, dogSpeed, inputs, i), inputs[i].length)
      {
        InputPaved(ix, roads, b, dogSpeed, inputs, i);
      }
    }
    if forall i :: 0 <= i < |inputs| && inputs[i].Tick? ==>
      TickPaved(ix, roads, At(ix, b, dogSpeed, inputs, i), inputs[i].length)
    {
      forall n | 0 <= n <= |inputs| ensures OnPavement(roads, At(ix, b, dogSpeed, inputs, n).pos) {
        PavedUpTo(ix, roads, b, dogSpeed, inputs, n);
      }
    }
  }

  /* ---- a rule for the player ---- */

  /** On the pavement and in the middle of a line, a dog is within half a road's width of the stretch. */
  lemma CentredWithin(ix: Index, roads: seq<Road>, h: bool, pos: Vec, f: Fragment)
    requires Represents(ix, roads) && OnPavement(roads, pos)
    requires (if h then SpanX(ix, CellOf(pos)) else SpanY(ix, CellOf(pos))) == Some(f)
    requires Side(if h then pos.y else pos.x) == 0
    ensures EndsWithin(f, if h then pos.x else pos.y, 0.0)
  {
    var along := if h then pos.x else pos.y;
    var line := if h then Line(Round(pos.y)) else Line(Round(pos.x));
    OnPavementIff(roads, pos);
    WithinIffGoesOn(f, along);
    if Side(along) != 0 {
      EdgeIsStretch(ix, roads, h, line, Round(along), Side(along));
    }
  }

  /** The dog moves along the middle of its row or column, or stands still. */
  predicate Centred(b: Body) {
    (b.speed.x != 0.0 ==> Side(b.pos.y) == 0) && (b.speed.y != 0.0 ==> Side(b.pos.x) == 0)
  }

  /** A tick of any length keeps such a dog on the pavement, and centred. */
  lemma CentredStaysPaved(ix: Index, roads: seq<Road>, b: Body, t: int)
    requires Represents(ix, roads) && AxisAligned(b.speed) && OnPavement(roads, b.pos) && Centred(b)
    ensures OnPavement(roads, MoveBody(ix, b, t).pos) && Centred(MoveBody(ix, b, t))
  {
    PavedIsOnRoad(roads, b.pos);
    if b.speed == ZERO {
      StandsStill(ix, b, t);
    } else if b.speed.y == 0.0 {
      RowEnd(ix, roads, b, t);
      CentredWithin(ix, roads, true, b.pos, SpanX(ix, CellOf(b.pos)).value);
      RowMovePaved(ix, roads, b, t);
    } else {
      ColumnEnd(ix, roads, b, t);
      CentredWithin(ix, roads, false, b.pos, SpanY(ix, CellOf(b.pos)).value);
      ColumnMovePaved(ix, roads, b, t);
    }
  }

  lemma PavedIsOnRoad(roads: seq<Road>, pos: Vec)
    requires OnPavement(roads, pos)
    ensures OnSomeRoad(roads, CellOf(pos))
  {
    var r :| r in roads && Near(r, pos, HALF_ROAD_WIDTH);
    NearCoversCell(r, pos);
  }

  lemma StandsStill(ix: Index, b: Body, t: int)
    requires b.speed == ZERO
    ensures MoveBody(ix, b, t) == b
  {
    OffsetOf(b.speed, t);
    MoveAlongRow(ix, b, 0.0);
  }

  /** A command that starts the dog along a row (column) is given in the middle of that row (column). */
  predicate TurnsCentred(pos: Vec, direction: Option<Direction>) {
    match direction
    case None => true
    case Some(d) => ((d == East || d == West) ==> Side(pos.y) == 0) && ((d == North || d == South) ==> Side(pos.x) == 0)
  }

  /** A dog that only turns in the middle of the road it turns into never leaves the pavement. */
  lemma {:induction false} CentredTurnsStayPaved(ix: Index, roads: seq<Road>, b: Body, dogSpeed: real,
                                                 inputs: seq<Input>, n: nat)
    requires Represents(ix, roads) && AxisAligned(b.speed) && OnPavement(roads, b.pos) && Centred(b) && n <= |inputs|
    requires forall i :: 0 <= i < n && inputs[i].Command? ==>
      TurnsCentred(At(ix, b, dogSpeed, inputs, i).pos, inputs[i].direction)
    ensures var now := At(ix, b, dogSpeed, inputs, n);
      OnPavement(roads, now.pos) && Centred(now) && AxisAligned(now.speed)
  {
    if n > 0 {
      CentredTurnsStayPaved(ix, roads, b, dogSpeed, inputs, n - 1);
      NextAt(ix, b, dogSpeed, inputs, n - 1);
      var now := At(ix, b, dogSpeed, inputs, n - 1);
      match inputs[n - 1] {
        case Command(d) => assert TurnsCentred(now.pos, d);
        case Tick(t) =>
          CentredStaysPaved(ix, roads, now, t);
          AlignmentKept(ix, now, t);
      }
    }
  }
}
