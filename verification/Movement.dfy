/** How a dog moves in one tick, and what any sequence of ticks and commands keeps. */
module Movement {
  import opened Wrappers
  import opened Geometry
  import opened RoadIndices

  const HALF_ROAD_WIDTH := 0.4

  datatype Direction = North | East | West | South | Stop

  function DirectionToSpeed(direction: Direction, speed: real): Vec {
    match direction
    case North => Vec(0.0, -speed)
    case East => Vec(speed, 0.0)
    case West => Vec(-speed, 0.0)
    case South => Vec(0.0, speed)
    case Stop => ZERO
  }

  /** What a player can ask for. */
  datatype MoveAction = Halt | MoveLeft | MoveRight | MoveUp | MoveDown | Invalid

  function MoveActionToDirection(action: MoveAction): Result<Option<Direction>, string> {
    match action
    case Halt => Ok(None)
    case MoveLeft => Ok(Some(West))
    case MoveRight => Ok(Some(East))
    case MoveUp => Ok(Some(North))
    case MoveDown => Ok(Some(South))
    case Invalid => Err("Invalid move action")
  }

  /** The value of the enumerator: the letter of the client. */
  function Letter(action: MoveAction): int {
    match action
    case Halt => 0
    case MoveLeft => 'L' as int
    case MoveRight => 'R' as int
    case MoveUp => 'U' as int
    case MoveDown => 'D' as int
    case Invalid => -1
  }

  /** The part of a dog that movement reads and writes. */
  datatype Body = Body(pos: Vec, speed: Vec)

  predicate AxisAligned(v: Vec) { v.x == 0.0 || v.y == 0.0 }

  /** Milliseconds as seconds. */
  function Seconds(t: int): real { t as real / 1000.0 }

  /** The rectangle a dog may move in. */
  datatype Range = Range(min: Vec, max: Vec)

  function Widen(r: Range, road: Option<Road>): Range {
    match road
    case None => r
    case Some(s) => Range(
      Vec(MinReal(s.start.x as real - HALF_ROAD_WIDTH, r.min.x), MinReal(s.start.y as real - HALF_ROAD_WIDTH, r.min.y)),
      Vec(MaxReal(s.end.x as real + HALF_ROAD_WIDTH, r.max.x), MaxReal(s.end.y as real + HALF_ROAD_WIDTH, r.max.y)))
  }

  function RangeAt(roads: RoadsAt, pos: Vec): (r: Range)
    ensures r.min.x <= pos.x <= r.max.x && r.min.y <= pos.y <= r.max.y
  {
    Widen(Widen(Range(pos, pos), roads.horizontal), roads.vertical)
  }

  function Offset(speed: Vec, t: int): Vec { Vec(speed.x * Seconds(t), speed.y * Seconds(t)) }

  /** `MoveDog`, on position and speed. */
  function MoveBody(ix: Index, b: Body, t: int): Body { MoveBy(ix, b, Offset(b.speed, t)) }

  function MoveBy(ix: Index, b: Body, offset: Vec): Body {
    var range := RangeAt(Lookup(ix, CellOf(b.pos)), b.pos);
    var pos := Vec(b.pos.x + offset.x, b.pos.y + offset.y);
    Body(
      Vec(Clamp(pos.x, range.min.x, range.max.x), Clamp(pos.y, range.min.y, range.max.y)),
      Vec(if range.min.x <= pos.x <= range.max.x then b.speed.x else 0.0,
          if range.min.y <= pos.y <= range.max.y then b.speed.y else 0.0))
  }

  /* ---- one axis at a time ---- */

  /** How far a dog in this cell may go along its row: the horizontal stretch through the cell, or
      the width of the vertical road when only that one is there. */
  function SpanX(ix: Index, cell: Point): Option<Fragment> {
    match LineLookup(ix.horizontal, Line(cell.y), cell.x)
    case Some(f) => Some(f)
    case None =>
      if LineLookup(ix.vertical, Line(cell.x), cell.y).Some? then Some(Fragment(cell.x, cell.x)) else None
  }

  function SlideMin(span: Option<Fragment>, x: real): (r: real)
    ensures r <= x
  {
    if span.None? then x else MinReal(span.value.first as real - HALF_ROAD_WIDTH, x)
  }

  function SlideMax(span: Option<Fragment>, x: real): (r: real)
    ensures x <= r
  {
    if span.None? then x else MaxReal(span.value.second as real + HALF_ROAD_WIDTH, x)
  }

  /** One-dimensional movement: coordinate and speed after a step. */
  function Slide(span: Option<Fragment>, x: real, v: real, step: real): (real, real) {
    var lo, hi := SlideMin(span, x), SlideMax(span, x);
    (Clamp(x + step, lo, hi), if lo <= x + step <= hi then v else 0.0)
  }

  lemma RangeIsSpan(ix: Index, pos: Vec)
    ensures var range := RangeAt(Lookup(ix, CellOf(pos)), pos);
      range.min.x == SlideMin(SpanX(ix, CellOf(pos)), pos.x) && range.max.x == SlideMax(SpanX(ix, CellOf(pos)), pos.x)
  {
    var cell := CellOf(pos);
    match LineLookup(ix.horizontal, Line(cell.y), cell.x)
    case None =>
    case Some(f) => assert f.first <= cell.x <= f.second;
  }

  lemma MoveAlongRow(ix: Index, b: Body, step: real)
    requires b.speed.y == 0.0
    ensures var s := Slide(SpanX(ix, CellOf(b.pos)), b.pos.x, b.speed.x, step);
      MoveBy(ix, b, Vec(step, 0.0)) == Body(Vec(s.0, b.pos.y), Vec(s.1, 0.0))
  {
    RangeIsSpan(ix, b.pos);
  }

  lemma ZeroSpeed(t: int)
    ensures 0.0 * Seconds(t) == 0.0
  {
  }

  lemma TimeAdds(v: real, s: int, t: int)
    ensures v * Seconds(s + t) == v * Seconds(s) + v * Seconds(t)
  {
    assert Seconds(s + t) == Seconds(s) + Seconds(t);
  }

  lemma TimeSign(v: real, t: int)
    requires t >= 0
    ensures v >= 0.0 ==> v * Seconds(t) >= 0.0
    ensures v <= 0.0 ==> v * Seconds(t) <= 0.0
  {
    assert Seconds(t) >= 0.0;
  }

  /** Two steps in the same direction are one long step, also when a wall is hit in between. */
  lemma SlideCompose(span: Option<Fragment>, x: real, v: real, p: real, q: real)
    requires (p >= 0.0 && q >= 0.0) || (p <= 0.0 && q <= 0.0)
    requires v == 0.0 ==> p == 0.0 && q == 0.0
    ensures var a := Slide(span, x, v, p);
      Slide(span, a.0, a.1, if a.1 == 0.0 then 0.0 else q) == Slide(span, x, v, p + q)
  {
  }

  lemma LookupSame(lines: Lines, line: Line, c: int, d: int)
    requires forall l :: l in lines ==> Canonical(lines[l])
    requires LineLookup(lines, line, c).Some? && LineLookup(lines, line, c).value.Has(d)
    ensures LineLookup(lines, line, d) == LineLookup(lines, line, c)
  {
    var f := LineLookup(lines, line, c).value;
    var i :| 0 <= i < |lines[line]| && lines[line][i] == f;
    FragmentAtUnique(lines[line], i, d);
  }

  /** Sliding never leaves the span it started in, so every cell on the way has the same span; and a
      slide into another cell runs along one stretch of horizontal road. */
  lemma SpanIsKept(ix: Index, pos: Vec, x: real)
    requires ix.WellFormed()
    requires SlideMin(SpanX(ix, CellOf(pos)), pos.x) <= x <= SlideMax(SpanX(ix, CellOf(pos)), pos.x)
    ensures SpanX(ix, CellOf(Vec(x, pos.y))) == SpanX(ix, CellOf(pos))
    ensures Round(x) == Round(pos.x)
      || (var f := LineLookup(ix.horizontal, Line(Round(pos.y)), Round(pos.x));
          f.Some? && f.value.Has(Round(pos.x)) && f.value.Has(Round(x)))
  {
    var span := SpanX(ix, CellOf(pos));
    if span.Some? {
      var f := span.value;
      if x < pos.x {
        RoundMonotone(x, pos.x);
        if f.first as real - HALF_ROAD_WIDTH <= pos.x {
          RoundAbove(x, f.first);
        }
      } else {
        RoundMonotone(pos.x, x);
        if pos.x <= f.second as real + HALF_ROAD_WIDTH {
          RoundBelow(x, f.second);
        }
      }
      assert f.Has(Round(x));
      if LineLookup(ix.horizontal, Line(Round(pos.y)), Round(pos.x)).Some? {
        LookupSame(ix.horizontal, Line(Round(pos.y)), Round(pos.x), Round(x));
      }
    }
  }

  /* ---- the other axis, by swapping rows and columns ---- */

  function Swap(v: Vec): Vec { Vec(v.y, v.x) }

  function SwapBody(b: Body): Body { Body(Swap(b.pos), Swap(b.speed)) }

  function SwapIndex(ix: Index): Index { Index(ix.vertical, ix.horizontal) }

  lemma RangeSwapped(ix: Index, pos: Vec)
    ensures var range := RangeAt(Lookup(ix, CellOf(pos)), pos);
      RangeAt(Lookup(SwapIndex(ix), CellOf(Swap(pos))), Swap(pos)) == Range(Swap(range.min), Swap(range.max))
  {
  }

  lemma MoveSwapped(ix: Index, b: Body, offset: Vec)
    ensures MoveBy(SwapIndex(ix), SwapBody(b), Swap(offset)) == SwapBody(MoveBy(ix, b, offset))
  {
    RangeSwapped(ix, b.pos);
  }

  /* ---- frame-rate independence ---- */

  function RunTicks(ix: Index, b: Body, ticks: seq<nat>): Body
    decreases |ticks|
  {
    if ticks == [] then b else MoveBody(ix, RunTicks(ix, b, ticks[..|ticks| - 1]), ticks[|ticks| - 1])
  }

  function Total(ticks: seq<nat>): nat {
    if ticks == [] then 0 else Total(ticks[..|ticks| - 1]) + ticks[|ticks| - 1]
  }

  /** Two steps along a row are one long step; a step is only taken while the dog still moves. */
  lemma StepsComposeInRow(ix: Index, b: Body, p: real, q: real)
    requires ix.WellFormed() && b.speed.y == 0.0
    requires (p >= 0.0 && q >= 0.0) || (p <= 0.0 && q <= 0.0)
    requires b.speed.x == 0.0 ==> p == 0.0 && q == 0.0
    ensures var mid := MoveBy(ix, b, Vec(p, 0.0));
      MoveBy(ix, mid, Vec(if mid.speed.x == 0.0 then 0.0 else q, 0.0)) == MoveBy(ix, b, Vec(p + q, 0.0))
  {
    var mid := MoveBy(ix, b, Vec(p, 0.0));
    var q' := if mid.speed.x == 0.0 then 0.0 else q;
    MoveAlongRow(ix, b, p);
    SpanIsKept(ix, b.pos, mid.pos.x);
    MoveAlongRow(ix, mid, q');
    MoveAlongRow(ix, b, p + q);
    SlideCompose(SpanX(ix, CellOf(b.pos)), b.pos.x, b.speed.x, p, q);
  }

  lemma StepsComposeInColumn(ix: Index, b: Body, p: real, q: real)
    requires ix.WellFormed() && b.speed.x == 0.0
    requires (p >= 0.0 && q >= 0.0) || (p <= 0.0 && q <= 0.0)
    requires b.speed.y == 0.0 ==> p == 0.0 && q == 0.0
    ensures var mid := MoveBy(ix, b, Vec(0.0, p));
      MoveBy(ix, mid, Vec(0.0, if mid.speed.y == 0.0 then 0.0 else q)) == MoveBy(ix, b, Vec(0.0, p + q))
  {
    var mid := MoveBy(ix, b, Vec(0.0, p));
    MoveSwapped(ix, b, Vec(0.0, p));
    MoveSwapped(ix, mid, Vec(0.0, if mid.speed.y == 0.0 then 0.0 else q));
    MoveSwapped(ix, b, Vec(0.0, p + q));
    StepsComposeInRow(SwapIndex(ix), SwapBody(b), p, q);
  }

  /** Only the moving axis of an axis-aligned dog has an offset. */
  lemma OffsetOf(v: Vec, t: int)
    ensures v.x == 0.0 ==> Offset(v, t).x == 0.0
    ensures v.y == 0.0 ==> Offset(v, t).y == 0.0
  {
    ZeroSpeed(t);
  }

  lemma SpeedKeptOrLost(ix: Index, b: Body, offset: Vec)
    ensures var v := MoveBy(ix, b, offset).speed;
      (v.x == b.speed.x || v.x == 0.0) && (v.y == b.speed.y || v.y == 0.0)
  {
  }

  /** The offsets of two ticks, and of their sum, for one velocity. */
  predicate OffsetsAdd(v: Vec, p: Vec, q: Vec, both: Vec) {
    && both == Vec(p.x + q.x, p.y + q.y)
    && ((p.x >= 0.0 && q.x >= 0.0) || (p.x <= 0.0 && q.x <= 0.0))
    && ((p.y >= 0.0 && q.y >= 0.0) || (p.y <= 0.0 && q.y <= 0.0))
    && (v.x == 0.0 ==> p.x == q.x == 0.0)
    && (v.y == 0.0 ==> p.y == q.y == 0.0)
  }

  lemma TicksAdd(v: Vec, s: nat, t: nat)
    ensures OffsetsAdd(v, Offset(v, s), Offset(v, t), Offset(v, s + t))
  {
    TimeAdds(v.x, s, t);
    TimeAdds(v.y, s, t);
    TimeSign(v.x, s);
    TimeSign(v.x, t);
    TimeSign(v.y, s);
    TimeSign(v.y, t);
  }

  /** What is left of an offset once a wall has stopped the dog. */
  function Remaining(v: Vec, offset: Vec): Vec {
    Vec(if v.x == 0.0 then 0.0 else offset.x, if v.y == 0.0 then 0.0 else offset.y)
  }

  lemma RemainingOffset(ix: Index, b: Body, offset: Vec, t: int)
    ensures var mid := MoveBy(ix, b, offset);
      Offset(mid.speed, t) == Remaining(mid.speed, Offset(b.speed, t))
  {
    SpeedKeptOrLost(ix, b, offset);
    ZeroSpeed(t);
  }

  lemma StepsCompose(ix: Index, b: Body, p: Vec, q: Vec, both: Vec)
    requires ix.WellFormed() && AxisAligned(b.speed) && OffsetsAdd(b.speed, p, q, both)
    ensures var mid := MoveBy(ix, b, p); MoveBy(ix, mid, Remaining(mid.speed, q)) == MoveBy(ix, b, both)
  {
    var mid := MoveBy(ix, b, p);
    SpeedKeptOrLost(ix, b, p);
    if b.speed.y == 0.0 {
      assert p == Vec(p.x, 0.0) && Remaining(mid.speed, q) == Vec(if mid.speed.x == 0.0 then 0.0 else q.x, 0.0);
      StepsComposeInRow(ix, b, p.x, q.x);
    } else {
      assert p == Vec(0.0, p.y) && Remaining(mid.speed, q) == Vec(0.0, if mid.speed.y == 0.0 then 0.0 else q.y);
      StepsComposeInColumn(ix, b, p.y, q.y);
    }
  }

  lemma MoveCompose(ix: Index, b: Body, s: nat, t: nat)
    requires ix.WellFormed() && AxisAligned(b.speed)
    ensures MoveBody(ix, MoveBody(ix, b, s), t) == MoveBody(ix, b, s + t)
  {
    TicksAdd(b.speed, s, t);
    RemainingOffset(ix, b, Offset(b.speed, s), t);
    StepsCompose(ix, b, Offset(b.speed, s), Offset(b.speed, t), Offset(b.speed, s + t));
  }

  lemma AlignmentKept(ix: Index, b: Body, t: int)
    requires AxisAligned(b.speed)
    ensures AxisAligned(MoveBody(ix, b, t).speed)
  {
  }

  lemma ZeroTickIsIdle(ix: Index, b: Body)
    ensures MoveBody(ix, b, 0) == b
  {
    assert b.speed.x * Seconds(0) == 0.0 && b.speed.y * Seconds(0) == 0.0;
  }

  /** Any list of ticks moves an axis-aligned dog exactly as one tick of their total length. */
  lemma {:induction false} FrameRateIndependent(ix: Index, b: Body, ticks: seq<nat>)
    requires ix.WellFormed() && AxisAligned(b.speed)
    ensures RunTicks(ix, b, ticks) == MoveBody(ix, b, Total(ticks))
    decreases |ticks|
  {
    if ticks == [] {
      ZeroTickIsIdle(ix, b);
    } else {
      FrameRateIndependent(ix, b, ticks[..|ticks| - 1]);
      MoveCompose(ix, b, Total(ticks[..|ticks| - 1]), ticks[|ticks| - 1]);
    }
  }

  /* ---- road safety ---- */

  predicate OnRoad(roads: seq<Road>, b: Body) { OnSomeRoad(roads, CellOf(b.pos)) }

  lemma OnRoadIsSpan(ix: Index, roads: seq<Road>, b: Body)
    requires Represents(ix, roads)
    ensures OnRoad(roads, b) <==> SpanX(ix, CellOf(b.pos)).Some?
  {
    IndexAgreesWithScan(ix, roads, CellOf(b.pos));
  }

  lemma RepresentsWellFormed(ix: Index, roads: seq<Road>)
    requires Represents(ix, roads)
    ensures ix.WellFormed()
  {
  }

  lemma StepKeepsSpan(ix: Index, b: Body, step: real)
    requires ix.WellFormed() && b.speed.y == 0.0
    ensures SpanX(ix, CellOf(MoveBy(ix, b, Vec(step, 0.0)).pos)) == SpanX(ix, CellOf(b.pos))
  {
    MoveAlongRow(ix, b, step);
    SpanIsKept(ix, b.pos, MoveBy(ix, b, Vec(step, 0.0)).pos.x);
  }

  lemma SwappedSpan(ix: Index, b: Body)
    ensures SpanX(SwapIndex(ix), CellOf(Swap(b.pos))).Some? <==> SpanX(ix, CellOf(b.pos)).Some?
  {
  }

  /** A tick of any length keeps an axis-aligned dog on the cells of the road map, and off it if it
      was off. */
  lemma MoveKeepsRoad(ix: Index, roads: seq<Road>, b: Body, t: int)
    requires Represents(ix, roads) && AxisAligned(b.speed)
    ensures OnRoad(roads, MoveBody(ix, b, t)) <==> OnRoad(roads, b)
  {
    var o := Offset(b.speed, t);
    RepresentsWellFormed(ix, roads);
    OnRoadIsSpan(ix, roads, b);
    OnRoadIsSpan(ix, roads, MoveBody(ix, b, t));
    OffsetOf(b.speed, t);
    if b.speed.y == 0.0 {
      StepKeepsSpan(ix, b, o.x);
    } else {
      MoveSwapped(ix, b, o);
      StepKeepsSpan(SwapIndex(ix), SwapBody(b), o.y);
      SwappedSpan(ix, b);
      SwappedSpan(ix, MoveBody(ix, b, t));
    }
  }

  /** What reaches a dog between spawn and retirement. */
  datatype Input = Command(direction: Option<Direction>) | Tick(length: int)

  function Steer(b: Body, direction: Option<Direction>, dogSpeed: real): Body {
    b.(speed := match direction case Some(d) => DirectionToSpeed(d, dogSpeed) case None => ZERO)
  }

  function Step(ix: Index, b: Body, dogSpeed: real, input: Input): Body {
    match input
    case Command(d) => Steer(b, d, dogSpeed)
    case Tick(t) => MoveBody(ix, b, t)
  }

  function Run(ix: Index, b: Body, dogSpeed: real, inputs: seq<Input>): Body
    decreases |inputs|
  {
    if inputs == [] then b
    else Step(ix, Run(ix, b, dogSpeed, inputs[..|inputs| - 1]), dogSpeed, inputs[|inputs| - 1])
  }

  function TickInputs(ticks: seq<nat>): (r: seq<Input>)
    ensures |r| == |ticks|
    ensures forall i :: 0 <= i < |ticks| ==> r[i] == Tick(ticks[i])
  {
    seq(|ticks|, i requires 0 <= i < |ticks| => Tick(ticks[i]))
  }

  lemma {:induction false} RunOfTicks(ix: Index, b: Body, dogSpeed: real, ticks: seq<nat>)
    ensures Run(ix, b, dogSpeed, TickInputs(ticks)) == RunTicks(ix, b, ticks)
    decreases |ticks|
  {
    if ticks != [] {
      RunOfTicks(ix, b, dogSpeed, ticks[..|ticks| - 1]);
      assert TickInputs(ticks)[..|ticks| - 1] == TickInputs(ticks[..|ticks| - 1]);
    }
  }

  /** The point a random phase picks on a road. */
  function PointOnRoad(r: Road, phase: real): Vec {
    Vec(Lerp(r.start.x as real, r.end.x as real, phase), Lerp(r.start.y as real, r.end.y as real, phase))
  }

  /** `GenerateSpawnPoint`; the random draws are parameters. */
  function SpawnPoint(roads: seq<Road>, isRandom: bool, roadIndex: nat, phase: real): Vec
    requires roadIndex < |roads|
  {
    if isRandom then PointOnRoad(roads[roadIndex], phase)
    else Vec(roads[0].start.x as real, roads[0].start.y as real)
  }

  /** The point divides the road in the ratio of the phase to what is left of it. */
  predicate AtPhase(r: Road, phase: real, p: Vec) {
    && (1.0 - phase) * (p.x - r.start.x as real) == phase * (r.end.x as real - p.x)
    && (1.0 - phase) * (p.y - r.start.y as real) == phase * (r.end.y as real - p.y)
  }

  lemma LerpDivides(a: real, b: real, phase: real)
    ensures (1.0 - phase) * (Lerp(a, b, phase) - a) == phase * (b - Lerp(a, b, phase))
  {
    assert phase * (b - (a + phase * (b - a))) == (1.0 - phase) * (phase * (b - a));
  }

  /** A drawn point divides its road as drawn: phase 0 is the start, phase 1 the end, one half the middle. */
  lemma DrawnPoint(r: Road, phase: real)
    ensures AtPhase(r, phase, PointOnRoad(r, phase))
    ensures PointOnRoad(r, 0.0) == Vec(r.start.x as real, r.start.y as real)
    ensures PointOnRoad(r, 1.0) == Vec(r.end.x as real, r.end.y as real)
    ensures PointOnRoad(r, 0.5) == Vec((r.start.x + r.end.x) as real / 2.0, (r.start.y + r.end.y) as real / 2.0)
  {
    LerpDivides(r.start.x as real, r.end.x as real, phase);
    LerpDivides(r.start.y as real, r.end.y as real, phase);
  }

  /** A random spawn is a drawn point of the drawn road; the other one is the start of the first road. */
  lemma SpawnIsDrawn(roads: seq<Road>, roadIndex: nat, phase: real)
    requires roadIndex < |roads|
    ensures AtPhase(roads[roadIndex], phase, SpawnPoint(roads, true, roadIndex, phase))
    ensures AtPhase(roads[0], 0.0, SpawnPoint(roads, false, roadIndex, phase))
  {
    DrawnPoint(roads[roadIndex], phase);
  }

  lemma LerpBounds(a: real, b: real, phase: real)
    requires 0.0 <= phase <= 1.0
    ensures MinReal(a, b) <= Lerp(a, b, phase) <= MaxReal(a, b)
  {
    var d := b - a;
    assert phase * d + (1.0 - phase) * d == d;
    if a <= b {
      assert phase * d >= 0.0 && (1.0 - phase) * d >= 0.0;
    } else {
      assert phase * d <= 0.0 && (1.0 - phase) * d <= 0.0;
    }
  }

  lemma LerpBetween(a: int, b: int, phase: real)
    requires 0.0 <= phase <= 1.0
    ensures Min(a, b) <= Round(Lerp(a as real, b as real, phase)) <= Max(a, b)
  {
    LerpBounds(a as real, b as real, phase);
    var v := Lerp(a as real, b as real, phase);
    RoundAbove(v, Min(a, b));
    RoundBelow(v, Max(a, b));
  }

  lemma PointOnRoadIsOnRoad(roads: seq<Road>, r: Road, phase: real)
    requires r in roads && 0.0 <= phase <= 1.0
    ensures OnSomeRoad(roads, CellOf(PointOnRoad(r, phase)))
  {
    LerpBetween(r.start.x, r.end.x, phase);
    LerpBetween(r.start.y, r.end.y, phase);
    assert r.Covers(CellOf(PointOnRoad(r, phase)));
  }

  lemma SpawnIsOnRoad(roads: seq<Road>, isRandom: bool, roadIndex: nat, phase: real)
    requires roadIndex < |roads| && 0.0 <= phase <= 1.0
    ensures OnSomeRoad(roads, CellOf(SpawnPoint(roads, isRandom, roadIndex, phase)))
  {
    if isRandom {
      PointOnRoadIsOnRoad(roads, roads[roadIndex], phase);
    } else {
      var p := roads[0].start;
      RoundNear(p.x as real, p.x);
      RoundNear(p.y as real, p.y);
      assert roads[0].Covers(p);
    }
  }

  lemma {:induction false} RunKeepsRoad(ix: Index, roads: seq<Road>, b: Body, dogSpeed: real, inputs: seq<Input>)
    requires Represents(ix, roads) && AxisAligned(b.speed) && OnRoad(roads, b)
    ensures AxisAligned(Run(ix, b, dogSpeed, inputs).speed) && OnRoad(roads, Run(ix, b, dogSpeed, inputs))
    decreases |inputs|
  {
    if inputs != [] {
      var before := inputs[..|inputs| - 1];
      RunKeepsRoad(ix, roads, b, dogSpeed, before);
      match inputs[|inputs| - 1]
      case Command(d) =>
      case Tick(t) =>
        AlignmentKept(ix, Run(ix, b, dogSpeed, before), t);
        MoveKeepsRoad(ix, roads, Run(ix, b, dogSpeed, before), t);
    }
  }

  /** Whole-run safety: from any spawn, under any commands and ticks, the dog's rounded cell is on a
      road, so the dog itself is within half a cell of that road on each axis. */
  lemma {:induction false} RunFromSpawnIsSafe(ix: Index, roads: seq<Road>, isRandom: bool, roadIndex: nat, phase: real,
                           dogSpeed: real, inputs: seq<Input>)
    requires Represents(ix, roads) && roadIndex < |roads| && 0.0 <= phase <= 1.0
    ensures var b := Run(ix, Body(SpawnPoint(roads, isRandom, roadIndex, phase), ZERO), dogSpeed, inputs);
      && AxisAligned(b.speed)
      && exists r :: r in roads && r.Covers(CellOf(b.pos)) && Near(r, b.pos, 0.5)
  {
    var spawn := Body(SpawnPoint(roads, isRandom, roadIndex, phase), ZERO);
    SpawnIsOnRoad(roads, isRandom, roadIndex, phase);
    RunKeepsRoad(ix, roads, spawn, dogSpeed, inputs);
    var b := Run(ix, spawn, dogSpeed, inputs);
    var r: Road :| r in roads && r.Covers(CellOf(b.pos));
    assert Near(r, b.pos, 0.5);
  }

  /** Within `d` of the road on each axis. */
  predicate Near(r: Road, pos: Vec, d: real) {
    && Min(r.start.x, r.end.x) as real - d <= pos.x <= Max(r.start.x, r.end.x) as real + d
    && Min(r.start.y, r.end.y) as real - d <= pos.y <= Max(r.start.y, r.end.y) as real + d
  }
}
