/** The dog: movement, gatherer, bag, score and inactivity clock. */
module Dogs {
  import opened Wrappers
  import opened Geometry
  import opened RoadIndices
  import opened Movement
  import opened CollisionDetector

  const DOG_WIDTH := 0.3
  const DOG_HEIGHT := 0.5

  /** One more than the largest `unsigned`. */
  const SCORE_LIMIT := 0x1_0000_0000

  type Score = s: int | 0 <= s < SCORE_LIMIT

  datatype FoundObject = FoundObject(id: nat, kind: nat, value: int)

  datatype DogState = DogState(
    id: nat, name: string, body: Body, direction: Direction, gatherer: Gatherer, bagCapacity: nat,
    bag: seq<FoundObject>, score: Score, inactive: int, live: int, active: bool)

  function NewDog(id: nat, name: string, pos: Vec, bagCapacity: nat): DogState {
    DogState(id, name, Body(pos, ZERO), North, Gatherer(ZERO, ZERO, DOG_WIDTH), bagCapacity, [], 0, 0, 0, true)
  }

  function WithSpeed(d: DogState, speed: Vec): DogState {
    if speed != ZERO then d.(body := d.body.(speed := speed), active := true, inactive := 0)
    else d.(body := d.body.(speed := speed), active := false)
  }

  function Commanded(d: DogState, direction: Option<Direction>, dogSpeed: real): DogState {
    match direction
    case Some(to) => WithSpeed(d.(direction := to), DirectionToSpeed(to, dogSpeed))
    case None => WithSpeed(d, ZERO)
  }

  /** The segment a dog gathers along: from half a cell ahead of it back to itself. */
  function GathererAt(direction: Direction, pos: Vec, was: Gatherer): Gatherer {
    match direction
    case North => Gatherer(Vec(pos.x, pos.y - DOG_HEIGHT), pos, was.width)
    case East => Gatherer(Vec(pos.x + DOG_HEIGHT, pos.y), pos, was.width)
    case West => Gatherer(Vec(pos.x - DOG_HEIGHT, pos.y), pos, was.width)
    case South => Gatherer(Vec(pos.x, pos.y + DOG_HEIGHT), pos, was.width)
    case Stop => was
  }

  /** What a move of length `t` that ends with body `b` leaves of the dog. */
  function Placed(d: DogState, b: Body, t: int): DogState {
    var m := WithSpeed(d.(body := d.body.(pos := b.pos)), b.speed);
    var g := m.(gatherer := GathererAt(m.direction, b.pos, m.gatherer), live := m.live + t);
    if g.active then g else g.(inactive := g.inactive + t)
  }

  /** `MoveDog`. */
  function Moved(ix: Index, d: DogState, t: int): DogState { Placed(d, MoveBody(ix, d.body, t), t) }

  /* ---- bag and score ---- */

  predicate Full(d: DogState) { d.bagCapacity <= |d.bag| }

  function Bagged(d: DogState, item: FoundObject): DogState {
    if Full(d) then d else d.(bag := d.bag + [item])
  }

  function BagValue(bag: seq<FoundObject>): int {
    if bag == [] then 0 else BagValue(bag[..|bag| - 1]) + bag[|bag| - 1].value
  }

  lemma {:induction false} BagValueConcat(a: seq<FoundObject>, b: seq<FoundObject>)
    ensures BagValue(a + b) == BagValue(a) + BagValue(b)
  {
    if b == [] {
      assert a + b == a;
    } else {
      var init := b[..|b| - 1];
      assert (a + b)[..|a + b| - 1] == a + init;
      BagValueConcat(a, init);
    }
  }

  function Wrap(v: int): Score { v % SCORE_LIMIT }

  function Cleared(d: DogState): DogState { d.(score := Wrap(d.score + BagValue(d.bag)), bag := []) }

  /* ---- retirement ---- */

  /** `duration_cast<seconds>`: truncation toward zero. */
  function WholeSeconds(ms: int): int { if ms >= 0 then ms / 1000 else -((-ms) / 1000) }

  /** `GetPlayTime`: the play time in seconds once the dog has been still for the limit. */
  function PlayTime(d: DogState, limitSeconds: nat): Option<int> {
    if d.active || WholeSeconds(d.inactive) < limitSeconds then None else Some(WholeSeconds(d.live))
  }

  lemma RetiresAtLimit(d: DogState, limitSeconds: nat)
    requires d.inactive >= 0
    ensures PlayTime(d, limitSeconds).Some? <==> !d.active && d.inactive >= 1000 * limitSeconds
  {
  }

  class Dog {
    const id: nat
    const name: string
    const bagCapacity: nat
    var position: Vec
    var speed: Vec
    var direction: Direction
    var gatherer: Gatherer
    var bag: seq<FoundObject>
    var score: Score
    var inactiveTime: int
    var liveTime: int
    var isActive: bool

    ghost function State(): DogState
      reads this
    {
      DogState(id, name, Body(position, speed), direction, gatherer, bagCapacity, bag, score,
               inactiveTime, liveTime, isActive)
    }

    constructor (id: nat, name: string, position: Vec, bagCapacity: nat)
      ensures State() == NewDog(id, name, position, bagCapacity)
    {
      this.id, this.name, this.position, this.bagCapacity := id, name, position, bagCapacity;
      speed, direction, gatherer := ZERO, North, Gatherer(ZERO, ZERO, DOG_WIDTH);
      bag, score, inactiveTime, liveTime, isActive := [], 0, 0, 0, true;
    }

    method SetSpeed(v: Vec)
      modifies this
      ensures State() == WithSpeed(old(State()), v)
    {
      speed := v;
      if speed != ZERO {
        isActive := true;
        inactiveTime := 0;
      } else {
        isActive := false;
      }
    }

    method SetDirection(d: Direction)
      modifies this
      ensures State() == old(State()).(direction := d)
    {
      direction := d;
    }

    method SetScore(s: Score)
      modifies this
      ensures State() == old(State()).(score := s)
    {
      score := s;
    }

    method SetGatherer()
      modifies this
      ensures State() == old(State()).(gatherer := GathererAt(old(direction), old(position), old(gatherer)))
    {
      match direction
      case North =>
        gatherer := Gatherer(Vec(position.x, position.y - DOG_HEIGHT), position, gatherer.width);
      case East =>
        gatherer := Gatherer(Vec(position.x + DOG_HEIGHT, position.y), position, gatherer.width);
      case West =>
        gatherer := Gatherer(Vec(position.x - DOG_HEIGHT, position.y), position, gatherer.width);
      case South =>
        gatherer := Gatherer(Vec(position.x, position.y + DOG_HEIGHT), position, gatherer.width);
      case Stop =>
    }

    method AddItemToBag(item: FoundObject) returns (ok: bool)
      modifies this
      ensures ok == !Full(old(State()))
      ensures State() == Bagged(old(State()), item)
    {
      if bagCapacity <= |bag| {
        return false;
      }
      bag := bag + [item];
      return true;
    }

    method ClearBag()
      modifies this
      ensures State() == Cleared(old(State()))
    {
      for i := 0 to |bag|
        invariant bag == old(bag) && score == Wrap(old(score) + BagValue(bag[..i]))
        invariant State() == old(State()).(score := score)
      {
        assert bag[..i + 1][..i] == bag[..i];
        WrapAdds(old(score) + BagValue(bag[..i]), bag[i].value);
        score := Wrap(score + bag[i].value);
      }
      assert bag[..|bag|] == bag;
      bag := [];
    }

    /** `GetPlayTime`, on the fields. */
    function GetPlayTime(limitSeconds: nat): (r: Option<int>)
      reads this
      ensures r == PlayTime(State(), limitSeconds)
    {
      if isActive || WholeSeconds(inactiveTime) < limitSeconds then None else Some(WholeSeconds(liveTime))
    }
  }

  lemma WrapAdds(a: int, b: int)
    ensures Wrap(Wrap(a) + b) == Wrap(a + b)
  {
    var q := a / SCORE_LIMIT;
    assert a == q * SCORE_LIMIT + Wrap(a);
    WrapShift(Wrap(a) + b, q);
  }

  lemma WrapShift(a: int, q: int)
    ensures Wrap(a + q * SCORE_LIMIT) == Wrap(a)
  {
    var r := a / SCORE_LIMIT;
    assert a + q * SCORE_LIMIT == (r + q) * SCORE_LIMIT + Wrap(a);
  }

  /* ---- the gatherer ---- */

  /** The rectangle half a cell ahead of the dog and `radius` to each side. */
  predicate Ahead(direction: Direction, pos: Vec, c: Vec, radius: real) {
    match direction
    case North => pos.y - DOG_HEIGHT <= c.y <= pos.y && pos.x - radius <= c.x <= pos.x + radius
    case East => pos.x <= c.x <= pos.x + DOG_HEIGHT && pos.y - radius <= c.y <= pos.y + radius
    case West => pos.x - DOG_HEIGHT <= c.x <= pos.x && pos.y - radius <= c.y <= pos.y + radius
    case South => pos.y <= c.y <= pos.y + DOG_HEIGHT && pos.x - radius <= c.x <= pos.x + radius
    case Stop => false
  }

  lemma SquareWithin(x: real, r: real)
    requires r >= 0.0
    ensures Times(x, x) <= r * r <==> -r <= x <= r
  {
    if x > r {
      assert Times(x - r, x + r) == x * x - r * r;
    } else if x < -r {
      assert Times(x + r, x - r) == x * x - r * r;
    } else {
      assert (r - x) * (r + x) >= 0.0;
    }
  }

  /** On a gatherer of half a cell along one axis, the test separates into its two coordinates:
      `along` toward the dog, `across` to the side. */
  lemma HalfCellGatherer(a: Vec, b: Vec, c: Vec, along: real, across: real)
    requires a != b
    requires (Minus(b, a) == Vec(DOG_HEIGHT, 0.0) && Minus(c, a) == Vec(along, across))
      || (Minus(b, a) == Vec(-DOG_HEIGHT, 0.0) && Minus(c, a) == Vec(-along, across))
      || (Minus(b, a) == Vec(0.0, DOG_HEIGHT) && Minus(c, a) == Vec(across, along))
      || (Minus(b, a) == Vec(0.0, -DOG_HEIGHT) && Minus(c, a) == Vec(across, -along))
    ensures Dot(Minus(b, a), Minus(b, a)) == DOG_HEIGHT * DOG_HEIGHT
    ensures TryCollectPoint(a, b, c) == CollectionResult(Times(across, across), along / DOG_HEIGHT)
  {
    var u, v := Minus(c, a), Minus(b, a);
    assert Dot(v, v) == 0.25;
    assert Dot(u, v) == 0.5 * along;
    assert Dot(u, u) == Times(along, along) + Times(across, across) by {
      assert Times(-along, -along) == Times(along, along);
    }
    assert OffLine(Dot(u, u), 0.5 * along, 0.25) == Times(across, across) by {
      assert 0.5 * along * (0.5 * along) / 0.25 == along * along;
    }
  }

  /** The gatherer of a dog that looks some way has length one half, so the projection is defined, and the general
      test is membership in a rectangle. */
  lemma RectangleOf(d: DogState, c: Vec, radius: real)
    requires d.direction != Stop && d.gatherer == GathererAt(d.direction, d.body.pos, d.gatherer) && radius >= 0.0
    ensures var g := d.gatherer;
      && SqDistance(g.start, g.end) == DOG_HEIGHT * DOG_HEIGHT && g.start != g.end
      && (TryCollectPoint(g.start, g.end, c).IsCollected(radius) <==> Ahead(d.direction, d.body.pos, c, radius))
  {
    var g, pos := d.gatherer, d.body.pos;
    match d.direction {
      case North =>
        HalfCellGatherer(g.start, g.end, c, c.y - g.start.y, c.x - pos.x);
        SquareWithin(c.x - pos.x, radius);
      case East =>
        HalfCellGatherer(g.start, g.end, c, g.start.x - c.x, c.y - pos.y);
        SquareWithin(c.y - pos.y, radius);
      case West =>
        HalfCellGatherer(g.start, g.end, c, c.x - g.start.x, c.y - pos.y);
        SquareWithin(c.y - pos.y, radius);
      case South =>
        HalfCellGatherer(g.start, g.end, c, g.start.y - c.y, c.x - pos.x);
        SquareWithin(c.x - pos.x, radius);
    }
    assert SqDistance(g.start, g.end) == 0.25;
  }

  /** After a move the gatherer has length one half in each of the four directions, so the projection
      is defined, and the general test is membership in a rectangle. */
  lemma GathererIsRectangle(ix: Index, d: DogState, t: int, c: Vec, radius: real)
    requires d.direction != Stop && radius >= 0.0
    ensures var m := Moved(ix, d, t); var g := m.gatherer;
      && SqDistance(g.start, g.end) == DOG_HEIGHT * DOG_HEIGHT
      && g.start != g.end && g.width == d.gatherer.width
      && (TryCollectPoint(g.start, g.end, c).IsCollected(radius) <==> Ahead(d.direction, m.body.pos, c, radius))
  {
    RectangleOf(Moved(ix, d, t), c, radius);
  }

  /* ---- runs of one dog ---- */

  function StepDog(ix: Index, d: DogState, dogSpeed: real, input: Input): DogState {
    match input
    case Command(direction) => Commanded(d, direction, dogSpeed)
    case Tick(t) => Moved(ix, d, t)
  }

  function RunDog(ix: Index, d: DogState, dogSpeed: real, inputs: seq<Input>): DogState
    decreases |inputs|
  {
    if inputs == [] then d
    else StepDog(ix, RunDog(ix, d, dogSpeed, inputs[..|inputs| - 1]), dogSpeed, inputs[|inputs| - 1])
  }

  /** The dog carries its body along exactly as movement alone does, so what holds of bodies holds of dogs. */
  lemma {:induction false} RunDogMovesBody(ix: Index, d: DogState, dogSpeed: real, inputs: seq<Input>)
    ensures RunDog(ix, d, dogSpeed, inputs).body == Run(ix, d.body, dogSpeed, inputs)
    decreases |inputs|
  {
    if inputs != [] {
      RunDogMovesBody(ix, d, dogSpeed, inputs[..|inputs| - 1]);
    }
  }

  /* ---- frame rate, for the whole dog ---- */

  /** All but the inactivity clock. */
  predicate SameButClock(a: DogState, b: DogState) { a.(inactive := 0) == b.(inactive := 0) }

  lemma {:induction false} PlacedMany(ticks: seq<nat>, trace: seq<DogState>)
    requires |trace| == |ticks| + 1 && ticks != []
    requires forall i :: 0 <= i < |ticks| ==> trace[i + 1] == Placed(trace[i], trace[i + 1].body, ticks[i])
    ensures SameButClock(trace[|ticks|], Placed(trace[0], trace[|ticks|].body, Total(ticks)))
    decreases |ticks|
  {
    var n := |ticks| - 1;
    assert trace[n + 1] == Placed(trace[n], trace[n + 1].body, ticks[n]);
    if n == 0 {
      assert Total(ticks[..0]) == 0;
    } else {
      PlacedMany(ticks[..n], trace[..n + 1]);
    }
  }

  lemma {:induction false} TickTrace(ix: Index, d: DogState, dogSpeed: real, ticks: seq<nat>, i: nat)
    requires i < |ticks|
    ensures var r := RunDog(ix, d, dogSpeed, TickInputs(ticks)[..i + 1]);
      r == Placed(RunDog(ix, d, dogSpeed, TickInputs(ticks)[..i]), r.body, ticks[i])
  {
    var inputs := TickInputs(ticks);
    assert inputs[..i + 1][..i] == inputs[..i];
  }

  /** Splitting a tick changes nothing of the dog but, possibly, its inactivity clock. */
  lemma {:induction false} DogFrameRateIndependent(ix: Index, d: DogState, dogSpeed: real, ticks: seq<nat>)
    requires ix.WellFormed() && AxisAligned(d.body.speed) && ticks != []
    ensures SameButClock(RunDog(ix, d, dogSpeed, TickInputs(ticks)), Moved(ix, d, Total(ticks)))
  {
    var inputs := TickInputs(ticks);
    var trace := seq(|ticks| + 1, i requires 0 <= i <= |ticks| => RunDog(ix, d, dogSpeed, inputs[..i]));
    forall i | 0 <= i < |ticks| ensures trace[i + 1] == Placed(trace[i], trace[i + 1].body, ticks[i]) {
      TickTrace(ix, d, dogSpeed, ticks, i);
    }
    PlacedMany(ticks, trace);
    assert inputs[..|ticks|] == inputs;
    RunDogMovesBody(ix, d, dogSpeed, inputs);
    RunOfTicks(ix, d.body, dogSpeed, ticks);
    FrameRateIndependent(ix, d.body, ticks);
  }

  /** The step of this length ends inside the rectangle the roads allow: the test of the wall. */
  predicate Inside(ix: Index, b: Body, t: int) {
    var range := RangeAt(Lookup(ix, CellOf(b.pos)), b.pos);
    var o := Offset(b.speed, t);
    range.min.x <= b.pos.x + o.x <= range.max.x && range.min.y <= b.pos.y + o.y <= range.max.y
  }

  lemma StopsAtWall(ix: Index, b: Body, t: int)
    requires AxisAligned(b.speed)
    ensures MoveBody(ix, b, t).speed == if Inside(ix, b, t) then b.speed else ZERO
  {
    OffsetOf(b.speed, t);
  }

  /** The inactivity clock does depend on the split: one long tick that ends at a wall counts whole, the
      same time in two ticks counts from the tick that hit the wall. The two disagree iff the dog moves and
      has time to add, and the wall is beyond the first part but not beyond both. */
  lemma ClockDependsOnSplit(ix: Index, d: DogState, s: nat, t: nat)
    requires ix.WellFormed() && AxisAligned(d.body.speed) && d.inactive >= 0
    ensures var (split, whole) := (Moved(ix, Moved(ix, d, s), t), Moved(ix, d, s + t));
      && split.inactive <= whole.inactive
      && (split.inactive < whole.inactive <==>
        d.body.speed != ZERO && d.inactive + s > 0 && Inside(ix, d.body, s) && !Inside(ix, d.body, s + t))
  {
    MoveCompose(ix, d.body, s, t);
    StopsAtWall(ix, d.body, s);
    StopsAtWall(ix, d.body, s + t);
  }

  function OneRoadIndex(): Index { Index(map[Line(0) := [Fragment(0, 10)]], map[]) }

  lemma WallStep(x: real, t: int)
    requires 0.0 <= x <= 10.4 && t >= 0
    ensures var end := x + t as real / 1000.0;
      MoveBody(OneRoadIndex(), Body(Vec(x, 0.0), Vec(1.0, 0.0)), t)
        == if end <= 10.4 then Body(Vec(end, 0.0), Vec(1.0, 0.0)) else Body(Vec(10.4, 0.0), ZERO)
  {
    var ix := OneRoadIndex();
    RoundBelow(x, 10);
    RoundAbove(x, 0);
    RoundNear(0.0, 0);
    MoveAlongRow(ix, Body(Vec(x, 0.0), Vec(1.0, 0.0)), Seconds(t));
    var fs := ix.horizontal[Line(0)];
    assert fs[0].Has(Round(x));
    assert LineLookup(ix.horizontal, Line(0), Round(x)) == Some(Fragment(0, 10));
  }

  /** A dog one cell before the end of its road: in two ticks of a second it is still for one, in one tick
      of two seconds for two. */
  lemma SplitAtWall(d: DogState)
    requires d.body == Body(Vec(9.0, 0.0), Vec(1.0, 0.0)) && d.inactive == 0
    ensures OneRoadIndex().WellFormed()
    ensures Moved(OneRoadIndex(), Moved(OneRoadIndex(), d, 1000), 1000).inactive == 1000
    ensures Moved(OneRoadIndex(), d, 2000).inactive == 2000
  {
    WallStep(9.0, 1000);
    WallStep(10.0, 1000);
    WallStep(9.0, 2000);
  }

  /* ---- the inactivity clock over a run ---- */

  /** The total length of the ticks among the inputs. */
  function TickTime(inputs: seq<Input>): int {
    if inputs == [] then 0
    else TickTime(inputs[..|inputs| - 1]) + match inputs[|inputs| - 1] case Tick(t) => t case Command(_) => 0
  }

  /** What one input does to the clocks: any motion left resets the inactivity clock, a tick that
      ends at rest adds its whole length, a stop command adds nothing. */
  predicate ClockStep(d: DogState, input: Input, r: DogState) {
    var t := match input case Tick(t) => t case Command(_) => 0;
    && r.live == d.live + t
    && (r.active <==> r.body.speed != ZERO)
    && r.inactive == if r.active then 0 else d.inactive + t
  }

  lemma StepKeepsTime(ix: Index, d: DogState, dogSpeed: real, input: Input)
    ensures ClockStep(d, input, StepDog(ix, d, dogSpeed, input))
  {
  }

  /** `k` inputs up to and including the last one after which the dog was moving. */
  ghost predicate LastMotion(trace: seq<DogState>, k: nat) {
    && k < |trace|
    && (k > 0 ==> trace[k].body.speed != ZERO)
    && forall i :: k < i < |trace| ==> trace[i].body.speed == ZERO
  }

  predicate NonNegativeTicks(inputs: seq<Input>) {
    forall i :: 0 <= i < |inputs| && inputs[i].Tick? ==> inputs[i].length >= 0
  }

  /** The dog before the first input and after each. */
  ghost predicate IsTrace(ix: Index, d: DogState, dogSpeed: real, inputs: seq<Input>, trace: seq<DogState>) {
    |trace| == |inputs| + 1 && forall i :: 0 <= i <= |inputs| ==> trace[i] == RunDog(ix, d, dogSpeed, inputs[..i])
  }

  ghost predicate ClockTrace(inputs: seq<Input>, trace: seq<DogState>) {
    |trace| == |inputs| + 1 && forall i :: 0 <= i < |inputs| ==> ClockStep(trace[i], inputs[i], trace[i + 1])
  }

  lemma {:induction false} ClockOfTrace(inputs: seq<Input>, trace: seq<DogState>) returns (k: nat)
    requires ClockTrace(inputs, trace) && NonNegativeTicks(inputs)
    requires trace[0].inactive == 0 && trace[0].live == 0
    ensures LastMotion(trace, k)
    ensures var r := trace[|inputs|];
      && r.inactive == TickTime(inputs[k..])
      && r.live == TickTime(inputs)
      && 0 <= r.inactive <= r.live
      && (inputs != [] ==> (r.active <==> k == |inputs|))
    decreases |inputs|
  {
    if inputs == [] {
      k := 0;
    } else {
      var n := |inputs| - 1;
      var init := inputs[..n];
      k := ClockOfTrace(init, trace[..n + 1]);
      assert ClockStep(trace[n], inputs[n], trace[n + 1]);
      if trace[n + 1].active {
        k := n + 1;
        assert inputs[k..] == [];
      } else {
        assert inputs[k..][..|inputs[k..]| - 1] == init[k..];
      }
    }
  }

  /** From spawn, whatever the inputs: the inactivity clock is the time ticked since the dog was last
      left moving, the live clock is all the time ticked, and the first never exceeds the second. */
  lemma RetirementClock(ix: Index, d: DogState, dogSpeed: real, inputs: seq<Input>, trace: seq<DogState>)
    returns (k: nat)
    requires d.inactive == 0 && d.live == 0 && NonNegativeTicks(inputs)
    requires IsTrace(ix, d, dogSpeed, inputs, trace)
    ensures LastMotion(trace, k)
    ensures var r := RunDog(ix, d, dogSpeed, inputs);
      && r.inactive == TickTime(inputs[k..])
      && r.live == TickTime(inputs)
      && 0 <= r.inactive <= r.live
      && (inputs != [] ==> (r.active <==> k == |inputs|))
  {
    assert inputs[..|inputs|] == inputs;
    forall i | 0 <= i < |inputs| ensures ClockStep(trace[i], inputs[i], trace[i + 1]) {
      assert inputs[..i + 1][..i] == inputs[..i];
      StepKeepsTime(ix, trace[i], dogSpeed, inputs[i]);
    }
    k := ClockOfTrace(inputs, trace);
  }
}
