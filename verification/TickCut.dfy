/** Where time is cut into ticks decides what a dog picks up: it gathers only ahead of where a tick ends. */
module TickCuts {
  import opened Wrappers
  import opened Geometry
  import opened RoadIndices
  import opened Movement
  import opened CollisionDetector
  import opened Dogs
  import opened Gathering
  import opened LootGenerators
  import opened Sessions
  import opened DoubleBags

  const BALL := LostObject(0, 0, Vec(0.6, 0.0), 10)

  const EASTWARD := Vec(1.0, 0.0)

  /** A dog that has set out along the road. */
  const STARTER := Parked(0).(direction := East, body := Body(ZERO, EASTWARD))

  /** The same on its way, at `x` after a time. */
  function Walking(x: real, live: int): DogState {
    STARTER.(
      body := Body(Vec(x, 0.0), EASTWARD), gatherer := Gatherer(Vec(x + DOG_HEIGHT, 0.0), Vec(x, 0.0), DOG_WIDTH),
      live := live)
  }

  function Solo(d: DogState, lost: map<nat, LostObject>): Board { Board(map[0 := d], lost) }

  const OUT := SessionState(Solo(STARTER, map[]), 1, 0)

  const LAID := SessionState(Solo(STARTER, map[0 := BALL]), 1, 1)

  const HALFWAY := LAID.(board := Solo(Walking(0.5, 500).(bag := [Found(BALL)]), map[]))

  const TWICE := LAID.(board := Solo(Walking(1.0, 1000).(bag := [Found(BALL)]), map[]))

  const ONCE := LAID.(board := Solo(Walking(1.0, 1000), map[0 := BALL]))

  const BALL_ONLY := Setup([Loot(BALL)], [0])

  const NOTHING := Setup([], [0])

  const PICK := GatheringEvent(0, 0, 0.0, 0.8)

  function SetOut(): Action { Direct(0, Some(East)) }

  function LayBall(): Action { Generate(1.0, [Draw(0, 0, 0.06)]) }

  lemma OneRoadScan(roads: seq<Road>, r: Road, line: Line, c: int)
    requires roads == [r] && r == Segment(Point(0, 0), Point(10, 0))
    ensures ScanPoint(roads, true, line, c) <==> line.at == 0 && 0 <= c <= 10
    ensures ScanEdge(roads, true, line, c) <==> line.at == 0 && 0 <= c < 10
    ensures !ScanPoint(roads, false, line, c) && !ScanEdge(roads, false, line, c)
  {
    assert r in roads;
    assert r.Covers(OnLine(true, line, c)) <==> line.at == 0 && 0 <= c <= 10;
  }

  lemma OneRoadHas(line: Line, c: int)
    ensures LineHas(OneRoadIndex().horizontal, line, c) <==> line.at == 0 && 0 <= c <= 10
    ensures LineHasEdge(OneRoadIndex().horizontal, line, c) <==> line.at == 0 && 0 <= c < 10
  {
    AppendCover([], Fragment(0, 10), c);
    assert [] + [Fragment(0, 10)] == [Fragment(0, 10)];
  }

  lemma FieldRows(roads: seq<Road>, r: Road)
    requires roads == [r] && r == Segment(Point(0, 0), Point(10, 0))
    ensures LinesMatch(OneRoadIndex().horizontal, roads, true)
  {
    forall line, c
      ensures LineHas(OneRoadIndex().horizontal, line, c) <==> ScanPoint(roads, true, line, c)
      ensures LineHasEdge(OneRoadIndex().horizontal, line, c) <==> ScanEdge(roads, true, line, c)
    {
      OneRoadScan(roads, r, line, c);
      OneRoadHas(line, c);
    }
  }

  lemma FieldColumns(roads: seq<Road>, r: Road)
    requires roads == [r] && r == Segment(Point(0, 0), Point(10, 0))
    ensures LinesMatch(OneRoadIndex().vertical, roads, false)
  {
    forall line, c ensures !ScanPoint(roads, false, line, c) && !ScanEdge(roads, false, line, c) {
      OneRoadScan(roads, r, line, c);
    }
  }

  lemma FieldIndex()
    ensures IndexOf(FIELD.roads) == OneRoadIndex()
  {
    FieldRows(FIELD.roads, FIELD.roads[0]);
    FieldColumns(FIELD.roads, FIELD.roads[0]);
    IndexUnique(IndexOf(FIELD.roads), OneRoadIndex(), FIELD.roads, FIELD.roads);
  }

  lemma WalkStep(d: DogState, x: real, t: int, end: real)
    requires d.body == Body(Vec(x, 0.0), EASTWARD) && d.direction == East && d.active && d.inactive == 0
    requires d.gatherer.width == DOG_WIDTH && 0.0 <= x && t >= 0 && end == x + t as real / 1000.0 <= 10.4
    ensures Moved(OneRoadIndex(), d, t) == d.(
      body := Body(Vec(end, 0.0), EASTWARD), gatherer := Gatherer(Vec(end + DOG_HEIGHT, 0.0), Vec(end, 0.0), DOG_WIDTH),
      live := d.live + t)
  {
    WallStep(x, t);
  }

  lemma SoloMoves(ix: Index, d: DogState, lost: map<nat, LostObject>, t: int)
    ensures MovedBoard(ix, Solo(d, lost), t) == Solo(Moved(ix, d, t), lost)
  {
  }

  lemma SoloStays(d: DogState, lost: map<nat, LostObject>)
    requires d.active
    ensures AfterRetirement(Solo(d, lost), LIMIT) == Solo(d, lost)
  {
    assert Retiring(map[0 := d], LIMIT) == {};
    assert map[0 := d] - {} == map[0 := d];
  }

  /** What lies on the line of a gatherer is collected iff its projection falls on it. */
  lemma OnLineIsWithin(a: Vec, b: Vec, c: Vec, ratio: real, radius: real)
    requires a != b && TryCollectPoint(a, b, c) == CollectionResult(0.0, ratio) && radius >= 0.0
    ensures PassesWithin(a, b, c, radius) <==> 0.0 <= ratio <= 1.0
  {
    assert radius * radius >= 0.0;
    CollectedIffPassesWithin(a, b, c, radius);
  }

  /** On the row of the road, looking east. */
  lemma RowRatio(a: Vec, b: Vec, c: Vec, ratio: real)
    requires a == Vec(b.x + DOG_HEIGHT, 0.0) && b.y == 0.0 && c.y == 0.0 && a.x - c.x == ratio * DOG_HEIGHT
    ensures TryCollectPoint(a, b, c) == CollectionResult(0.0, ratio)
  {
    HalfCellGatherer(a, b, c, a.x - c.x, 0.0);
  }

  lemma OneEvent(items: seq<Item>, gatherers: seq<Gatherer>, g: Gatherer, i: Item)
    requires items == [i] && gatherers == [g] && g.start != g.end
    requires TryCollectPoint(g.start, g.end, i.position) == CollectionResult(0.0, 0.8)
    requires PassesWithin(g.start, g.end, i.position, i.width + g.width)
    ensures IsEventList(items, gatherers, [PICK])
  {
    forall e ensures e in [PICK] <==> IsEvent(items, gatherers, e) {
      if IsEvent(items, gatherers, e) {
        assert e == PICK && [PICK][0] == e;
      }
    }
  }

  lemma NoEvent(items: seq<Item>, gatherers: seq<Gatherer>, g: Gatherer, i: Item)
    requires items == [i] && gatherers == [g] && !PassesWithin(g.start, g.end, i.position, i.width + g.width)
    ensures IsEventList(items, gatherers, [])
  {
  }

  lemma EarlyEvents(items: seq<Item>, gatherers: seq<Gatherer>, a: Vec, b: Vec, c: Vec, width: real)
    requires a == Vec(b.x + DOG_HEIGHT, 0.0) && b == Vec(0.5, 0.0) && c == Vec(0.6, 0.0) && width >= 0.0
    requires items == [Item(c, 0.0)] && gatherers == [Gatherer(a, b, width)]
    ensures IsEventList(items, gatherers, [PICK])
  {
    RowRatio(a, b, c, 0.8);
    OnLineIsWithin(a, b, c, 0.8, 0.0 + width);
    OneEvent(items, gatherers, Gatherer(a, b, width), Item(c, 0.0));
  }

  lemma LateEvents(items: seq<Item>, gatherers: seq<Gatherer>, a: Vec, b: Vec, c: Vec, width: real)
    requires a == Vec(b.x + DOG_HEIGHT, 0.0) && b == Vec(1.0, 0.0) && c == Vec(0.6, 0.0) && width >= 0.0
    requires items == [Item(c, 0.0)] && gatherers == [Gatherer(a, b, width)]
    ensures IsEventList(items, gatherers, [])
  {
    RowRatio(a, b, c, 1.8);
    OnLineIsWithin(a, b, c, 1.8, 0.0 + width);
    NoEvent(items, gatherers, Gatherer(a, b, width), Item(c, 0.0));
  }

  lemma BallTick(b: Board, d: DogState, events: seq<GatheringEvent>)
    requires b == Solo(d, map[0 := BALL])
    requires (d == Walking(0.5, 500) && events == [PICK]) || (d == Walking(1.0, 1000) && events == [])
    ensures TickEvents(FIELD, b, BALL_ONLY, events) && Playable(b, BALL_ONLY, events)
  {
    var items, gatherers := ItemsOf(BALL_ONLY.things), GatherersOf(b, BALL_ONLY.ids);
    assert items == [Item(BALL.position, 0.0)] && gatherers == [d.gatherer];
    if events == [] {
      LateEvents(items, gatherers, d.gatherer.start, d.gatherer.end, BALL.position, DOG_WIDTH);
    } else {
      EarlyEvents(items, gatherers, d.gatherer.start, d.gatherer.end, BALL.position, DOG_WIDTH);
    }
    assert OfficesAfter(FIELD, BALL_ONLY.things, 1);
    assert Loot(BALL) == BALL_ONLY.things[0] && BALL_ONLY.ids[0] == 0;
  }

  lemma EmptyTick(b: Board, d: DogState)
    requires b == Solo(d, map[])
    ensures TickEvents(FIELD, b, NOTHING, []) && Playable(b, NOTHING, [])
  {
    assert ItemsOf(NOTHING.things) == [];
    assert OfficesAfter(FIELD, NOTHING.things, 0);
    assert NOTHING.ids[0] == 0;
  }

  lemma {:induction false} PicksBall(b: Board, d: DogState)
    requires b == Solo(d, map[0 := BALL]) && d == Walking(0.5, 500) && Playable(b, BALL_ONLY, [PICK])
    ensures Play(b, BALL_ONLY, [PICK]) == HALFWAY.board
  {
    assert [PICK][..0] == [];
    PlayLast(b, BALL_ONLY, [PICK]);
    assert d.bag + [Found(BALL)] == [Found(BALL)];
    assert b.dogs[0 := d.(bag := [Found(BALL)])] == HALFWAY.board.dogs;
    assert b.lost - {0} == map[];
  }

  /** The first half second. */
  lemma FirstHalf(ix: Index)
    requires ix == OneRoadIndex()
    ensures Next(FIELD, ix, LIMIT, LAID, Advance(500, BALL_ONLY, [PICK]), HALFWAY)
  {
    var b := Solo(Walking(0.5, 500), map[0 := BALL]);
    WalkStep(STARTER, 0.0, 500, 0.5);
    SoloMoves(ix, STARTER, map[0 := BALL], 500);
    BallTick(b, Walking(0.5, 500), [PICK]);
    PicksBall(b, Walking(0.5, 500));
    SoloStays(Walking(0.5, 500).(bag := [Found(BALL)]), map[]);
    TickOf(FIELD, ix, LAID, 500, BALL_ONLY, [PICK], b, HALFWAY.board);
  }

  /** The second half second. */
  lemma SecondHalf(ix: Index)
    requires ix == OneRoadIndex()
    ensures Next(FIELD, ix, LIMIT, HALFWAY, Advance(500, NOTHING, []), TWICE)
  {
    var d, e := Walking(0.5, 500).(bag := [Found(BALL)]), Walking(1.0, 1000).(bag := [Found(BALL)]);
    WalkStep(d, 0.5, 500, 1.0);
    SoloMoves(ix, d, map[], 500);
    EmptyTick(Solo(e, map[]), e);
    SoloStays(e, map[]);
    TickOf(FIELD, ix, HALFWAY, 500, NOTHING, [], TWICE.board, TWICE.board);
  }

  /** The whole second at once. */
  lemma WholeSecond(ix: Index)
    requires ix == OneRoadIndex()
    ensures Next(FIELD, ix, LIMIT, LAID, Advance(1000, BALL_ONLY, []), ONCE)
  {
    WalkStep(STARTER, 0.0, 1000, 1.0);
    SoloMoves(ix, STARTER, map[0 := BALL], 1000);
    BallTick(ONCE.board, Walking(1.0, 1000), []);
    SoloStays(Walking(1.0, 1000), map[0 := BALL]);
    TickOf(FIELD, ix, LAID, 1000, BALL_ONLY, [], ONCE.board, ONCE.board);
  }

  lemma Leaves(ix: Index)
    ensures Next(FIELD, ix, LIMIT, ONE, SetOut(), OUT)
  {
    assert Commanded(Parked(0), Some(East), 1.0) == STARTER;
    assert ONE.board.dogs[0 := STARTER] == OUT.board.dogs;
  }

  lemma Lays(ix: Index)
    ensures Next(FIELD, ix, LIMIT, OUT, LayBall(), LAID)
  {
    var draws := [Draw(0, 0, 0.06)];
    assert |OUT.board.dogs| == 1;
    assert DroppedAll(FIELD, OUT, draws[..0]) == OUT;
    assert PointOnRoad(FIELD.roads[0], 0.06) == BALL.position;
  }

  lemma ThreeSteps(ix: Index, actions: seq<Action>, trace: seq<SessionState>)
    requires |actions| == 3 && |trace| == 4 && trace[0] == FRESH
    requires StepAt(FIELD, ix, LIMIT, actions, trace, 0) && StepAt(FIELD, ix, LIMIT, actions, trace, 1)
    requires StepAt(FIELD, ix, LIMIT, actions, trace, 2)
    ensures IsRun(FIELD, ix, LIMIT, actions, trace)
  {
    forall i | 0 <= i < 3 ensures StepAt(FIELD, ix, LIMIT, actions, trace, i) {
      assert i == 0 || i == 1 || i == 2;
    }
  }

  lemma RunToBall(ix: Index, actions: seq<Action>, trace: seq<SessionState>)
    requires actions == [Enter(), SetOut(), LayBall()] && trace == [FRESH, ONE, OUT, LAID]
    ensures IsRun(FIELD, ix, LIMIT, actions, trace)
  {
    Joins(ix);
    Leaves(ix);
    Lays(ix);
    OneStep(FIELD, ix, actions, trace, 0, FRESH, Enter(), ONE);
    OneStep(FIELD, ix, actions, trace, 1, ONE, SetOut(), OUT);
    OneStep(FIELD, ix, actions, trace, 2, OUT, LayBall(), LAID);
    ThreeSteps(ix, actions, trace);
  }

  /** A dog walks past a ball. In two ticks of half a second it ends with the ball in its bag, in one tick of a
      second without it, at the same place. */
  lemma CutDecides(ix: Index)
    requires ix == IndexOf(FIELD.roads)
    ensures IsRun(FIELD, ix, LIMIT, [Enter(), SetOut(), LayBall()], [FRESH, ONE, OUT, LAID])
    ensures Next(FIELD, ix, LIMIT, LAID, Advance(500, BALL_ONLY, [PICK]), HALFWAY)
    ensures Next(FIELD, ix, LIMIT, HALFWAY, Advance(500, NOTHING, []), TWICE)
    ensures Next(FIELD, ix, LIMIT, LAID, Advance(1000, BALL_ONLY, []), ONCE)
    ensures TWICE.board.dogs[0].body == ONCE.board.dogs[0].body
    ensures TWICE.board.dogs[0].bag == [Found(BALL)] && ONCE.board.dogs[0].bag == []
  {
    FieldIndex();
    RunToBall(ix, [Enter(), SetOut(), LayBall()], [FRESH, ONE, OUT, LAID]);
    FirstHalf(ix);
    SecondHalf(ix);
    WholeSecond(ix);
  }
}
