/** A run with a tie: one dog, two objects at its feet, and a bag for one of them. */
module TieRuns {
  import opened Wrappers
  import opened Geometry
  import opened RoadIndices
  import opened Movement
  import opened Pavements
  import opened CollisionDetector
  import opened Dogs
  import opened Gathering
  import opened LootGenerators
  import opened Sessions
  import opened DoubleBags

  /** One road, bags for one object, and two kinds of objects. */
  const LANE := MapInfo("lane", [Segment(Point(0, 0), Point(10, 0))], [], 1.0, 1, [10, 20])

  const CORNER := Vec(10.0, 0.0)

  const COIN := LostObject(0, 0, ZERO, 10)

  const GEM := LostObject(1, 1, ZERO, 20)

  function Still(id: nat, pos: Vec): DogState { NewDog(id, "dog", pos, 1) }

  /** The same after a tick: at rest, looking north. */
  function Gazing(id: nat, pos: Vec): DogState {
    Still(id, pos).(
      gatherer := Gatherer(Vec(pos.x, pos.y - DOG_HEIGHT), pos, DOG_WIDTH), inactive := 50, live := 50, active := false)
  }

  function Holding(o: LostObject): DogState { Gazing(0, ZERO).(bag := [Found(o)]) }

  function Contact(item: nat): GatheringEvent { GatheringEvent(item, 0, 0.0, 1.0) }

  const BOTH := Setup([Loot(COIN), Loot(GEM)], [0, 1])

  const COIN_FIRST := [Contact(0), Contact(1)]

  const GEM_FIRST := [Contact(1), Contact(0)]

  /** A dog at one end of the road or at the other. */
  function Arrive(phase: real): Action { Join("dog", true, 0, phase) }

  function Scatter(): Action { Generate(1.0, [Draw(0, 0, 0.0), Draw(1, 0, 0.0)]) }

  function TickWith(events: seq<GatheringEvent>): Action { Advance(50, BOTH, events) }

  const ALONE := SessionState(Board(map[0 := Still(0, ZERO)], map[]), 1, 0)

  const APART := SessionState(Board(Pair(Still(0, ZERO), Still(1, CORNER)), map[]), 2, 0)

  const ASTRIDE := SessionState(Board(Pair(Still(0, ZERO), Still(1, CORNER)), map[0 := COIN, 1 := GEM]), 2, 2)

  const SETTLED := Board(Pair(Gazing(0, ZERO), Gazing(1, CORNER)), map[0 := COIN, 1 := GEM])

  const WITH_COIN := SessionState(Board(Pair(Holding(COIN), Gazing(1, CORNER)), map[1 := GEM]), 2, 2)

  const WITH_GEM := SessionState(Board(Pair(Holding(GEM), Gazing(1, CORNER)), map[0 := COIN]), 2, 2)

  /* ---- the events ---- */

  /** What lies ten cells away is not collected. */
  lemma Misses(a: Vec, radius: real)
    requires a == Vec(10.0, -DOG_HEIGHT) && 0.0 <= radius <= 1.0
    ensures !PassesWithin(a, CORNER, ZERO, radius)
  {
    HalfCellGatherer(a, CORNER, ZERO, DOG_HEIGHT, -10.0);
    assert Times(-10.0, -10.0) == 100.0;
    assert radius * radius <= 1.0 by {
      assert radius - radius * radius == Times(radius, 1.0 - radius);
    }
    CollectedIffPassesWithin(a, CORNER, ZERO, radius);
  }

  lemma ContactsAre(items: seq<Item>, gatherers: seq<Gatherer>, near: Gatherer, far: Gatherer, i: Item,
                    events: seq<GatheringEvent>)
    requires items == [i, i] && gatherers == [near, far] && near.start != near.end
    requires TryCollectPoint(near.start, near.end, i.position) == CollectionResult(0.0, 1.0)
    requires PassesWithin(near.start, near.end, i.position, i.width + near.width)
    requires !PassesWithin(far.start, far.end, i.position, i.width + far.width)
    requires events == COIN_FIRST || events == GEM_FIRST
    ensures IsEventList(items, gatherers, events)
  {
    forall e ensures e in events <==> IsEvent(items, gatherers, e) {
      if IsEvent(items, gatherers, e) {
        assert e == Contact(e.item) && (e == events[0] || e == events[1]);
      }
    }
  }

  lemma ContactsOf(items: seq<Item>, gatherers: seq<Gatherer>, a: Vec, b: Vec, width: real, events: seq<GatheringEvent>)
    requires a == Vec(0.0, -DOG_HEIGHT) && b == Vec(10.0, -DOG_HEIGHT) && 0.0 <= width <= 1.0
    requires items == [Item(ZERO, 0.0), Item(ZERO, 0.0)]
    requires gatherers == [Gatherer(a, ZERO, width), Gatherer(b, CORNER, width)]
    requires events == COIN_FIRST || events == GEM_FIRST
    ensures IsEventList(items, gatherers, events)
  {
    Meets(a);
    MetIsWithin(a, ZERO, ZERO, 0.0 + width);
    Misses(b, 0.0 + width);
    ContactsAre(items, gatherers, Gatherer(a, ZERO, width), Gatherer(b, CORNER, width), Item(ZERO, 0.0), events);
  }

  /** Both orders are lists that the sort may leave. */
  lemma BothOrders(events: seq<GatheringEvent>)
    requires events == COIN_FIRST || events == GEM_FIRST
    ensures TickEvents(LANE, SETTLED, BOTH, events) && Playable(SETTLED, BOTH, events)
  {
    var a, b := Vec(0.0, -DOG_HEIGHT), Vec(10.0, -DOG_HEIGHT);
    assert ItemsOf(BOTH.things) == [Item(ZERO, 0.0), Item(ZERO, 0.0)];
    assert GatherersOf(SETTLED, BOTH.ids) == [Gatherer(a, ZERO, DOG_WIDTH), Gatherer(b, CORNER, DOG_WIDTH)];
    ContactsOf(ItemsOf(BOTH.things), GatherersOf(SETTLED, BOTH.ids), a, b, DOG_WIDTH, events);
    assert OfficesAfter(LANE, BOTH.things, 2);
    assert Loot(COIN) == BOTH.things[0] && Loot(GEM) == BOTH.things[1];
    assert BOTH.ids[0] == 0 && BOTH.ids[1] == 1;
  }

  /* ---- the outcomes ---- */

  lemma {:induction false} TakesOne(events: seq<GatheringEvent>, o: LostObject)
    requires (events == COIN_FIRST && o == COIN) || (events == GEM_FIRST && o == GEM)
    requires Playable(SETTLED, BOTH, events)
    ensures Play(SETTLED, BOTH, events) == Board(Pair(Holding(o), Gazing(1, CORNER)), SETTLED.lost - {o.id})
  {
    var first := events[..1];
    assert first == [events[0]] && first[..0] == [];
    assert Gazing(0, ZERO).bag + [Found(o)] == [Found(o)];
    assert SETTLED.dogs[0 := Holding(o)] == Pair(Holding(o), Gazing(1, CORNER));
    PlayLast(SETTLED, BOTH, first);
    PlayLast(SETTLED, BOTH, events);
  }

  lemma NobodyLeaves(o: LostObject, lost: map<nat, LostObject>)
    ensures var b := Board(Pair(Holding(o), Gazing(1, CORNER)), lost); AfterRetirement(b, LIMIT) == b
  {
    var dogs := Pair(Holding(o), Gazing(1, CORNER));
    assert Retiring(dogs, LIMIT) == {};
    assert dogs - {} == dogs;
  }

  /* ---- the steps ---- */

  lemma Comes(d: DogState, b: Body, pos: Vec)
    requires b == d.body && b == Body(pos, ZERO) && d == Still(d.id, pos)
    ensures Placed(d, b, 50) == Gazing(d.id, pos)
  {
  }

  lemma Settle(ix: Index)
    ensures MovedBoard(ix, ASTRIDE.board, 50) == SETTLED
  {
    StandsStill(ix, Body(ZERO, ZERO), 50);
    StandsStill(ix, Body(CORNER, ZERO), 50);
    Comes(Still(0, ZERO), Body(ZERO, ZERO), ZERO);
    Comes(Still(1, CORNER), Body(CORNER, ZERO), CORNER);
    MovedPair(ix, Still(0, ZERO), Still(1, CORNER), 50);
  }

  lemma Arrivals(ix: Index)
    ensures Next(LANE, ix, LIMIT, FRESH, Arrive(0.0), ALONE) && Next(LANE, ix, LIMIT, ALONE, Arrive(1.0), APART)
  {
    assert SpawnPoint(LANE.roads, true, 0, 0.0) == ZERO;
    assert SpawnPoint(LANE.roads, true, 0, 1.0) == CORNER;
  }

  lemma Scatters(ix: Index)
    ensures Next(LANE, ix, LIMIT, APART, Scatter(), ASTRIDE)
  {
    var draws := [Draw(0, 0, 0.0), Draw(1, 0, 0.0)];
    assert |APART.board.dogs| == 2;
    assert draws[..1] == [draws[0]] && draws[..1][..0] == [];
    assert PointOnRoad(LANE.roads[0], 0.0) == ZERO;
    assert DroppedAll(LANE, APART, []) == APART;
    assert DroppedAll(LANE, APART, draws[..1]) == Dropped(APART, 0, ZERO, 10);
    assert DroppedAll(LANE, APART, draws) == ASTRIDE;
  }

  lemma Ends(ix: Index, events: seq<GatheringEvent>, o: LostObject, lost: map<nat, LostObject>, end: Board)
    requires (events == COIN_FIRST && o == COIN) || (events == GEM_FIRST && o == GEM)
    requires lost == SETTLED.lost - {o.id} && end == Board(Pair(Holding(o), Gazing(1, CORNER)), lost)
    ensures Next(LANE, ix, LIMIT, ASTRIDE, TickWith(events), ASTRIDE.(board := end))
  {
    Settle(ix);
    BothOrders(events);
    TakesOne(events, o);
    NobodyLeaves(o, lost);
    TickOf(LANE, ix, ASTRIDE, 50, BOTH, events, SETTLED, end);
  }

  lemma TheArrivals(ix: Index, actions: seq<Action>, trace: seq<SessionState>)
    requires |actions| == 4 && |trace| == 5 && actions[0] == Arrive(0.0) && actions[1] == Arrive(1.0)
    requires trace[0] == FRESH && trace[1] == ALONE && trace[2] == APART
    ensures StepAt(LANE, ix, LIMIT, actions, trace, 0) && StepAt(LANE, ix, LIMIT, actions, trace, 1)
  {
    Arrivals(ix);
    OneStep(LANE, ix, actions, trace, 0, FRESH, Arrive(0.0), ALONE);
    OneStep(LANE, ix, actions, trace, 1, ALONE, Arrive(1.0), APART);
  }

  lemma TheScatter(ix: Index, actions: seq<Action>, trace: seq<SessionState>)
    requires |actions| == 4 && |trace| == 5 && actions[2] == Scatter() && trace[2] == APART && trace[3] == ASTRIDE
    ensures StepAt(LANE, ix, LIMIT, actions, trace, 2)
  {
    Scatters(ix);
    OneStep(LANE, ix, actions, trace, 2, APART, Scatter(), ASTRIDE);
  }

  lemma TheLastStep(ix: Index, actions: seq<Action>, trace: seq<SessionState>, s: SessionState)
    requires |actions| == 4 && |trace| == 5 && trace[3] == s && Next(LANE, ix, LIMIT, s, actions[3], trace[4])
    ensures StepAt(LANE, ix, LIMIT, actions, trace, 3)
  {
    OneStep(LANE, ix, actions, trace, 3, s, actions[3], trace[4]);
  }

  lemma WholeRun(ix: Index, actions: seq<Action>, trace: seq<SessionState>, last: Action, end: SessionState)
    requires |actions| == 4 && |trace| == 5
    requires actions[0] == Arrive(0.0) && actions[1] == Arrive(1.0) && actions[2] == Scatter() && actions[3] == last
    requires trace[0] == FRESH && trace[1] == ALONE && trace[2] == APART && trace[3] == ASTRIDE && trace[4] == end
    requires Next(LANE, ix, LIMIT, ASTRIDE, last, end)
    ensures IsRun(LANE, ix, LIMIT, actions, trace)
  {
    TheArrivals(ix, actions, trace);
    TheScatter(ix, actions, trace);
    TheLastStep(ix, actions, trace, ASTRIDE);
    FourSteps(LANE, ix, actions, trace);
  }

  /** Two dogs arrive, two objects appear at the feet of the first, and a tick passes. */
  function Steps(last: Action): (r: seq<Action>)
    ensures |r| == 4 && r[0] == Arrive(0.0) && r[1] == Arrive(1.0) && r[2] == Scatter() && r[3] == last
  {
    [Arrive(0.0), Arrive(1.0), Scatter(), last]
  }

  function States(end: SessionState): (r: seq<SessionState>)
    ensures |r| == 5 && r[0] == FRESH && r[1] == ALONE && r[2] == APART && r[3] == ASTRIDE && r[4] == end
  {
    [FRESH, ALONE, APART, ASTRIDE, end]
  }

  lemma RunOf(ix: Index, last: Action, end: SessionState)
    requires Next(LANE, ix, LIMIT, ASTRIDE, last, end)
    ensures IsRun(LANE, ix, LIMIT, Steps(last), States(end))
  {
    WholeRun(ix, Steps(last), States(end), last, end);
  }

  lemma CoinRun(ix: Index)
    ensures IsRun(LANE, ix, LIMIT, Steps(TickWith(COIN_FIRST)), States(WITH_COIN))
  {
    assert SETTLED.lost - {COIN.id} == map[1 := GEM];
    Ends(ix, COIN_FIRST, COIN, map[1 := GEM], WITH_COIN.board);
    RunOf(ix, TickWith(COIN_FIRST), WITH_COIN);
  }

  lemma GemRun(ix: Index)
    ensures IsRun(LANE, ix, LIMIT, Steps(TickWith(GEM_FIRST)), States(WITH_GEM))
  {
    assert SETTLED.lost - {GEM.id} == map[0 := COIN];
    Ends(ix, GEM_FIRST, GEM, map[0 := COIN], WITH_GEM.board);
    RunOf(ix, TickWith(GEM_FIRST), WITH_GEM);
  }

  /** Two runs of the same four steps, but for the order in which the sort left two events of one time: the dog
      ends with the coin and the gem on the map, or the other way round. */
  lemma OrderDecides(ix: Index)
    requires ix == IndexOf(LANE.roads)
    ensures COIN_FIRST == [Contact(0), Contact(1)] && GEM_FIRST == [Contact(1), Contact(0)]
    ensures IsRun(LANE, ix, LIMIT, Steps(TickWith(COIN_FIRST)), States(WITH_COIN))
    ensures IsRun(LANE, ix, LIMIT, Steps(TickWith(GEM_FIRST)), States(WITH_GEM))
    ensures WITH_COIN.board.dogs[0].bag == [Found(COIN)] && WITH_GEM.board.dogs[0].bag == [Found(GEM)]
    ensures WITH_COIN.board.lost == map[1 := GEM] && WITH_GEM.board.lost == map[0 := COIN]
  {
    CoinRun(ix);
    GemRun(ix);
  }
}
