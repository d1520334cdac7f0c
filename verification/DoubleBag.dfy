/** The smallest run in which two dogs bag the same object. */
module DoubleBags {
  import opened Wrappers
  import opened Geometry
  import opened RoadIndices
  import opened Movement
  import opened Pavements
  import opened CollisionDetector
  import opened Dogs
  import opened MapSums
  import opened Gathering
  import opened LootGenerators
  import opened Sessions

  /** One road, and objects of value 10. */
  const FIELD := MapInfo("field", [Segment(Point(0, 0), Point(10, 0))], [], 1.0, 3, [10])

  const LIMIT := 60

  const TREASURE := LostObject(0, 0, ZERO, 10)

  /** A dog that has not moved yet. */
  function Parked(id: nat): DogState { NewDog(id, "dog", ZERO, 3) }

  /** The same after a tick: at rest, looking north. */
  function Looking(id: nat): DogState {
    Parked(id).(
      gatherer := Gatherer(Vec(0.0, -DOG_HEIGHT), ZERO, DOG_WIDTH), inactive := 50, live := 50, active := false)
  }

  function Happy(id: nat): DogState { Looking(id).(bag := [Found(TREASURE)]) }

  function Pair(a: DogState, b: DogState): map<nat, DogState> { map[0 := a, 1 := b] }

  function Meeting(gatherer: nat): GatheringEvent { GatheringEvent(0, gatherer, 0.0, 1.0) }

  const SETUP := Setup([Loot(TREASURE)], [0, 1])

  const EVENTS := [Meeting(0), Meeting(1)]

  function Enter(): Action { Join("dog", false, 0, 0.0) }

  function Drop(): Action { Generate(0.5, [Draw(0, 0, 0.0)]) }

  function TheTick(): Action { Advance(50, SETUP, EVENTS) }

  const ONE := SessionState(Board(map[0 := Parked(0)], map[]), 1, 0)

  const TWO := SessionState(Board(Pair(Parked(0), Parked(1)), map[]), 2, 0)

  const BEFORE := SessionState(Board(Pair(Parked(0), Parked(1)), map[0 := TREASURE]), 2, 1)

  const AFTER := SessionState(Board(Pair(Happy(0), Happy(1)), map[]), 2, 1)

  lemma RestsAt(d: DogState, b: Body)
    requires b == d.body && b == Body(ZERO, ZERO) && d == Parked(d.id)
    ensures Placed(d, b, 50) == Looking(d.id)
  {
  }

  /** What lies where the dog stands is collected, at the end of its gatherer. */
  lemma Meets(a: Vec)
    requires a == Vec(0.0, -DOG_HEIGHT)
    ensures TryCollectPoint(a, ZERO, ZERO) == CollectionResult(0.0, 1.0)
  {
    HalfCellGatherer(a, ZERO, ZERO, DOG_HEIGHT, 0.0);
  }

  lemma MetIsWithin(a: Vec, b: Vec, c: Vec, radius: real)
    requires a != b && TryCollectPoint(a, b, c) == CollectionResult(0.0, 1.0) && radius >= 0.0
    ensures PassesWithin(a, b, c, radius)
  {
    assert radius * radius >= 0.0;
    CollectedIffPassesWithin(a, b, c, radius);
  }

  lemma EventsAre(items: seq<Item>, gatherers: seq<Gatherer>, g: Gatherer, i: Item)
    requires items == [i] && gatherers == [g, g] && g.start != g.end
    requires TryCollectPoint(g.start, g.end, i.position) == CollectionResult(0.0, 1.0)
    requires PassesWithin(g.start, g.end, i.position, i.width + g.width)
    ensures IsEventList(items, gatherers, EVENTS)
  {
    forall e ensures e in EVENTS <==> IsEvent(items, gatherers, e) {
      if IsEvent(items, gatherers, e) {
        assert e == Meeting(e.gatherer) && EVENTS[e.gatherer] == e;
      }
    }
  }

  lemma EventsOf(items: seq<Item>, gatherers: seq<Gatherer>, a: Vec, width: real)
    requires a == Vec(0.0, -DOG_HEIGHT) && width >= 0.0
    requires items == [Item(ZERO, 0.0)] && gatherers == [Gatherer(a, ZERO, width), Gatherer(a, ZERO, width)]
    ensures IsEventList(items, gatherers, EVENTS)
  {
    Meets(a);
    MetIsWithin(a, ZERO, ZERO, 0.0 + width);
    EventsAre(items, gatherers, Gatherer(a, ZERO, width), Item(ZERO, 0.0));
  }

  const MOVED := Board(Pair(Looking(0), Looking(1)), map[0 := TREASURE])

  lemma MovedPair(ix: Index, a: DogState, b: DogState, t: int)
    ensures AllMoved(ix, Pair(a, b), t) == Pair(Moved(ix, a, t), Moved(ix, b, t))
  {
  }

  /** Dogs at rest stay where they are. */
  lemma MoveBoth(ix: Index, stay: Body)
    requires stay == Body(ZERO, ZERO) && MoveBody(ix, stay, 50) == stay
    ensures MovedBoard(ix, BEFORE.board, 50) == MOVED
  {
    RestsAt(Parked(0), stay);
    RestsAt(Parked(1), stay);
    MovedPair(ix, Parked(0), Parked(1), 50);
  }

  lemma TickFinds()
    ensures TickEvents(FIELD, MOVED, SETUP, EVENTS) && Playable(MOVED, SETUP, EVENTS)
  {
    var a := Vec(0.0, -DOG_HEIGHT);
    assert ItemsOf(SETUP.things) == [Item(ZERO, 0.0)];
    assert GatherersOf(MOVED, SETUP.ids) == [Gatherer(a, ZERO, DOG_WIDTH), Gatherer(a, ZERO, DOG_WIDTH)];
    EventsOf(ItemsOf(SETUP.things), GatherersOf(MOVED, SETUP.ids), a, DOG_WIDTH);
    assert OfficesAfter(FIELD, SETUP.things, 1);
    assert Loot(TREASURE) == SETUP.things[0];
    assert SETUP.ids[0] == 0 && SETUP.ids[1] == 1;
  }

  lemma Takes(dogs: map<nat, DogState>, lost: map<nat, LostObject>, id: nat)
    requires id < 2 && id in dogs && dogs[id] == Looking(id)
    ensures Process(Board(dogs, lost), SETUP, Meeting(id)) == Board(dogs[id := Happy(id)], lost - {0})
  {
    assert Looking(id).bag + [Found(TREASURE)] == [Found(TREASURE)];
  }

  /** The first dog takes the object off the map; the second does not look, and takes it too. */
  lemma BothTake()
    requires Playable(MOVED, SETUP, EVENTS)
    ensures Play(MOVED, SETUP, EVENTS) == AFTER.board
    ensures !NoDoubles(MOVED, SETUP, EVENTS)
  {
    var first := EVENTS[..1];
    assert first == [Meeting(0)] && first[..0] == [];
    Takes(MOVED.dogs, MOVED.lost, 0);
    assert MOVED.dogs[0 := Happy(0)] == Pair(Happy(0), Looking(1)) && MOVED.lost - {0} == map[];
    PlayLast(MOVED, SETUP, first);
    PlayLast(MOVED, SETUP, EVENTS);
    Takes(Pair(Happy(0), Looking(1)), map[], 1);
    assert Pair(Happy(0), Looking(1))[1 := Happy(1)] == AFTER.board.dogs;
    TookIt(0);
    TookIt(1);
  }

  lemma TookIt(id: nat)
    requires id < 2
    ensures SETUP.Fits(EVENTS) && Picked(MOVED, SETUP, EVENTS, id, 0)
  {
    var first := EVENTS[..1];
    assert first == [Meeting(0)] && first[..0] == [];
    assert Own(SETUP, first, id) == if id == 0 then [Loot(TREASURE)] else [];
    assert Own(SETUP, EVENTS, id) == [Loot(TREASURE)];
    assert Accepted(Looking(id), [Loot(TREASURE)]) == [TREASURE];
    assert TREASURE in Accepted(MOVED.dogs[id], Own(SETUP, EVENTS, id));
  }

  lemma {:induction false} OneTwoDogs(a: DogState, b: DogState, f: DogState -> int)
    ensures SumOver(Pair(a, b), f) == f(a) + f(b)
  {
    SumWithout(Pair(a, b), f, 1);
    assert Pair(a, b) - {1} == map[0 := a];
    SumWithout(map[0 := a], f, 0);
    assert map[0 := a] - {0} == map[];
  }

  lemma Values()
    ensures TotalValue(BEFORE.board) == 10 && TotalValue(AFTER.board) == 20
  {
    var value, ledger := (o: LostObject) => o.value, (d: DogState) => Ledger(d);
    OneTwoDogs(Parked(0), Parked(1), ledger);
    OneTwoDogs(Happy(0), Happy(1), ledger);
    SumWithout(map[0 := TREASURE], value, 0);
    assert map[0 := TREASURE] - {0} == map[];
  }

  lemma Joins(ix: Index)
    ensures Next(FIELD, ix, LIMIT, FRESH, Enter(), ONE) && Next(FIELD, ix, LIMIT, ONE, Enter(), TWO)
  {
    assert SpawnPoint(FIELD.roads, false, 0, 0.0) == ZERO;
  }

  lemma Drops(ix: Index)
    ensures Next(FIELD, ix, LIMIT, TWO, Drop(), BEFORE)
  {
    RoundNear(1.0, 1);
    assert |TWO.board.dogs| == 2;
    assert Generated(0, 2, 0.5) == 1;
    var draws := [Draw(0, 0, 0.0)];
    assert DroppedAll(FIELD, TWO, draws[..0]) == TWO;
    assert PointOnRoad(FIELD.roads[0], 0.0) == ZERO;
  }

  lemma NobodyRetires()
    ensures AfterRetirement(AFTER.board, LIMIT) == AFTER.board
  {
    assert Retiring(AFTER.board.dogs, LIMIT) == {};
    assert AFTER.board.dogs - {} == AFTER.board.dogs;
  }

  lemma {:induction false} TickOf(m: MapInfo, ix: Index, s: SessionState, t: int, setup: Setup,
                                  events: seq<GatheringEvent>, moved: Board, played: Board)
    requires MovedBoard(ix, s.board, t) == moved
    requires TickEvents(m, moved, setup, events) && Playable(moved, setup, events)
    requires Play(moved, setup, events) == played && AfterRetirement(played, LIMIT) == played
    ensures Next(m, ix, LIMIT, s, Advance(t, setup, events), s.(board := played))
  {
  }

  lemma Ticks(ix: Index)
    ensures Next(FIELD, ix, LIMIT, BEFORE, TheTick(), AFTER)
  {
    StandsStill(ix, Body(ZERO, ZERO), 50);
    MoveBoth(ix, Body(ZERO, ZERO));
    TickFinds();
    BothTake();
    NobodyRetires();
    TickOf(FIELD, ix, BEFORE, 50, SETUP, EVENTS, MOVED, AFTER.board);
  }

  lemma OneStep(m: MapInfo, ix: Index, actions: seq<Action>, trace: seq<SessionState>, i: nat,
                s: SessionState, a: Action, r: SessionState)
    requires i < |actions| && |trace| == |actions| + 1
    requires trace[i] == s && actions[i] == a && trace[i + 1] == r && Next(m, ix, LIMIT, s, a, r)
    ensures StepAt(m, ix, LIMIT, actions, trace, i)
  {
  }

  lemma FourSteps(m: MapInfo, ix: Index, actions: seq<Action>, trace: seq<SessionState>)
    requires |actions| == 4 && |trace| == 5 && trace[0] == FRESH
    requires StepAt(m, ix, LIMIT, actions, trace, 0) && StepAt(m, ix, LIMIT, actions, trace, 1)
    requires StepAt(m, ix, LIMIT, actions, trace, 2) && StepAt(m, ix, LIMIT, actions, trace, 3)
    ensures IsRun(m, ix, LIMIT, actions, trace)
  {
    forall i | 0 <= i < 4 ensures StepAt(m, ix, LIMIT, actions, trace, i) {
      assert i == 0 || i == 1 || i == 2 || i == 3;
    }
  }

  lemma TheJoins(ix: Index, actions: seq<Action>, trace: seq<SessionState>)
    requires |actions| == 4 && |trace| == 5 && actions[0] == actions[1] == Enter()
    requires trace[0] == FRESH && trace[1] == ONE && trace[2] == TWO
    ensures StepAt(FIELD, ix, LIMIT, actions, trace, 0) && StepAt(FIELD, ix, LIMIT, actions, trace, 1)
  {
    Joins(ix);
    OneStep(FIELD, ix, actions, trace, 0, FRESH, Enter(), ONE);
    OneStep(FIELD, ix, actions, trace, 1, ONE, Enter(), TWO);
  }

  lemma TheDrop(ix: Index, actions: seq<Action>, trace: seq<SessionState>)
    requires |actions| == 4 && |trace| == 5 && actions[2] == Drop() && trace[2] == TWO && trace[3] == BEFORE
    ensures StepAt(FIELD, ix, LIMIT, actions, trace, 2)
  {
    Drops(ix);
    OneStep(FIELD, ix, actions, trace, 2, TWO, Drop(), BEFORE);
  }

  lemma TheLast(ix: Index, actions: seq<Action>, trace: seq<SessionState>)
    requires |actions| == 4 && |trace| == 5 && actions[3] == TheTick() && trace[3] == BEFORE && trace[4] == AFTER
    ensures StepAt(FIELD, ix, LIMIT, actions, trace, 3)
  {
    Ticks(ix);
    OneStep(FIELD, ix, actions, trace, 3, BEFORE, TheTick(), AFTER);
  }

  lemma TheRun(ix: Index, actions: seq<Action>, trace: seq<SessionState>)
    requires actions == [Enter(), Enter(), Drop(), TheTick()] && trace == [FRESH, ONE, TWO, BEFORE, AFTER]
    ensures IsRun(FIELD, ix, LIMIT, actions, trace)
  {
    TheJoins(ix, actions, trace);
    TheDrop(ix, actions, trace);
    TheLast(ix, actions, trace);
    FourSteps(FIELD, ix, actions, trace);
  }

  /** Two joins, one object, one tick: both dogs end with it, and the value in the session has doubled. */
  lemma BothBagIt(ix: Index)
    requires ix == IndexOf(FIELD.roads)
    ensures IsRun(FIELD, ix, LIMIT, [Enter(), Enter(), Drop(), TheTick()], [FRESH, ONE, TWO, BEFORE, AFTER])
    ensures MovedBoard(ix, BEFORE.board, 50) == MOVED
    ensures Playable(MOVED, SETUP, EVENTS) && !NoDoubles(MOVED, SETUP, EVENTS)
    ensures TotalValue(BEFORE.board) == 10 && TotalValue(AFTER.board) == 20
  {
    TheRun(ix, [Enter(), Enter(), Drop(), TheTick()], [FRESH, ONE, TWO, BEFORE, AFTER]);
    StandsStill(ix, Body(ZERO, ZERO), 50);
    MoveBoth(ix, Body(ZERO, ZERO));
    TickFinds();
    BothTake();
    Values();
  }
}
