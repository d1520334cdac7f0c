/** A session as a state machine: what every run of joins, commands, loot drops and ticks keeps. */
module Sessions {
  import opened Wrappers
  import opened Geometry
  import opened RoadIndices
  import opened Movement
  import opened CollisionDetector
  import opened Dogs
  import opened Gathering
  import opened LootGenerators

  datatype MapInfo = MapInfo(
    id: string, roads: seq<Road>, offices: seq<Office>, dogSpeed: real, bagCapacity: nat, lootValues: seq<int>)

  datatype SessionState = SessionState(board: Board, nextDog: nat, nextLost: nat)

  const FRESH := SessionState(Board(map[], map[]), 0, 0)

  datatype PlayerRecord = PlayerRecord(name: string, score: Score, playTime: int)

  /** What the draws of one spawn choose. */
  datatype Draw = Draw(kind: nat, road: nat, phase: real)

  predicate DrawOk(m: MapInfo, d: Draw) { d.kind < |m.lootValues| && d.road < |m.roads| && 0.0 <= d.phase <= 1.0 }

  /* ---- operations ---- */

  function Joined(m: MapInfo, s: SessionState, name: string, spawn: Vec): SessionState {
    SessionState(
      s.board.(dogs := s.board.dogs[s.nextDog := NewDog(s.nextDog, name, spawn, m.bagCapacity)]),
      s.nextDog + 1, s.nextLost)
  }

  function Dropped(s: SessionState, kind: nat, spawn: Vec, value: int): SessionState {
    SessionState(
      s.board.(lost := s.board.lost[s.nextLost := LostObject(s.nextLost, kind, spawn, value)]),
      s.nextDog, s.nextLost + 1)
  }

  function DroppedAll(m: MapInfo, s: SessionState, draws: seq<Draw>): SessionState
    requires forall d :: d in draws ==> DrawOk(m, d)
  {
    if draws == [] then s
    else
      var d := draws[|draws| - 1];
      assert d in draws && DrawOk(m, d);
      Dropped(DroppedAll(m, s, draws[..|draws| - 1]),
              d.kind, PointOnRoad(m.roads[d.road], d.phase), m.lootValues[d.kind])
  }

  lemma {:induction false} DroppedSnoc(m: MapInfo, s: SessionState, draws: seq<Draw>, d: Draw)
    requires (forall e :: e in draws ==> DrawOk(m, e)) && DrawOk(m, d)
    ensures (forall e :: e in draws + [d] ==> DrawOk(m, e))
    ensures DroppedAll(m, s, draws + [d])
      == Dropped(DroppedAll(m, s, draws), d.kind, PointOnRoad(m.roads[d.road], d.phase), m.lootValues[d.kind])
  {
    assert (draws + [d])[..|draws|] == draws;
  }

  /** Each draw drops one object, under the next number: of the drawn kind, worth what the map says of it, and at the
      drawn point of the drawn road. */
  lemma {:induction false} DroppedEach(m: MapInfo, s: SessionState, draws: seq<Draw>, k: nat)
    requires (forall d :: d in draws ==> DrawOk(m, d)) && k < |draws|
    ensures var (r, d, oid) := (DroppedAll(m, s, draws), draws[k], s.nextLost + k);
      && d in draws && DrawOk(m, d) && r.nextLost == s.nextLost + |draws| && oid in r.board.lost
      && var o := r.board.lost[oid];
        o.id == oid && o.kind == d.kind && o.value == m.lootValues[d.kind]
        && AtPhase(m.roads[d.road], d.phase, o.position)
    decreases |draws|
  {
    var n := |draws| - 1;
    var init, last := draws[..n], draws[n];
    assert last in draws;
    DroppedCount(m, s, init);
    DrawnPoint(m.roads[last.road], last.phase);
    if k < n {
      DroppedEach(m, s, init, k);
    }
  }

  lemma {:induction false} DroppedCount(m: MapInfo, s: SessionState, draws: seq<Draw>)
    requires forall d :: d in draws ==> DrawOk(m, d)
    ensures DroppedAll(m, s, draws).nextLost == s.nextLost + |draws|
  {
    if draws != [] {
      DroppedCount(m, s, draws[..|draws| - 1]);
    }
  }

  /** `session->AddDog(dog)`: under the counter of the session, whatever the dog's own id. */
  function WithDog(s: SessionState, d: DogState): SessionState {
    SessionState(s.board.(dogs := Emplace(s.board.dogs, s.nextDog, d)), s.nextDog + 1, s.nextLost)
  }

  function WithLost(s: SessionState, o: LostObject): SessionState {
    SessionState(s.board.(lost := Emplace(s.board.lost, s.nextLost, o)), s.nextDog, s.nextLost + 1)
  }

  /** `SetDogDirection`; an unknown dog is an error. */
  function Directed(m: MapInfo, s: SessionState, id: nat, direction: Option<Direction>): Result<SessionState, string> {
    if id in s.board.dogs then
      Ok(s.(board := s.board.(dogs := s.board.dogs[id := Commanded(s.board.dogs[id], direction, m.dogSpeed)])))
    else Err("Invalid dog id")
  }

  function AllMoved(ix: Index, dogs: map<nat, DogState>, t: int): (r: map<nat, DogState>)
    ensures r.Keys == dogs.Keys
  {
    map id | id in dogs :: Moved(ix, dogs[id], t)
  }

  function Retiring(dogs: map<nat, DogState>, limit: nat): set<nat> {
    set id | id in dogs && PlayTime(dogs[id], limit).Some?
  }

  /** The vectors a tick builds out of the hash maps, in any order. */
  ghost predicate BuiltFrom(m: MapInfo, b: Board, s: Setup) {
    && SetupOk(b, s)
    && (forall oid :: oid in b.lost ==> Loot(b.lost[oid]) in s.things)
    && (exists n: nat :: OfficesAfter(m, s.things, n))
    && (forall id :: id in b.dogs ==> id in s.ids)
  }

  predicate OfficesAfter(m: MapInfo, things: seq<Thing>, n: nat) {
    && |things| == n + |m.offices|
    && (forall i :: 0 <= i < n ==> things[i].Loot?)
    && (forall i :: 0 <= i < |m.offices| ==> things[n + i] == Base(m.offices[i]))
  }

  function ItemsOf(things: seq<Thing>): (r: seq<Item>)
    ensures |r| == |things|
  {
    seq(|things|, i requires 0 <= i < |things| => ItemOf(things[i]))
  }

  function GatherersOf(b: Board, ids: seq<nat>): (r: seq<Gatherer>)
    requires forall id :: id in ids ==> id in b.dogs
    ensures |r| == |ids|
  {
    seq(|ids|, i requires 0 <= i < |ids| => b.dogs[ids[i]].gatherer)
  }

  /** Vectors and events that a tick may see once the dogs have moved. */
  ghost predicate TickEvents(m: MapInfo, b: Board, s: Setup, events: seq<GatheringEvent>) {
    BuiltFrom(m, b, s) && IsEventList(ItemsOf(s.things), GatherersOf(b, s.ids), events)
  }

  lemma TickEventsFit(m: MapInfo, b: Board, s: Setup, events: seq<GatheringEvent>)
    requires TickEvents(m, b, s, events)
    ensures Playable(b, s, events)
  {
    forall e | e in events ensures e.item < |s.things| && e.gatherer < |s.ids| {
      assert IsEvent(ItemsOf(s.things), GatherersOf(b, s.ids), e);
    }
  }

  function AfterRetirement(b: Board, limit: nat): Board { b.(dogs := b.dogs - Retiring(b.dogs, limit)) }

  /* ---- one step of a session ---- */

  datatype Action =
    | Join(name: string, isRandom: bool, road: nat, phase: real)
    | Direct(id: nat, direction: Option<Direction>)
    | Generate(draw: real, draws: seq<Draw>)
    | Advance(t: int, setup: Setup, events: seq<GatheringEvent>)

  function MovedBoard(ix: Index, b: Board, t: int): Board { b.(dogs := AllMoved(ix, b.dogs, t)) }

  ghost predicate GenerateStep(m: MapInfo, s: SessionState, draw: real, draws: seq<Draw>, r: SessionState) {
    && |draws| == Generated(|s.board.lost|, |s.board.dogs|, draw)
    && (forall d :: d in draws ==> DrawOk(m, d))
    && r == DroppedAll(m, s, draws)
  }

  /** A tick: all dogs move, the events are found and played in order, and the inactive dogs leave. */
  ghost predicate TickStep(m: MapInfo, ix: Index, limit: nat, s: SessionState, t: int, setup: Setup,
                           events: seq<GatheringEvent>, r: SessionState) {
    var moved := MovedBoard(ix, s.board, t);
    TickEvents(m, moved, setup, events) && Playable(moved, setup, events)
    && r == s.(board := AfterRetirement(Play(moved, setup, events), limit))
  }

  ghost predicate Next(m: MapInfo, ix: Index, limit: nat, s: SessionState, a: Action, r: SessionState) {
    match a
    case Join(name, isRandom, road, phase) =>
      road < |m.roads| && 0.0 <= phase <= 1.0 && r == Joined(m, s, name, SpawnPoint(m.roads, isRandom, road, phase))
    case Direct(id, direction) => Directed(m, s, id, direction) == Ok(r)
    case Generate(draw, draws) => GenerateStep(m, s, draw, draws, r)
    case Advance(t, setup, events) => TickStep(m, ix, limit, s, t, setup, events, r)
  }

  /* ---- the invariant ---- */

  /** A dog under its own id, on the road map, with axis-aligned speed and loot of this session only. */
  predicate DogFine(m: MapInfo, d: DogState, id: nat, nextDog: nat, nextLost: nat) {
    && id < nextDog && d.id == id
    && AxisAligned(d.body.speed) && OnRoad(m.roads, d.body)
    && forall i :: 0 <= i < |d.bag| ==> d.bag[i].id < nextLost
  }

  predicate LootFine(m: MapInfo, o: LostObject, oid: nat, nextLost: nat) {
    && oid < nextLost && OnSomeRoad(m.roads, CellOf(o.position))
    && o.kind < |m.lootValues| && o.value == m.lootValues[o.kind]
  }

  ghost predicate Inv(m: MapInfo, s: SessionState) {
    && BoardOk(s.board)
    && (forall id :: id in s.board.dogs ==> DogFine(m, s.board.dogs[id], id, s.nextDog, s.nextLost))
    && (forall oid :: oid in s.board.lost ==> LootFine(m, s.board.lost[oid], oid, s.nextLost))
  }

  lemma JoinKeeps(m: MapInfo, s: SessionState, name: string, isRandom: bool, road: nat, phase: real)
    requires Inv(m, s) && road < |m.roads| && 0.0 <= phase <= 1.0
    ensures Inv(m, Joined(m, s, name, SpawnPoint(m.roads, isRandom, road, phase)))
  {
    SpawnIsOnRoad(m.roads, isRandom, road, phase);
  }

  lemma DropKeeps(m: MapInfo, s: SessionState, kind: nat, road: nat, phase: real, value: int)
    requires Inv(m, s) && road < |m.roads| && 0.0 <= phase <= 1.0
    requires kind < |m.lootValues| && value == m.lootValues[kind]
    ensures Inv(m, Dropped(s, kind, PointOnRoad(m.roads[road], phase), value))
    ensures |Dropped(s, kind, PointOnRoad(m.roads[road], phase), value).board.lost| == |s.board.lost| + 1
  {
    PointOnRoadIsOnRoad(m.roads, m.roads[road], phase);
  }

  lemma {:induction false} DropAllKeeps(m: MapInfo, s: SessionState, draws: seq<Draw>)
    requires Inv(m, s) && forall d :: d in draws ==> DrawOk(m, d)
    ensures Inv(m, DroppedAll(m, s, draws))
    ensures |DroppedAll(m, s, draws).board.lost| == |s.board.lost| + |draws|
    ensures DroppedAll(m, s, draws).board.dogs == s.board.dogs
  {
    if draws != [] {
      var d := draws[|draws| - 1];
      assert d in draws;
      DropAllKeeps(m, s, draws[..|draws| - 1]);
      DropKeeps(m, DroppedAll(m, s, draws[..|draws| - 1]), d.kind, d.road, d.phase, m.lootValues[d.kind]);
    }
  }

  /** A move changes only the body, the gatherer and the clocks. */
  lemma MovedDog(m: MapInfo, ix: Index, d: DogState, t: int)
    requires Represents(ix, m.roads) && AxisAligned(d.body.speed)
    ensures var r := Moved(ix, d, t);
      && r.bag == d.bag && r.bagCapacity == d.bagCapacity && r.id == d.id && r.score == d.score
      && AxisAligned(r.body.speed)
      && (OnRoad(m.roads, r.body) <==> OnRoad(m.roads, d.body))
  {
    AlignmentKept(ix, d.body, t);
    MoveKeepsRoad(ix, m.roads, d.body, t);
  }

  lemma SameBags(b: Board, dogs: map<nat, DogState>)
    requires BoardOk(b) && dogs.Keys == b.dogs.Keys
    requires forall id :: id in dogs ==>
      dogs[id].bag == b.dogs[id].bag && dogs[id].bagCapacity == b.dogs[id].bagCapacity
    ensures BoardOk(Board(dogs, b.lost))
  {
    forall id | id in dogs ensures DogOk(dogs[id]) {
      assert DogOk(b.dogs[id]);
    }
  }

  lemma MovedDogFine(m: MapInfo, ix: Index, s: SessionState, id: nat, t: int)
    requires Inv(m, s) && Represents(ix, m.roads) && id in s.board.dogs
    ensures var r := Moved(ix, s.board.dogs[id], t);
      && r.bag == s.board.dogs[id].bag && r.bagCapacity == s.board.dogs[id].bagCapacity
      && DogFine(m, r, id, s.nextDog, s.nextLost)
  {
    assert DogFine(m, s.board.dogs[id], id, s.nextDog, s.nextLost);
    MovedDog(m, ix, s.board.dogs[id], t);
  }

  lemma MoveKeeps(m: MapInfo, ix: Index, s: SessionState, t: int)
    requires Inv(m, s) && Represents(ix, m.roads)
    ensures Inv(m, s.(board := MovedBoard(ix, s.board, t)))
  {
    var dogs := AllMoved(ix, s.board.dogs, t);
    forall id | id in dogs
      ensures DogFine(m, dogs[id], id, s.nextDog, s.nextLost)
      ensures dogs[id].bag == s.board.dogs[id].bag && dogs[id].bagCapacity == s.board.dogs[id].bagCapacity
    {
      MovedDogFine(m, ix, s, id, t);
    }
    SameBags(s.board, dogs);
  }

  /** Bags after the event loop hold only loot that was in the bag or on the map before it. */
  lemma {:induction false} PlayKeeps(m: MapInfo, s: SessionState, setup: Setup, events: seq<GatheringEvent>)
    requires Inv(m, s) && TickEvents(m, s.board, setup, events) && Playable(s.board, setup, events)
    ensures Inv(m, s.(board := Play(s.board, setup, events)))
  {
    PlayKeepsBoardOk(s.board, setup, events);
    FactorsByDog(s.board, setup, events);
    var r := Play(s.board, setup, events);
    forall id | id in s.board.dogs ensures DogFine(m, r.dogs[id], id, s.nextDog, s.nextLost) {
      var d := s.board.dogs[id];
      MeetAllKeepsBody(d, Own(setup, events, id));
      OwnLootDistinct(s.board, setup, events, id);
      MeetAllBag(d, Own(setup, events, id));
      forall i | 0 <= i < |r.dogs[id].bag| ensures r.dogs[id].bag[i].id < s.nextLost {
        var oid := r.dogs[id].bag[i].id;
        assert BagHas(r.dogs[id].bag, oid);
        if !BagHas(d.bag, oid) {
          var t := PickedWasMet(s.board, setup, events, id, oid);
        }
      }
    }
  }

  lemma {:induction false} MeetAllKeepsBody(d: DogState, things: seq<Thing>)
    ensures var r := MeetAll(d, things);
      && r.body == d.body && r.id == d.id && r.name == d.name && r.bagCapacity == d.bagCapacity
      && r.direction == d.direction && r.gatherer == d.gatherer
      && r.active == d.active && r.inactive == d.inactive && r.live == d.live
  {
    if things != [] {
      MeetAllKeepsBody(d, things[..|things| - 1]);
    }
  }

  lemma RetirementKeeps(m: MapInfo, s: SessionState, limit: nat)
    requires Inv(m, s)
    ensures Inv(m, s.(board := AfterRetirement(s.board, limit)))
  {
  }

  lemma DirectKeeps(m: MapInfo, s: SessionState, id: nat, direction: Option<Direction>, r: SessionState)
    requires Inv(m, s) && Directed(m, s, id, direction) == Ok(r)
    ensures Inv(m, r)
  {
    assert DogFine(m, s.board.dogs[id], id, s.nextDog, s.nextLost);
  }

  lemma StepKeeps(m: MapInfo, ix: Index, limit: nat, s: SessionState, a: Action, r: SessionState)
    requires Inv(m, s) && Represents(ix, m.roads) && Next(m, ix, limit, s, a, r)
    ensures Inv(m, r)
  {
    match a
    case Join(name, isRandom, road, phase) => JoinKeeps(m, s, name, isRandom, road, phase);
    case Direct(id, direction) => DirectKeeps(m, s, id, direction, r);
    case Generate(draw, draws) => DropAllKeeps(m, s, draws);
    case Advance(t, setup, events) =>
      var moved := s.(board := MovedBoard(ix, s.board, t));
      MoveKeeps(m, ix, s, t);
      PlayKeeps(m, moved, setup, events);
      RetirementKeeps(m, moved.(board := Play(moved.board, setup, events)), limit);
  }

  /* ---- whole runs ---- */

  /** A run from the empty session: `trace[i]` is the state before action `i`. */
  ghost predicate IsRun(m: MapInfo, ix: Index, limit: nat, actions: seq<Action>, trace: seq<SessionState>) {
    && |trace| == |actions| + 1 && trace[0] == FRESH
    && forall i {:trigger StepAt(m, ix, limit, actions, trace, i)} :: 0 <= i < |actions| ==>
      StepAt(m, ix, limit, actions, trace, i)
  }

  ghost predicate StepAt(m: MapInfo, ix: Index, limit: nat, actions: seq<Action>, trace: seq<SessionState>, i: int) {
    0 <= i < |actions| && i + 1 < |trace| && Next(m, ix, limit, trace[i], actions[i], trace[i + 1])
  }

  lemma RunStep(m: MapInfo, ix: Index, limit: nat, actions: seq<Action>, trace: seq<SessionState>, i: nat)
    requires IsRun(m, ix, limit, actions, trace) && i < |actions|
    ensures Next(m, ix, limit, trace[i], actions[i], trace[i + 1])
  {
    assert StepAt(m, ix, limit, actions, trace, i);
  }

  /** Every reachable state keeps the loot accounting and the road safety of every dog. */
  lemma {:induction false} RunKeepsInv(m: MapInfo, ix: Index, limit: nat, actions: seq<Action>,
                                       trace: seq<SessionState>, i: nat)
    requires IsRun(m, ix, limit, actions, trace) && Represents(ix, m.roads) && i < |trace|
    ensures Inv(m, trace[i])
  {
    if i > 0 {
      RunKeepsInv(m, ix, limit, actions, trace, i - 1);
      RunStep(m, ix, limit, actions, trace, i - 1);
      StepKeeps(m, ix, limit, trace[i - 1], actions[i - 1], trace[i]);
    }
  }

  /** The most dogs that any loot generation so far has counted. */
  function PeakDogs(actions: seq<Action>, trace: seq<SessionState>, n: nat): nat
    requires n <= |actions| && |trace| == |actions| + 1
  {
    if n == 0 then 0
    else
      Max(PeakDogs(actions, trace, n - 1), if actions[n - 1].Generate? then |trace[n - 1].board.dogs| else 0)
  }

  lemma SmallerMap(a: map<nat, LostObject>, b: map<nat, LostObject>)
    requires forall k :: k in a ==> k in b
    ensures |a| <= |b|
    decreases |a|
  {
    if a != map[] {
      var k :| k in a;
      SmallerMap(a - {k}, b - {k});
    }
  }

  lemma LootStep(m: MapInfo, ix: Index, limit: nat, s: SessionState, a: Action, r: SessionState, peak: nat)
    requires Inv(m, s) && Next(m, ix, limit, s, a, r) && |s.board.lost| <= peak
    ensures |r.board.lost| <= Max(peak, if a.Generate? then |s.board.dogs| else 0)
  {
    match a
    case Join(name, isRandom, road, phase) =>
    case Direct(id, direction) =>
    case Generate(draw, draws) => DropAllKeeps(m, s, draws);
    case Advance(t, setup, events) => LootAfterTick(m, ix, limit, s, t, setup, events, r);
  }

  lemma LootAfterTick(m: MapInfo, ix: Index, limit: nat, s: SessionState, t: int, setup: Setup,
                      events: seq<GatheringEvent>, r: SessionState)
    requires TickStep(m, ix, limit, s, t, setup, events, r)
    ensures |r.board.lost| <= |s.board.lost|
  {
    FactorsByDog(MovedBoard(ix, s.board, t), setup, events);
    SmallerMap(r.board.lost, s.board.lost);
  }

  /** There is never more loot on a map than the dogs counted at some generation. */
  lemma {:induction false} LootNeverExceedsPeak(m: MapInfo, ix: Index, limit: nat, actions: seq<Action>,
                                                trace: seq<SessionState>, i: nat)
    requires IsRun(m, ix, limit, actions, trace) && Represents(ix, m.roads) && i < |trace|
    ensures |trace[i].board.lost| <= PeakDogs(actions, trace, i)
  {
    if i > 0 {
      LootNeverExceedsPeak(m, ix, limit, actions, trace, i - 1);
      LootAt(m, ix, limit, actions, trace, i - 1, PeakDogs(actions, trace, i - 1));
    }
  }

  lemma LootAt(m: MapInfo, ix: Index, limit: nat, actions: seq<Action>, trace: seq<SessionState>, i: nat, peak: nat)
    requires IsRun(m, ix, limit, actions, trace) && Represents(ix, m.roads) && i < |actions|
    requires |trace[i].board.lost| <= peak
    ensures |trace[i + 1].board.lost| <= Max(peak, if actions[i].Generate? then |trace[i].board.dogs| else 0)
  {
    RunKeepsInv(m, ix, limit, actions, trace, i);
    RunStep(m, ix, limit, actions, trace, i);
    LootStep(m, ix, limit, trace[i], actions[i], trace[i + 1], peak);
  }

  /* ---- the score ledger over a run ---- */

  /** The values of the loot that dog `id` accepts in one action. */
  function Earned(ix: Index, s: SessionState, a: Action, id: nat): int {
    match a
    case Advance(t, setup, events) =>
      var moved := MovedBoard(ix, s.board, t);
      if id in moved.dogs && setup.Fits(events) then ValueOf(Accepted(moved.dogs[id], Own(setup, events, id))) else 0
    case _ => 0
  }

  function TotalEarned(ix: Index, actions: seq<Action>, trace: seq<SessionState>, id: nat, n: nat): int
    requires n <= |actions| && |trace| == |actions| + 1
  {
    if n == 0 then 0 else TotalEarned(ix, actions, trace, id, n - 1) + Earned(ix, trace[n - 1], actions[n - 1], id)
  }

  lemma UnbornEarnsNothing(m: MapInfo, ix: Index, s: SessionState, a: Action, id: nat)
    requires Inv(m, s) && id >= s.nextDog
    ensures Earned(ix, s, a, id) == 0
  {
    forall x | x in s.board.dogs ensures x < s.nextDog {
      assert DogFine(m, s.board.dogs[x], x, s.nextDog, s.nextLost);
    }
  }

  lemma UnbornBefore(m: MapInfo, ix: Index, limit: nat, s: SessionState, a: Action, r: SessionState, id: nat)
    requires Inv(m, s) && Next(m, ix, limit, s, a, r) && id >= r.nextDog
    ensures id >= s.nextDog && Earned(ix, s, a, id) == 0
  {
    DogCounter(m, ix, limit, s, a, r);
    UnbornEarnsNothing(m, ix, s, a, id);
  }

  lemma {:induction false} NotYetEarned(m: MapInfo, ix: Index, limit: nat, actions: seq<Action>,
                                        trace: seq<SessionState>, id: nat, n: nat)
    requires IsRun(m, ix, limit, actions, trace) && Represents(ix, m.roads) && n < |trace|
    requires id >= trace[n].nextDog
    ensures TotalEarned(ix, actions, trace, id, n) == 0
  {
    if n > 0 {
      UnbornAt(m, ix, limit, actions, trace, id, n - 1);
      NotYetEarned(m, ix, limit, actions, trace, id, n - 1);
    }
  }

  lemma UnbornAt(m: MapInfo, ix: Index, limit: nat, actions: seq<Action>, trace: seq<SessionState>, id: nat, i: nat)
    requires IsRun(m, ix, limit, actions, trace) && Represents(ix, m.roads) && i < |actions|
    requires id >= trace[i + 1].nextDog
    ensures id >= trace[i].nextDog && Earned(ix, trace[i], actions[i], id) == 0
  {
    RunKeepsInv(m, ix, limit, actions, trace, i);
    RunStep(m, ix, limit, actions, trace, i);
    UnbornBefore(m, ix, limit, trace[i], actions[i], trace[i + 1], id);
  }

  lemma {:induction false} DropAllCounter(m: MapInfo, s: SessionState, draws: seq<Draw>)
    requires forall d :: d in draws ==> DrawOk(m, d)
    ensures DroppedAll(m, s, draws).nextDog == s.nextDog && DroppedAll(m, s, draws).board.dogs == s.board.dogs
  {
    if draws != [] {
      DropAllCounter(m, s, draws[..|draws| - 1]);
    }
  }

  /** Ids are never reused: a dog in the next state is an old one or carries the counter's old value. */
  lemma DogCounter(m: MapInfo, ix: Index, limit: nat, s: SessionState, a: Action, r: SessionState)
    requires Next(m, ix, limit, s, a, r)
    ensures s.nextDog <= r.nextDog
    ensures forall id :: id in r.board.dogs ==> id in s.board.dogs || (id == s.nextDog && a.Join?)
  {
    match a
    case Join(name, isRandom, road, phase) =>
    case Direct(id, direction) =>
    case Generate(draw, draws) => DropAllCounter(m, s, draws);
    case Advance(t, setup, events) =>
  }

  predicate ValuesNotNegative(m: MapInfo) { forall v :: v in m.lootValues ==> v >= 0 }

  lemma StillBag(m: MapInfo, ix: Index, limit: nat, s: SessionState, a: Action, r: SessionState, id: nat)
    requires Next(m, ix, limit, s, a, r) && !a.Advance? && id < s.nextDog
    requires id in s.board.dogs && id in r.board.dogs
    ensures r.board.dogs[id].bag == s.board.dogs[id].bag && r.board.dogs[id].score == s.board.dogs[id].score
  {
    match a
    case Join(name, isRandom, road, phase) =>
    case Direct(other, direction) =>
    case Generate(draw, draws) => DropAllCounter(m, s, draws);
  }

  /** Only a tick changes a ledger. */
  lemma StillLedger(m: MapInfo, ix: Index, limit: nat, s: SessionState, a: Action, r: SessionState, id: nat)
    requires Inv(m, s) && Next(m, ix, limit, s, a, r) && !a.Advance?
    requires id in s.board.dogs && id in r.board.dogs
    ensures Ledger(r.board.dogs[id]) == Ledger(s.board.dogs[id])
  {
    assert DogFine(m, s.board.dogs[id], id, s.nextDog, s.nextLost);
    StillBag(m, ix, limit, s, a, r, id);
  }

  /** What one action does to the ledger of a dog that was there before and is there after. */
  lemma StepLedger(m: MapInfo, ix: Index, limit: nat, s: SessionState, a: Action, r: SessionState, id: nat)
    returns (q: int)
    requires Inv(m, s) && Represents(ix, m.roads) && Next(m, ix, limit, s, a, r)
    requires id in s.board.dogs && id in r.board.dogs
    ensures Ledger(s.board.dogs[id]) + Earned(ix, s, a, id) == Ledger(r.board.dogs[id]) + q * SCORE_LIMIT
    ensures ValuesNotNegative(m) && 0 <= Ledger(s.board.dogs[id]) < SCORE_LIMIT - Earned(ix, s, a, id) ==> q == 0
  {
    if a.Advance? {
      q := AdvanceLedger(m, ix, s, a.t, a.setup, a.events, id);
    } else {
      StillLedger(m, ix, limit, s, a, r, id);
      q := 0;
    }
  }

  lemma AdvanceLedger(m: MapInfo, ix: Index, s: SessionState, t: int, setup: Setup, events: seq<GatheringEvent>,
                      id: nat)
    returns (q: int)
    requires Inv(m, s) && Represents(ix, m.roads) && id in s.board.dogs
    requires var moved := MovedBoard(ix, s.board, t);
      TickEvents(m, moved, setup, events) && Playable(moved, setup, events)
    ensures var d := Play(MovedBoard(ix, s.board, t), setup, events).dogs[id];
      var earned := Earned(ix, s, Advance(t, setup, events), id);
      && Ledger(s.board.dogs[id]) + earned == Ledger(d) + q * SCORE_LIMIT
      && (ValuesNotNegative(m) && 0 <= Ledger(s.board.dogs[id]) < SCORE_LIMIT - earned ==> q == 0)
  {
    SameLedger(m, ix, s, id, t);
    if ValuesNotNegative(m) {
      OwnNotNegative(m, ix, s, t, setup, events, id);
    }
    q := PlayLedger(MovedBoard(ix, s.board, t), setup, events, id, ValuesNotNegative(m));
  }

  lemma PlayLedger(b: Board, setup: Setup, events: seq<GatheringEvent>, id: nat, clean: bool) returns (q: int)
    requires Playable(b, setup, events) && id in b.dogs
    requires clean ==> NotNegative(Own(setup, events, id))
    ensures var (d, earned) := (b.dogs[id], ValueOf(Accepted(b.dogs[id], Own(setup, events, id))));
      && Ledger(d) + earned == Ledger(Play(b, setup, events).dogs[id]) + q * SCORE_LIMIT
      && (clean && 0 <= Ledger(d) < SCORE_LIMIT - earned ==> q == 0)
  {
    var d, own := b.dogs[id], Own(setup, events, id);
    DogsFactor(b, setup, events, id);
    q := LedgerGrows(d, own);
    if clean && 0 <= Ledger(d) < SCORE_LIMIT - ValueOf(Accepted(d, own)) {
      LedgerExact(d, own);
    }
  }

  lemma SameLedger(m: MapInfo, ix: Index, s: SessionState, id: nat, t: int)
    requires Inv(m, s) && Represents(ix, m.roads) && id in s.board.dogs
    ensures Ledger(Moved(ix, s.board.dogs[id], t)) == Ledger(s.board.dogs[id])
  {
    assert DogFine(m, s.board.dogs[id], id, s.nextDog, s.nextLost);
    MovedDog(m, ix, s.board.dogs[id], t);
  }

  lemma {:induction false} OwnNotNegative(m: MapInfo, ix: Index, s: SessionState, t: int, setup: Setup,
                                          events: seq<GatheringEvent>, id: nat)
    requires Inv(m, s) && ValuesNotNegative(m)
    requires SetupOk(MovedBoard(ix, s.board, t), setup) && setup.Fits(events)
    ensures NotNegative(Own(setup, events, id))
  {
    OwnAreThings(setup, events, id);
    forall thing | thing in Own(setup, events, id) && thing.Loot? ensures thing.loot.value >= 0 {
      assert LootFine(m, s.board.lost[thing.loot.id], thing.loot.id, s.nextLost);
      assert m.lootValues[thing.loot.kind] in m.lootValues;
    }
  }

  lemma {:induction false} OwnAreThings(s: Setup, events: seq<GatheringEvent>, id: nat)
    requires s.Fits(events)
    ensures forall t :: t in Own(s, events, id) ==> t in s.things
  {
    forall t | t in Own(s, events, id) ensures t in s.things {
      var k := OwnComesFrom(s, events, id, t);
    }
  }

  lemma EarnedNotNegative(m: MapInfo, ix: Index, limit: nat, s: SessionState, a: Action, r: SessionState, id: nat)
    requires Inv(m, s) && Next(m, ix, limit, s, a, r) && ValuesNotNegative(m)
    ensures Earned(ix, s, a, id) >= 0
  {
    match a
    case Join(name, isRandom, road, phase) =>
    case Direct(other, direction) =>
    case Generate(draw, draws) =>
    case Advance(t, setup, events) =>
      var moved := MovedBoard(ix, s.board, t);
      if id in moved.dogs {
        OwnNotNegative(m, ix, s, t, setup, events, id);
        AcceptedNotNegative(moved.dogs[id], Own(setup, events, id));
      }
  }

  lemma {:induction false} AcceptedNotNegative(d: DogState, things: seq<Thing>)
    requires NotNegative(things)
    ensures ValueOf(Accepted(d, things)) >= 0
  {
    if things != [] {
      AcceptedNotNegative(d, things[..|things| - 1]);
      AcceptedSnoc(d, things);
      assert things[|things| - 1] in things;
    }
  }

  lemma {:induction false} TotalOneMore(ix: Index, actions: seq<Action>, trace: seq<SessionState>, id: nat, n: nat,
                                        earned: int)
    requires 0 < n <= |actions| && |trace| == |actions| + 1
    requires earned == Earned(ix, trace[n - 1], actions[n - 1], id)
    ensures TotalEarned(ix, actions, trace, id, n) == TotalEarned(ix, actions, trace, id, n - 1) + earned
  {
  }

  lemma {:induction false} TotalNotNegative(m: MapInfo, ix: Index, limit: nat, actions: seq<Action>,
                                            trace: seq<SessionState>, id: nat, n: nat)
    requires IsRun(m, ix, limit, actions, trace) && Represents(ix, m.roads) && n < |trace| && ValuesNotNegative(m)
    ensures TotalEarned(ix, actions, trace, id, n) >= 0
  {
    if n > 0 {
      EarnedAt(m, ix, limit, actions, trace, id, n - 1);
      TotalNotNegative(m, ix, limit, actions, trace, id, n - 1);
      TotalOneMore(ix, actions, trace, id, n, Earned(ix, trace[n - 1], actions[n - 1], id));
    }
  }

  lemma EarnedAt(m: MapInfo, ix: Index, limit: nat, actions: seq<Action>, trace: seq<SessionState>, id: nat, i: nat)
    requires IsRun(m, ix, limit, actions, trace) && Represents(ix, m.roads) && i < |actions| && ValuesNotNegative(m)
    ensures Earned(ix, trace[i], actions[i], id) >= 0
  {
    RunKeepsInv(m, ix, limit, actions, trace, i);
    RunStep(m, ix, limit, actions, trace, i);
    EarnedNotNegative(m, ix, limit, trace[i], actions[i], trace[i + 1], id);
  }

  lemma AddLedgers(total: int, before: int, q0: int, earned: int, after: int, q1: int, clean: bool) returns (q: int)
    requires total == before + q0 * SCORE_LIMIT && before + earned == after + q1 * SCORE_LIMIT
    requires clean ==> total >= 0 && earned >= 0 && (total < SCORE_LIMIT ==> q0 == 0)
    requires clean ==> (0 <= before < SCORE_LIMIT - earned ==> q1 == 0)
    ensures total + earned == after + q * SCORE_LIMIT && (clean && total + earned < SCORE_LIMIT ==> q == 0)
  {
    q := q0 + q1;
  }

  /** For every dog of every run, score plus bag is what it ever accepted: up to a multiple of 2^32 lost
      in the unsigned score, and exactly while loot values are not negative and the total fits. */
  lemma {:induction false} RunLedger(m: MapInfo, ix: Index, limit: nat, actions: seq<Action>,
                                     trace: seq<SessionState>, id: nat, n: nat)
    returns (q: int)
    requires IsRun(m, ix, limit, actions, trace) && Represents(ix, m.roads) && n < |trace|
    requires id in trace[n].board.dogs
    ensures TotalEarned(ix, actions, trace, id, n) == Ledger(trace[n].board.dogs[id]) + q * SCORE_LIMIT
    ensures ValuesNotNegative(m) && TotalEarned(ix, actions, trace, id, n) < SCORE_LIMIT ==> q == 0
  {
    if n > 0 && id in trace[n - 1].board.dogs {
      var q0 := RunLedger(m, ix, limit, actions, trace, id, n - 1);
      q := LedgerOneMore(m, ix, limit, actions, trace, id, n - 1, q0);
    } else {
      NewcomerAt(m, ix, limit, actions, trace, id, n - 1);
      q := 0;
    }
  }

  /** The ledger after one more action, for a dog that stays. */
  lemma LedgerOneMore(m: MapInfo, ix: Index, limit: nat, actions: seq<Action>, trace: seq<SessionState>,
                      id: nat, i: nat, q0: int)
    returns (q: int)
    requires IsRun(m, ix, limit, actions, trace) && Represents(ix, m.roads) && i < |actions|
    requires id in trace[i].board.dogs && id in trace[i + 1].board.dogs
    requires TotalEarned(ix, actions, trace, id, i) == Ledger(trace[i].board.dogs[id]) + q0 * SCORE_LIMIT
    requires ValuesNotNegative(m) && TotalEarned(ix, actions, trace, id, i) < SCORE_LIMIT ==> q0 == 0
    ensures TotalEarned(ix, actions, trace, id, i + 1) == Ledger(trace[i + 1].board.dogs[id]) + q * SCORE_LIMIT
    ensures ValuesNotNegative(m) && TotalEarned(ix, actions, trace, id, i + 1) < SCORE_LIMIT ==> q == 0
  {
    if ValuesNotNegative(m) {
      TotalNotNegative(m, ix, limit, actions, trace, id, i);
    }
    var q1 := LedgerAt(m, ix, limit, actions, trace, id, i);
    q := AddLedgers(
      TotalEarned(ix, actions, trace, id, i), Ledger(trace[i].board.dogs[id]), q0,
      Earned(ix, trace[i], actions[i], id), Ledger(trace[i + 1].board.dogs[id]), q1, ValuesNotNegative(m));
  }

  lemma LedgerAt(m: MapInfo, ix: Index, limit: nat, actions: seq<Action>, trace: seq<SessionState>, id: nat, i: nat)
    returns (q: int)
    requires IsRun(m, ix, limit, actions, trace) && Represents(ix, m.roads) && i < |actions|
    requires id in trace[i].board.dogs && id in trace[i + 1].board.dogs
    ensures Ledger(trace[i].board.dogs[id]) + Earned(ix, trace[i], actions[i], id)
      == Ledger(trace[i + 1].board.dogs[id]) + q * SCORE_LIMIT
    ensures ValuesNotNegative(m) ==>
      (0 <= Ledger(trace[i].board.dogs[id]) < SCORE_LIMIT - Earned(ix, trace[i], actions[i], id) ==> q == 0)
    ensures ValuesNotNegative(m) ==> Earned(ix, trace[i], actions[i], id) >= 0
  {
    RunKeepsInv(m, ix, limit, actions, trace, i);
    RunStep(m, ix, limit, actions, trace, i);
    if ValuesNotNegative(m) {
      EarnedNotNegative(m, ix, limit, trace[i], actions[i], trace[i + 1], id);
    }
    q := StepLedger(m, ix, limit, trace[i], actions[i], trace[i + 1], id);
  }

  lemma NewcomerAt(m: MapInfo, ix: Index, limit: nat, actions: seq<Action>, trace: seq<SessionState>, id: nat, i: nat)
    requires IsRun(m, ix, limit, actions, trace) && Represents(ix, m.roads) && i < |actions|
    requires id !in trace[i].board.dogs && id in trace[i + 1].board.dogs
    ensures TotalEarned(ix, actions, trace, id, i + 1) == 0 && Ledger(trace[i + 1].board.dogs[id]) == 0
  {
    RunStep(m, ix, limit, actions, trace, i);
    NewcomerLedger(m, ix, limit, trace[i], actions[i], trace[i + 1], id);
    NotYetEarned(m, ix, limit, actions, trace, id, i);
  }

  lemma NewcomerLedger(m: MapInfo, ix: Index, limit: nat, s: SessionState, a: Action, r: SessionState, id: nat)
    requires Next(m, ix, limit, s, a, r) && id in r.board.dogs && id !in s.board.dogs
    ensures id == s.nextDog && Earned(ix, s, a, id) == 0 && Ledger(r.board.dogs[id]) == 0
  {
    DogCounter(m, ix, limit, s, a, r);
  }

  /* ---- retirement ---- */

  lemma StepRetires(m: MapInfo, ix: Index, limit: nat, s: SessionState, t: int, setup: Setup,
                    events: seq<GatheringEvent>, r: SessionState, id: nat)
    requires Next(m, ix, limit, s, Advance(t, setup, events), r)
    requires id in s.board.dogs && s.board.dogs[id].inactive >= 0 && t >= 0
    ensures var d := Moved(ix, s.board.dogs[id], t);
      id in r.board.dogs <==> d.body.speed != ZERO || d.inactive < 1000 * limit
  {
    var moved := MovedBoard(ix, s.board, t);
    DogsFactor(moved, setup, events, id);
    MeetAllKeepsBody(moved.dogs[id], Own(setup, events, id));
    RetiresAtLimit(Play(moved, setup, events).dogs[id], limit);
    StepKeepsTime(ix, s.board.dogs[id], m.dogSpeed, Tick(t));
  }

  /* ---- the clocks of a dog over a run ---- */

  function LengthOf(a: Action): int { if a.Advance? then a.t else 0 }

  predicate LengthsNotNegative(actions: seq<Action>) { forall i :: 0 <= i < |actions| ==> LengthOf(actions[i]) >= 0 }

  /** The time ticked by the actions from `i` up to `j`. */
  function AdvanceTime(actions: seq<Action>, i: nat, j: nat): int
    requires j <= |actions|
    decreases j
  {
    if j <= i then 0 else AdvanceTime(actions, i, j - 1) + LengthOf(actions[j - 1])
  }

  lemma {:induction false} TimeNotNegative(actions: seq<Action>, i: nat, k: nat, j: nat)
    requires LengthsNotNegative(actions) && i <= k && j <= |actions|
    ensures 0 <= AdvanceTime(actions, k, j) <= AdvanceTime(actions, i, j)
    decreases j
  {
    if j > i {
      TimeNotNegative(actions, i, k, j - 1);
      if j <= k {
        TimeNotNegative(actions, i, i, j - 1);
      }
    }
  }

  /** What one action of length `t` does to the clocks of a dog, unless it does not concern the dog at all. */
  predicate ClockEffect(d: DogState, e: DogState, t: int) {
    e.live == d.live + t
    && ((e == d && t == 0) || e.inactive == if e.body.speed != ZERO then 0 else d.inactive + t)
  }

  lemma DogClocks(m: MapInfo, ix: Index, limit: nat, s: SessionState, a: Action, r: SessionState, id: nat)
    requires Next(m, ix, limit, s, a, r) && id < s.nextDog && id in s.board.dogs && id in r.board.dogs
    ensures ClockEffect(s.board.dogs[id], r.board.dogs[id], LengthOf(a))
  {
    match a
    case Join(name, isRandom, road, phase) =>
    case Direct(other, direction) =>
    case Generate(draw, draws) => DropAllCounter(m, s, draws);
    case Advance(t, setup, events) => AdvanceClocks(m, ix, s, t, setup, events, id);
  }

  lemma {:induction false} AdvanceClocks(m: MapInfo, ix: Index, s: SessionState, t: int, setup: Setup,
                                         events: seq<GatheringEvent>, id: nat)
    requires id in s.board.dogs && Playable(MovedBoard(ix, s.board, t), setup, events)
    ensures var (d, e) := (s.board.dogs[id], Play(MovedBoard(ix, s.board, t), setup, events).dogs[id]);
      ClockEffect(d, e, t)
  {
    var moved := MovedBoard(ix, s.board, t);
    DogsFactor(moved, setup, events, id);
    MeetAllKeepsBody(moved.dogs[id], Own(setup, events, id));
    StepKeepsTime(ix, s.board.dogs[id], m.dogSpeed, Tick(t));
  }

  /** The dog joined with action `born`, has been there since, was left moving by action `still - 1` unless it
      has not moved yet, and has stood since. */
  ghost predicate StoodSince(actions: seq<Action>, trace: seq<SessionState>, id: nat, born: nat, still: nat, n: nat) {
    && born < still <= n <= |actions| && |trace| == |actions| + 1
    && actions[born].Join? && trace[born].nextDog == id
    && (forall i :: born < i <= n ==> id in trace[i].board.dogs)
    && (still > born + 1 ==> trace[still].board.dogs[id].body.speed != ZERO)
    && (forall i :: still < i <= n ==> trace[i].board.dogs[id].body.speed == ZERO)
  }

  predicate ClocksAre(d: DogState, inactive: int, live: int) { d.inactive == inactive && d.live == live }

  lemma NewcomerClocks(m: MapInfo, ix: Index, limit: nat, s: SessionState, a: Action, r: SessionState, id: nat)
    requires Next(m, ix, limit, s, a, r) && id in r.board.dogs && id !in s.board.dogs
    ensures a.Join? && id == s.nextDog && ClocksAre(r.board.dogs[id], 0, 0)
  {
    DogCounter(m, ix, limit, s, a, r);
  }

  /** The dog's clocks are the time ticked since it was last left moving and since it joined. */
  ghost predicate ClocksTold(actions: seq<Action>, trace: seq<SessionState>, id: nat, born: nat, still: nat, n: nat) {
    && StoodSince(actions, trace, id, born, still, n)
    && ClocksAre(trace[n].board.dogs[id], AdvanceTime(actions, still, n), AdvanceTime(actions, born + 1, n))
  }

  /** One more action for a dog that stays. */
  lemma {:induction false} ToldOneMore(actions: seq<Action>, trace: seq<SessionState>, id: nat, born: nat, still: nat,
                                       n: nat)
    returns (next: nat)
    requires n < |actions| && ClocksTold(actions, trace, id, born, still, n) && id in trace[n + 1].board.dogs
    requires ClockEffect(trace[n].board.dogs[id], trace[n + 1].board.dogs[id], LengthOf(actions[n]))
    ensures ClocksTold(actions, trace, id, born, next, n + 1)
  {
    next := if trace[n + 1].board.dogs[id].body.speed != ZERO then n + 1 else still;
  }

  lemma ClockEffectAt(m: MapInfo, ix: Index, limit: nat, actions: seq<Action>, trace: seq<SessionState>, id: nat,
                      i: nat)
    requires IsRun(m, ix, limit, actions, trace) && Represents(ix, m.roads) && i < |actions|
    requires id in trace[i].board.dogs && id in trace[i + 1].board.dogs
    ensures ClockEffect(trace[i].board.dogs[id], trace[i + 1].board.dogs[id], LengthOf(actions[i]))
  {
    RunKeepsInv(m, ix, limit, actions, trace, i);
    assert DogFine(m, trace[i].board.dogs[id], id, trace[i].nextDog, trace[i].nextLost);
    RunStep(m, ix, limit, actions, trace, i);
    DogClocks(m, ix, limit, trace[i], actions[i], trace[i + 1], id);
  }

  lemma NewcomerTold(m: MapInfo, ix: Index, limit: nat, actions: seq<Action>, trace: seq<SessionState>, id: nat, i: nat)
    requires IsRun(m, ix, limit, actions, trace) && i < |actions|
    requires id !in trace[i].board.dogs && id in trace[i + 1].board.dogs
    ensures ClocksTold(actions, trace, id, i, i + 1, i + 1)
  {
    RunStep(m, ix, limit, actions, trace, i);
    NewcomerClocks(m, ix, limit, trace[i], actions[i], trace[i + 1], id);
  }

  /** For every dog of every run: its inactivity clock is the time ticked since it was last left moving, and its
      live clock the time ticked since it joined. */
  lemma {:induction false} SessionClocks(m: MapInfo, ix: Index, limit: nat, actions: seq<Action>,
                                         trace: seq<SessionState>, id: nat, n: nat)
    returns (born: nat, still: nat)
    requires IsRun(m, ix, limit, actions, trace) && Represents(ix, m.roads) && n < |trace|
    requires id in trace[n].board.dogs
    ensures ClocksTold(actions, trace, id, born, still, n)
    ensures LengthsNotNegative(actions) ==> 0 <= trace[n].board.dogs[id].inactive <= trace[n].board.dogs[id].live
  {
    if n > 0 && id in trace[n - 1].board.dogs {
      born, still := SessionClocks(m, ix, limit, actions, trace, id, n - 1);
      ClockEffectAt(m, ix, limit, actions, trace, id, n - 1);
      still := ToldOneMore(actions, trace, id, born, still, n - 1);
    } else {
      NewcomerTold(m, ix, limit, actions, trace, id, n - 1);
      born, still := n - 1, n;
    }
    if LengthsNotNegative(actions) {
      TimeNotNegative(actions, born + 1, still, n);
    }
  }

  /** A tick of a run drops a dog iff it ends the tick at rest and the time ticked since it was last left moving
      has reached the limit. */
  lemma TickRetires(m: MapInfo, ix: Index, limit: nat, actions: seq<Action>, trace: seq<SessionState>, id: nat, n: nat)
    returns (born: nat, still: nat)
    requires IsRun(m, ix, limit, actions, trace) && Represents(ix, m.roads) && n < |actions|
    requires LengthsNotNegative(actions) && actions[n].Advance? && id in trace[n].board.dogs
    ensures ClocksTold(actions, trace, id, born, still, n)
    ensures id in trace[n + 1].board.dogs <==>
      Moved(ix, trace[n].board.dogs[id], actions[n].t).body.speed != ZERO
      || AdvanceTime(actions, still, n + 1) < 1000 * limit
  {
    born, still := SessionClocks(m, ix, limit, actions, trace, id, n);
    RunStep(m, ix, limit, actions, trace, n);
    var a := actions[n];
    StepRetires(m, ix, limit, trace[n], a.t, a.setup, a.events, trace[n + 1], id);
    StepKeepsTime(ix, trace[n].board.dogs[id], m.dogSpeed, Tick(a.t));
  }
}
