/** The session object: hash maps of dogs and loot updated in place, refining the state machine. */
module GameSessions {
  import opened Wrappers
  import opened Geometry
  import opened RoadIndices
  import opened Movement
  import opened CollisionDetector
  import opened Dogs
  import opened Gathering
  import opened LootGenerators
  import opened Sessions

  class GameSession {
    const id: nat
    const info: MapInfo
    const index: RoadIndex
    const lootGenerator: LootGenerator
    /** The retirement time in seconds, a static of the dog class in the program. */
    const limit: nat
    var dogs: map<nat, Dog>
    var lostObjects: map<nat, LostObject>
    var nextDog: nat
    var nextLost: nat

    ghost function DogStates(): map<nat, DogState>
      reads this, dogs.Values
    {
      map i | i in dogs :: dogs[i].State()
    }

    ghost function View(): SessionState
      reads this, dogs.Values
    {
      SessionState(Board(DogStates(), lostObjects), nextDog, nextLost)
    }

    ghost predicate DogsDistinct()
      reads this
    {
      forall i, j :: i in dogs && j in dogs && i != j ==> dogs[i] != dogs[j]
    }

    /** Every object under its own id, ids below the counters, and an index of the session's roads. */
    ghost predicate Valid()
      reads this, index
    {
      && DogsDistinct()
      && (forall i :: i in dogs ==> dogs[i].id == i && i < nextDog)
      && (forall i :: i in lostObjects ==> lostObjects[i].id == i && i < nextLost)
      && index.Value() == IndexOf(info.roads)
    }

    constructor (id: nat, info: MapInfo, interval: int, limit: nat)
      ensures Valid() && fresh(index) && fresh(lootGenerator) && dogs == map[]
      ensures View() == FRESH && this.id == id && this.info == info && this.limit == limit
    {
      this.id, this.info, this.limit := id, info, limit;
      index := new RoadIndex(info.roads);
      lootGenerator := new LootGenerator(interval);
      dogs, lostObjects, nextDog, nextLost := map[], map[], 0, 0;
      new;
      NoDogs();
    }

    lemma NoDogs()
      requires dogs == map[] && lostObjects == map[] && nextDog == 0 && nextLost == 0
      ensures View() == FRESH
    {
      assert DogStates() == map[];
    }

    method AddDog(name: string, spawn: Vec) returns (dog: Dog)
      requires Valid()
      modifies this`dogs, this`nextDog
      ensures Valid() && fresh(dog) && dogs == old(dogs)[old(nextDog) := dog] && dog.id == old(nextDog)
      ensures nextDog == old(nextDog) + 1
      ensures View() == Joined(info, old(View()), name, spawn)
    {
      dog := new Dog(nextDog, name, spawn, info.bagCapacity);
      dogs := dogs[nextDog := dog];
      nextDog := nextDog + 1;
      OneDogMore(old(nextDog), dog);
    }

    /** The other dogs are as they were. */
    twostate lemma OneDogMore(i: nat, new dog: Dog)
      requires dogs == old(dogs)[i := dog] && unchanged(old(dogs.Values))
      ensures DogStates() == old(DogStates())[i := dog.State()]
    {
    }

    method AddLostObject(kind: nat, spawn: Vec, value: int)
      requires Valid()
      modifies this`lostObjects, this`nextLost
      ensures Valid() && View() == Dropped(old(View()), kind, spawn, value)
    {
      lostObjects := lostObjects[nextLost := LostObject(nextLost, kind, spawn, value)];
      nextLost := nextLost + 1;
    }

    /** A restored dog, under the session's counter. */
    method AddRestoredDog(dog: Dog)
      modifies this`dogs, this`nextDog
      ensures View() == WithDog(old(View()), dog.State()) && dogs == Emplace(old(dogs), old(nextDog), dog)
    {
      dogs := Emplace(dogs, nextDog, dog);
      nextDog := nextDog + 1;
      assert DogStates() == Emplace(old(DogStates()), old(nextDog), dog.State());
    }

    /** A restored object, under the session's counter. */
    method AddRestoredObject(o: LostObject)
      modifies this`lostObjects, this`nextLost
      ensures View() == WithLost(old(View()), o)
    {
      lostObjects := Emplace(lostObjects, nextLost, o);
      nextLost := nextLost + 1;
    }

    method SetDogDirection(dogId: nat, to: Option<Direction>) returns (r: Result<(), string>)
      requires Valid()
      modifies dogs.Values
      ensures Valid()
      ensures match r
        case Ok(_) => Directed(info, old(View()), dogId, to) == Ok(View())
        case Err(e) => Directed(info, old(View()), dogId, to) == Err(e) && View() == old(View())
    {
      if dogId in dogs {
        var dog := dogs[dogId];
        match to {
          case Some(d) =>
            dog.SetDirection(d);
            dog.SetSpeed(DirectionToSpeed(d, info.dogSpeed));
          case None =>
            dog.SetSpeed(ZERO);
        }
        assert DogStates() == old(DogStates())[dogId := Commanded(old(dog.State()), to, info.dogSpeed)];
        r := Ok(());
      } else {
        r := Err("Invalid dog id");
      }
    }

    /** The clamped step of `MoveDog`. */
    method NextBody(pos: Vec, speed: Vec, t: int) returns (b: Body)
      requires index.Value().WellFormed()
      ensures b == MoveBody(index.Value(), Body(pos, speed), t)
    {
      var offset := Offset(speed, t);
      var roads := index.GetRoadsAtPoint(CellOf(pos));
      var range := Range(pos, pos);
      range := Widen(range, roads.horizontal);
      range := Widen(range, roads.vertical);
      var newPos := Vec(pos.x + offset.x, pos.y + offset.y);
      var newSpeed := Vec(
        if range.min.x <= newPos.x <= range.max.x then speed.x else 0.0,
        if range.min.y <= newPos.y <= range.max.y then speed.y else 0.0);
      newPos := Vec(Clamp(newPos.x, range.min.x, range.max.x), Clamp(newPos.y, range.min.y, range.max.y));
      b := Body(newPos, newSpeed);
    }

    /** `MoveDog`. */
    method MoveDog(dog: Dog, t: int)
      requires index.Value().WellFormed()
      modifies dog
      ensures dog.State() == Moved(index.Value(), old(dog.State()), t)
    {
      var b := NextBody(dog.position, dog.speed, t);
      Place(dog, b, t);
    }

    method Place(dog: Dog, b: Body, t: int)
      modifies dog
      ensures dog.State() == Placed(old(dog.State()), b, t)
    {
      dog.position := b.pos;
      dog.SetSpeed(b.speed);
      dog.SetGatherer();
      dog.liveTime := dog.liveTime + t;
      if !dog.isActive {
        dog.inactiveTime := dog.inactiveTime + t;
      }
    }

    method MoveAll(t: int)
      requires Valid()
      modifies dogs.Values
      ensures Valid() && View() == old(View()).(board := MovedBoard(index.Value(), old(View().board), t))
    {
      ghost var before := DogStates();
      ghost var target := AllMoved(index.Value(), before, t);
      var todo := dogs.Keys;
      while todo != {}
        invariant todo <= dogs.Keys && StatesBetween(before, target, todo)
        decreases todo
      {
        var i :| i in todo;
        MoveOne(i, t, before, target, todo);
        todo := todo - {i};
      }
      AllReached(before, target);
    }

    lemma AllReached(before: map<nat, DogState>, target: map<nat, DogState>)
      requires StatesBetween(before, target, {})
      ensures DogStates() == target
    {
    }

    /** The dogs still to do are as before, the others have reached the target. */
    ghost predicate StatesBetween(before: map<nat, DogState>, target: map<nat, DogState>, todo: set<nat>)
      reads this, dogs.Values
    {
      && before.Keys == target.Keys == dogs.Keys
      && forall i :: i in dogs ==> (dogs[i].State() == if i in todo then before[i] else target[i])
    }

    method MoveOne(i: nat, t: int, ghost before: map<nat, DogState>, ghost target: map<nat, DogState>,
                   ghost todo: set<nat>)
      requires DogsDistinct() && index.Value().WellFormed()
      requires i in todo && i in dogs && StatesBetween(before, target, todo)
      requires i in before && i in target && target[i] == Moved(index.Value(), before[i], t)
      modifies dogs[i]
      ensures StatesBetween(before, target, todo - {i})
    {
      MoveDog(dogs[i], t);
    }

    ghost predicate IsLoot(t: Thing)
      reads this
    {
      t.Loot? && t.loot.id in lostObjects && lostObjects[t.loot.id] == t.loot
    }

    /** The item vector: the loot in any order, then the offices. */
    method CollectItems() returns (things: seq<Thing>)
      requires Valid()
      ensures forall t :: t in things && t.Loot? ==> t.loot.id in lostObjects && lostObjects[t.loot.id] == t.loot
      ensures LootDistinct(things)
      ensures forall i :: i in lostObjects ==> Loot(lostObjects[i]) in things
      ensures exists n: nat :: OfficesAfter(info, things, n)
    {
      things := [];
      var todo := lostObjects.Keys;
      while todo != {}
        invariant todo <= lostObjects.Keys
        invariant forall k :: 0 <= k < |things| ==> IsLoot(things[k]) && things[k].loot.id !in todo
        invariant LootDistinct(things)
        invariant forall i :: i in lostObjects && i !in todo ==> Loot(lostObjects[i]) in things
        decreases todo
      {
        var i :| i in todo;
        things := things + [Loot(lostObjects[i])];
        todo := todo - {i};
      }
      var n := |things|;
      for k := 0 to |info.offices|
        invariant |things| == n + k
        invariant forall j :: 0 <= j < n ==> IsLoot(things[j])
        invariant forall j :: n <= j < n + k ==> things[j].Base?
        invariant forall j :: 0 <= j < k ==> things[n + j] == Base(info.offices[j])
        invariant LootDistinct(things)
        invariant forall i :: i in lostObjects ==> Loot(lostObjects[i]) in things
      {
        things := things + [Base(info.offices[k])];
      }
      assert OfficesAfter(info, things, n);
      forall t | t in things && t.Loot? ensures t.loot.id in lostObjects && lostObjects[t.loot.id] == t.loot {
        var j :| 0 <= j < |things| && things[j] == t;
        assert j < n;
      }
    }

    /** The dog vector, in any order; their ids are what the event loop looks up. */
    method CollectDogs() returns (gatherers: seq<Dog>, ids: seq<nat>)
      requires Valid()
      ensures |gatherers| == |ids| && forall k :: 0 <= k < |ids| ==> ids[k] in dogs && gatherers[k] == dogs[ids[k]]
      ensures forall i, j :: 0 <= i < j < |ids| ==> ids[i] != ids[j]
      ensures forall i :: i in dogs ==> i in ids
    {
      gatherers, ids := [], [];
      var todo := dogs.Keys;
      while todo != {}
        invariant todo <= dogs.Keys
        invariant |gatherers| == |ids|
        invariant forall k :: 0 <= k < |ids| ==> ids[k] in dogs && ids[k] !in todo && gatherers[k] == dogs[ids[k]]
        invariant forall i, j :: 0 <= i < j < |ids| ==> ids[i] != ids[j]
        invariant forall i :: i in dogs && i !in todo ==> i in ids
        decreases todo
      {
        var i :| i in todo;
        gatherers, ids := gatherers + [dogs[i]], ids + [i];
        todo := todo - {i};
      }
    }

    /** The body of the event loop. */
    method HandleEvent(things: seq<Thing>, gatherers: seq<Dog>, ghost ids: seq<nat>, e: GatheringEvent)
      requires Valid() && e.item < |things| && e.gatherer < |gatherers| == |ids|
      requires ids[e.gatherer] in dogs && gatherers[e.gatherer] == dogs[ids[e.gatherer]]
      modifies this`lostObjects, dogs.Values
      ensures Valid() && View().board == Process(old(View().board), Setup(things, ids), e)
    {
      var dogId := gatherers[e.gatherer].id;
      var dog := dogs[dogId];
      match things[e.item]
      case Loot(o) =>
        if !(dog.bagCapacity <= |dog.bag|) {
          var ok := dog.AddItemToBag(FoundObject(o.id, o.kind, o.value));
          lostObjects := lostObjects - {o.id};
          assert DogStates() == old(DogStates())[dogId := Bagged(old(dog.State()), Found(o))];
        }
      case Base(_) =>
        if dog.bag != [] {
          dog.ClearBag();
          assert DogStates() == old(DogStates())[dogId := Cleared(old(dog.State()))];
        }
    }

    /** One record for each dog that retires. */
    method CollectRecords() returns (records: seq<PlayerRecord>, ghost retired: seq<nat>)
      requires Valid()
      ensures RecordsOf(DogStates(), limit, retired, records)
    {
      records, retired := [], [];
      ghost var states := DogStates();
      var todo := dogs.Keys;
      while todo != {}
        invariant todo <= dogs.Keys
        invariant |records| == |retired|
        invariant forall k :: 0 <= k < |retired| ==> retired[k] in Retiring(states, limit) && retired[k] !in todo
        invariant forall k :: 0 <= k < |retired| ==> retired[k] in states && records[k] == RecordOf(states[retired[k]])
        invariant forall i, j :: 0 <= i < j < |retired| ==> retired[i] != retired[j]
        invariant forall i :: i in Retiring(states, limit) && i !in todo ==> i in retired
        decreases todo
      {
        var i :| i in todo;
        var dog := dogs[i];
        var time := dog.GetPlayTime(limit);
        if time.Some? {
          records := records + [PlayerRecord(dog.name, dog.score, time.value)];
          retired := retired + [i];
        }
        todo := todo - {i};
      }
    }

    /** The `erase_if` over the hash map. */
    method EraseInactive()
      modifies this`dogs
      ensures dogs == old(dogs) - Retiring(old(DogStates()), limit)
    {
      dogs := map i | i in dogs && dogs[i].GetPlayTime(limit).None? :: dogs[i];
    }

    method RemoveInactiveDogs() returns (records: seq<PlayerRecord>, ghost retired: seq<nat>)
      requires Valid()
      modifies this`dogs
      ensures Valid() && dogs == old(dogs) - Retiring(old(DogStates()), limit)
      ensures View() == old(View()).(board := AfterRetirement(old(View().board), limit))
      ensures RecordsOf(old(DogStates()), limit, retired, records)
    {
      ghost var states := DogStates();
      records, retired := CollectRecords();
      if records == [] {
        assert Retiring(states, limit) == {};
      } else {
        EraseInactive();
      }
      StatesLeft(old(dogs), Retiring(states, limit), states);
    }

    lemma StatesLeft(all: map<nat, Dog>, gone: set<nat>, states: map<nat, DogState>)
      requires dogs == all - gone && states.Keys == all.Keys
      requires forall i :: i in dogs ==> states[i] == dogs[i].State()
      ensures DogStates() == states - gone
    {
    }

    /** The event loop. */
    method HandleEvents(things: seq<Thing>, gatherers: seq<Dog>, ghost ids: seq<nat>, events: seq<GatheringEvent>)
      requires Valid() && Playable(View().board, Setup(things, ids), events)
      requires |gatherers| == |ids| && forall k :: 0 <= k < |ids| ==> ids[k] in dogs && gatherers[k] == dogs[ids[k]]
      modifies this`lostObjects, dogs.Values
      ensures Valid() && View() == old(View()).(board := Play(old(View().board), Setup(things, ids), events))
    {
      for k := 0 to |events|
        invariant Valid() && View().board == Play(old(View().board), Setup(things, ids), events[..k])
      {
        assert events[..k + 1][..k] == events[..k];
        assert events[k] in events;
        HandleEvent(things, gatherers, ids, events[k]);
      }
      assert events[..|events|] == events;
    }

    /** The segments along which the dogs gather. */
    static method Segments(gatherers: seq<Dog>) returns (segments: seq<Gatherer>)
      ensures |segments| == |gatherers| && forall k :: 0 <= k < |gatherers| ==> segments[k] == gatherers[k].gatherer
    {
      segments := [];
      for k := 0 to |gatherers|
        invariant |segments| == k && forall j :: 0 <= j < k ==> segments[j] == gatherers[j].gatherer
      {
        segments := segments + [gatherers[k].gatherer];
      }
    }

    lemma SegmentsAre(gatherers: seq<Dog>, ids: seq<nat>, segments: seq<Gatherer>)
      requires |gatherers| == |ids| && forall k :: 0 <= k < |ids| ==> ids[k] in dogs && gatherers[k] == dogs[ids[k]]
      requires |segments| == |gatherers|
      requires forall k :: 0 <= k < |gatherers| ==> segments[k] == gatherers[k].gatherer
      ensures (forall id :: id in ids ==> id in View().board.dogs) && segments == GatherersOf(View().board, ids)
    {
    }

    /** The vectors and events of a tick, once the dogs have moved. */
    method FindEvents() returns (things: seq<Thing>, gatherers: seq<Dog>, ids: seq<nat>, events: seq<GatheringEvent>)
      requires Valid()
      ensures |gatherers| == |ids| && forall k :: 0 <= k < |ids| ==> ids[k] in dogs && gatherers[k] == dogs[ids[k]]
      ensures TickEvents(info, View().board, Setup(things, ids), events)
      ensures Playable(View().board, Setup(things, ids), events)
    {
      things := CollectItems();
      gatherers, ids := CollectDogs();
      var segments := Segments(gatherers);
      SegmentsAre(gatherers, ids, segments);
      events := FindGatherEvents(ItemsOf(things), segments);
      TickEventsFit(info, View().board, Setup(things, ids), events);
    }

    /** The middle of a tick: find the events and handle them in order. */
    method Collide() returns (ghost setup: Setup, ghost events: seq<GatheringEvent>)
      requires Valid()
      modifies this`lostObjects, dogs.Values
      ensures Valid()
      ensures TickEvents(info, old(View().board), setup, events) && Playable(old(View().board), setup, events)
      ensures View() == old(View()).(board := Play(old(View().board), setup, events))
    {
      var things, gatherers, ids, found := FindEvents();
      setup, events := Setup(things, ids), found;
      HandleEvents(things, gatherers, ids, found);
    }

    /** One tick; the records of the dogs that retire are what the two signals carry. */
    method Tick(t: int)
      returns (records: seq<PlayerRecord>, ghost setup: Setup, ghost events: seq<GatheringEvent>,
               ghost retired: seq<nat>)
      requires Valid()
      modifies this`dogs, this`lostObjects, dogs.Values
      ensures Valid()
      ensures forall i :: i in dogs <==> i in old(dogs) && i !in retired
      ensures |records| == |retired| && forall i :: i in retired ==> i in old(dogs)
      ensures forall i :: i in dogs ==> dogs[i] == old(dogs)[i]
      ensures TickStep(info, index.Value(), limit, old(View()), t, setup, events, View())
      ensures var moved := MovedBoard(index.Value(), old(View().board), t);
        Playable(moved, setup, events) && RecordsOf(Play(moved, setup, events).dogs, limit, retired, records)
    {
      ghost var moved := MovedBoard(index.Value(), View().board, t);
      MoveAll(t);
      assert View().board == moved;
      setup, events := Collide();
      records, retired := RemoveInactiveDogs();
    }

    /** How many objects the generator wants. */
    method CountLoot(delta: int, power: int -> real, roll: real) returns (count: nat, ghost draw: real)
      modifies lootGenerator`timeWithoutLoot
      ensures View() == old(View()) && count == Generated(|View().board.lost|, |View().board.dogs|, draw)
      ensures draw == Chance(power(old(lootGenerator.timeWithoutLoot) + delta), roll)
    {
      draw := Chance(power(lootGenerator.timeWithoutLoot + delta), roll);
      StatesCount();
      count := lootGenerator.Generate(delta, |lostObjects|, |dogs|, power, roll);
    }

    /** `GenerateLoot`; `supply` stands for the random generators. */
    method GenerateLoot(delta: int, power: int -> real, roll: real, supply: nat -> Draw)
      returns (ghost draw: real, ghost draws: seq<Draw>)
      requires Valid() && forall i :: DrawOk(info, supply(i))
      modifies this`lostObjects, this`nextLost, lootGenerator`timeWithoutLoot
      ensures Valid() && GenerateStep(info, old(View()), draw, draws, View())
      ensures draw == Chance(power(old(lootGenerator.timeWithoutLoot) + delta), roll)
    {
      var count: nat;
      count, draw := CountLoot(delta, power, roll);
      draws := DropAll(count, supply);
    }

    lemma StatesCount()
      ensures |DogStates()| == |dogs|
    {
      assert DogStates().Keys == dogs.Keys;
      assert |DogStates()| == |DogStates().Keys| == |dogs.Keys| == |dogs|;
    }

    method DropAll(count: nat, supply: nat -> Draw) returns (ghost draws: seq<Draw>)
      requires Valid() && forall i :: DrawOk(info, supply(i))
      modifies this`lostObjects, this`nextLost
      ensures |draws| == count && forall d :: d in draws ==> DrawOk(info, d)
      ensures forall k :: 0 <= k < count ==> draws[k] == supply(k)
      ensures Valid() && View() == DroppedAll(info, old(View()), draws)
    {
      draws := [];
      for k := 0 to count
        invariant |draws| == k && forall j :: 0 <= j < k ==> draws[j] == supply(j)
        invariant Valid() && View() == DroppedAll(info, old(View()), draws)
      {
        var d := supply(k);
        assert DrawOk(info, d);
        DroppedSnoc(info, old(View()), draws, d);
        draws := draws + [d];
        var spawn := PointOnRoad(info.roads[d.road], d.phase);
        AddLostObject(d.kind, spawn, info.lootValues[d.kind]);
      }
    }
  }

  function RecordOf(d: DogState): PlayerRecord { PlayerRecord(d.name, d.score, WholeSeconds(d.live)) }

  /** One record for each retiring dog, in any order, and none for others. */
  ghost predicate RecordsOf(dogs: map<nat, DogState>, limit: nat, retired: seq<nat>, records: seq<PlayerRecord>) {
    && |records| == |retired|
    && (forall i, j :: 0 <= i < j < |retired| ==> retired[i] != retired[j])
    && (forall id :: id in retired <==> id in Retiring(dogs, limit))
    && (forall k :: 0 <= k < |retired| ==> retired[k] in dogs && records[k] == RecordOf(dogs[retired[k]]))
  }

  /** The records of a tick: one for each dog that retires at its end. */
  ghost predicate TickRecords(ix: Index, limit: nat, s: SessionState, t: int, setup: Setup, events: seq<GatheringEvent>,
                              records: seq<PlayerRecord>) {
    var moved := MovedBoard(ix, s.board, t);
    Playable(moved, setup, events)
    && exists retired :: RecordsOf(Play(moved, setup, events).dogs, limit, retired, records)
  }
}
