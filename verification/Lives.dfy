/** The life of a dog over a run, from the join to the record of its retirement. */
module Lives {
  import opened Wrappers
  import opened Geometry
  import opened RoadIndices
  import opened Movement
  import opened CollisionDetector
  import opened Dogs
  import opened Gathering
  import opened Sessions
  import opened GameSessions

  /* ---- what a dog keeps ---- */

  /** The dog is still the one that was entered: its id, its name, its bag and its width. */
  predicate SameDog(d: DogState, e: DogState) {
    d.id == e.id && d.name == e.name && d.bagCapacity == e.bagCapacity && d.gatherer.width == e.gatherer.width
  }

  lemma {:induction false} TickSameDog(ix: Index, b: Board, t: int, setup: Setup, events: seq<GatheringEvent>, id: nat)
    requires id in b.dogs && Playable(MovedBoard(ix, b, t), setup, events)
    ensures SameDog(b.dogs[id], Play(MovedBoard(ix, b, t), setup, events).dogs[id])
  {
    var moved := MovedBoard(ix, b, t);
    DogsFactor(moved, setup, events, id);
    MeetAllKeepsBody(moved.dogs[id], Own(setup, events, id));
  }

  lemma StepSameDog(m: MapInfo, ix: Index, limit: nat, s: SessionState, a: Action, r: SessionState, id: nat)
    requires Next(m, ix, limit, s, a, r) && id < s.nextDog && id in s.board.dogs && id in r.board.dogs
    ensures SameDog(s.board.dogs[id], r.board.dogs[id])
  {
    match a
    case Join(name, isRandom, road, phase) =>
    case Direct(other, direction) =>
    case Generate(draw, draws) => DropAllCounter(m, s, draws);
    case Advance(t, setup, events) => TickSameDog(ix, s.board, t, setup, events, id);
  }

  /** What the join gave the dog: the session's next number, the player's name, the bag of the map, half a dog's width
      to each side. */
  predicate EnteredAs(m: MapInfo, d: DogState, id: nat, name: string) {
    d.id == id && d.name == name && d.bagCapacity == m.bagCapacity && d.gatherer.width == 0.3
  }

  lemma Newcomer(m: MapInfo, ix: Index, limit: nat, s: SessionState, a: Action, r: SessionState, id: nat)
    requires Next(m, ix, limit, s, a, r) && id in r.board.dogs && id !in s.board.dogs
    ensures a.Join? && EnteredAs(m, r.board.dogs[id], id, a.name)
  {
    DogCounter(m, ix, limit, s, a, r);
  }

  /** The dog joined with action `born` and has been there since. */
  ghost predicate BornAt(actions: seq<Action>, trace: seq<SessionState>, id: nat, born: nat, n: nat) {
    && born < n <= |actions| && |trace| == |actions| + 1
    && actions[born].Join? && trace[born].nextDog == id
    && forall i :: born < i <= n ==> id in trace[i].board.dogs
  }

  lemma SameDogAt(m: MapInfo, ix: Index, limit: nat, actions: seq<Action>, trace: seq<SessionState>, id: nat, i: nat)
    requires IsRun(m, ix, limit, actions, trace) && Represents(ix, m.roads) && i < |actions|
    requires id in trace[i].board.dogs && id in trace[i + 1].board.dogs
    ensures SameDog(trace[i].board.dogs[id], trace[i + 1].board.dogs[id])
  {
    RunKeepsInv(m, ix, limit, actions, trace, i);
    assert DogFine(m, trace[i].board.dogs[id], id, trace[i].nextDog, trace[i].nextLost);
    RunStep(m, ix, limit, actions, trace, i);
    StepSameDog(m, ix, limit, trace[i], actions[i], trace[i + 1], id);
  }

  /** In every state of every run a dog is the one that its player entered. */
  lemma {:induction false} KeepsName(m: MapInfo, ix: Index, limit: nat, actions: seq<Action>, trace: seq<SessionState>,
                                     id: nat, born: nat, n: nat)
    requires IsRun(m, ix, limit, actions, trace) && Represents(ix, m.roads) && n < |trace|
    requires BornAt(actions, trace, id, born, n)
    ensures EnteredAs(m, trace[n].board.dogs[id], id, actions[born].name)
    decreases n
  {
    if n == born + 1 {
      JustEntered(m, ix, limit, actions, trace, id, born);
    } else {
      KeepsName(m, ix, limit, actions, trace, id, born, n - 1);
      SameDogAt(m, ix, limit, actions, trace, id, n - 1);
    }
  }

  lemma NextIsNew(m: MapInfo, s: SessionState)
    requires Inv(m, s)
    ensures s.nextDog !in s.board.dogs
  {
  }

  lemma JustEntered(m: MapInfo, ix: Index, limit: nat, actions: seq<Action>, trace: seq<SessionState>, id: nat,
                    born: nat)
    requires IsRun(m, ix, limit, actions, trace) && Represents(ix, m.roads)
    requires BornAt(actions, trace, id, born, born + 1)
    ensures EnteredAs(m, trace[born + 1].board.dogs[id], id, actions[born].name)
  {
    RunKeepsInv(m, ix, limit, actions, trace, born);
    NextIsNew(m, trace[born]);
    RunStep(m, ix, limit, actions, trace, born);
    Newcomer(m, ix, limit, trace[born], actions[born], trace[born + 1], id);
  }

  /* ---- the record of a retirement ---- */

  /** The dog at the end of a tick, before the retired ones leave. */
  ghost function EndOf(ix: Index, s: SessionState, a: Action, id: nat): DogState
    requires a.Advance? && Playable(MovedBoard(ix, s.board, a.t), a.setup, a.events) && id in s.board.dogs
  {
    Play(MovedBoard(ix, s.board, a.t), a.setup, a.events).dogs[id]
  }

  lemma TickOfRun(m: MapInfo, ix: Index, limit: nat, actions: seq<Action>, trace: seq<SessionState>, n: nat)
    requires IsRun(m, ix, limit, actions, trace) && n < |actions| && actions[n].Advance?
    ensures var a := actions[n]; TickStep(m, ix, limit, trace[n], a.t, a.setup, a.events, trace[n + 1])
    ensures var a := actions[n]; Playable(MovedBoard(ix, trace[n].board, a.t), a.setup, a.events)
  {
    RunStep(m, ix, limit, actions, trace, n);
  }

  lemma {:induction false} EndTick(ix: Index, s: SessionState, a: Action, id: nat)
    requires a.Advance? && Playable(MovedBoard(ix, s.board, a.t), a.setup, a.events) && id in s.board.dogs
    ensures EndOf(ix, s, a, id).name == s.board.dogs[id].name
    ensures EndOf(ix, s, a, id).live == s.board.dogs[id].live + LengthOf(a)
  {
    TickSameDog(ix, s.board, a.t, a.setup, a.events, id);
    AdvanceClocks(MapInfo("", [], [], 0.0, 0, []), ix, s, a.t, a.setup, a.events, id);
  }

  /** Name and clock of a dog before an action. */
  lemma {:induction false} LifeTold(m: MapInfo, ix: Index, limit: nat, actions: seq<Action>, trace: seq<SessionState>,
                                    id: nat, n: nat)
    returns (born: nat)
    requires IsRun(m, ix, limit, actions, trace) && Represents(ix, m.roads) && n < |trace|
    requires LengthsNotNegative(actions) && id in trace[n].board.dogs
    ensures BornAt(actions, trace, id, born, n)
    ensures trace[n].board.dogs[id].name == actions[born].name
    ensures trace[n].board.dogs[id].live == AdvanceTime(actions, born + 1, n) >= 0
  {
    var still: nat;
    born, still := SessionClocks(m, ix, limit, actions, trace, id, n);
    KeepsName(m, ix, limit, actions, trace, id, born, n);
    TimeNotNegative(actions, born + 1, born + 1, n);
  }

  /** Name and clock of a dog at the end of a tick. */
  lemma {:induction false} EndTold(m: MapInfo, ix: Index, limit: nat, actions: seq<Action>, trace: seq<SessionState>,
                                   id: nat, n: nat, d: DogState)
    returns (born: nat)
    requires IsRun(m, ix, limit, actions, trace) && Represents(ix, m.roads) && n < |actions|
    requires LengthsNotNegative(actions) && id in trace[n].board.dogs
    requires d.name == trace[n].board.dogs[id].name && d.live == trace[n].board.dogs[id].live + LengthOf(actions[n])
    ensures BornAt(actions, trace, id, born, n)
    ensures d.name == actions[born].name && d.live == AdvanceTime(actions, born + 1, n + 1) >= 0
  {
    born := LifeTold(m, ix, limit, actions, trace, id, n);
    assert LengthOf(actions[n]) >= 0;
  }

  /** Score and bag of a dog at the end of a tick. */
  lemma {:induction false} EndLedger(m: MapInfo, ix: Index, limit: nat, actions: seq<Action>, trace: seq<SessionState>,
                                     id: nat, n: nat)
    returns (q: int)
    requires IsRun(m, ix, limit, actions, trace) && Represents(ix, m.roads) && n < |actions| && actions[n].Advance?
    requires id in trace[n].board.dogs
    requires Playable(MovedBoard(ix, trace[n].board, actions[n].t), actions[n].setup, actions[n].events)
    ensures var (d, total) := (EndOf(ix, trace[n], actions[n], id), TotalEarned(ix, actions, trace, id, n + 1));
      && total == d.score + BagValue(d.bag) + q * SCORE_LIMIT
      && (ValuesNotNegative(m) && total < SCORE_LIMIT ==> q == 0)
  {
    var a, s := actions[n], trace[n];
    TickOfRun(m, ix, limit, actions, trace, n);
    RunKeepsInv(m, ix, limit, actions, trace, n);
    var q0 := RunLedger(m, ix, limit, actions, trace, id, n);
    var q1 := AdvanceLedger(m, ix, s, a.t, a.setup, a.events, id);
    if ValuesNotNegative(m) {
      TotalNotNegative(m, ix, limit, actions, trace, id, n);
      EarnedAt(m, ix, limit, actions, trace, id, n);
    }
    q := AddLedgers(TotalEarned(ix, actions, trace, id, n), Ledger(s.board.dogs[id]), q0, Earned(ix, s, a, id),
      Ledger(EndOf(ix, s, a, id)), q1, ValuesNotNegative(m));
  }

  /** What a record of a retirement in action `n` says of the run: the name that joined, the score of all that was ever
      picked up but for what is still in the bag, and the whole seconds since the join. */
  ghost predicate TellsLife(m: MapInfo, ix: Index, actions: seq<Action>, trace: seq<SessionState>, n: nat, id: nat,
                            record: PlayerRecord, unspent: int) {
    && n < |actions| && |trace| == |actions| + 1
    && (exists born: nat :: BornAt(actions, trace, id, born, n) && record.name == actions[born].name
          && record.playTime == AdvanceTime(actions, born + 1, n + 1) / 1000)
    && var total := TotalEarned(ix, actions, trace, id, n + 1);
      && record.score == (total - unspent) % 0x1_0000_0000
      && (ValuesNotNegative(m) && total < 0x1_0000_0000 ==> record.score == total - unspent)
  }

  lemma ScoreFrom(total: int, score: Score, unspent: int, q: int)
    requires total == score + unspent + q * SCORE_LIMIT
    ensures score == (total - unspent) % 0x1_0000_0000
  {
    WrapShift(score, q);
  }

  lemma {:induction false} Tells(m: MapInfo, ix: Index, actions: seq<Action>, trace: seq<SessionState>, id: nat,
                                 n: nat, d: DogState, born: nat, unspent: int, q: int)
    requires n < |actions| && |trace| == |actions| + 1 && BornAt(actions, trace, id, born, n)
    requires d.name == actions[born].name && d.live == AdvanceTime(actions, born + 1, n + 1) >= 0
    requires var total := TotalEarned(ix, actions, trace, id, n + 1);
      total == d.score + unspent + q * SCORE_LIMIT && (ValuesNotNegative(m) && total < SCORE_LIMIT ==> q == 0)
    ensures TellsLife(m, ix, actions, trace, n, id, RecordOf(d), unspent)
  {
    ScoreFrom(TotalEarned(ix, actions, trace, id, n + 1), d.score, unspent, q);
  }

  lemma {:induction false} RecordTells(m: MapInfo, ix: Index, limit: nat, actions: seq<Action>,
                                       trace: seq<SessionState>, id: nat, n: nat, d: DogState)
    requires IsRun(m, ix, limit, actions, trace) && Represents(ix, m.roads) && n < |actions| && actions[n].Advance?
    requires LengthsNotNegative(actions) && id in trace[n].board.dogs
    requires Playable(MovedBoard(ix, trace[n].board, actions[n].t), actions[n].setup, actions[n].events)
    requires d == EndOf(ix, trace[n], actions[n], id)
    ensures TellsLife(m, ix, actions, trace, n, id, RecordOf(d), BagValue(d.bag))
  {
    EndTick(ix, trace[n], actions[n], id);
    var born := EndTold(m, ix, limit, actions, trace, id, n, d);
    var q := EndLedger(m, ix, limit, actions, trace, id, n);
    Tells(m, ix, actions, trace, id, n, d, born, BagValue(d.bag), q);
  }

  /** The records of a tick: one for each dog that leaves in it, which tells its life. */
  lemma {:induction false} RecordsTellLives(m: MapInfo, ix: Index, limit: nat, actions: seq<Action>,
                                            trace: seq<SessionState>, n: nat, records: seq<PlayerRecord>)
    returns (left: seq<nat>)
    requires IsRun(m, ix, limit, actions, trace) && Represents(ix, m.roads) && n < |actions| && actions[n].Advance?
    requires LengthsNotNegative(actions)
    requires TickRecords(ix, limit, trace[n], actions[n].t, actions[n].setup, actions[n].events, records)
    ensures |left| == |records| && forall i, j :: 0 <= i < j < |left| ==> left[i] != left[j]
    ensures forall id :: id in left <==> id in trace[n].board.dogs && id !in trace[n + 1].board.dogs
    ensures forall k :: 0 <= k < |left| ==> (left[k] in trace[n].board.dogs
      && TellsLife(m, ix, actions, trace, n, left[k], records[k],
                   BagValue(EndOf(ix, trace[n], actions[n], left[k]).bag)))
  {
    var a := actions[n];
    TickOfRun(m, ix, limit, actions, trace, n);
    var dogs := Play(MovedBoard(ix, trace[n].board, a.t), a.setup, a.events).dogs;
    left :| RecordsOf(dogs, limit, left, records);
    forall k | 0 <= k < |left| ensures left[k] in trace[n].board.dogs
      && TellsLife(m, ix, actions, trace, n, left[k], records[k], BagValue(EndOf(ix, trace[n], a, left[k]).bag))
    {
      RecordTells(m, ix, limit, actions, trace, left[k], n, dogs[left[k]]);
    }
  }

  /* ---- where the loot of a bag comes from ---- */

  /** The entry of a bag is this object of the map. */
  predicate EntryOf(item: FoundObject, o: LostObject) {
    item.id == o.id && item.kind == o.kind && item.value == o.value
  }

  /** What a dog holds it held before, or met. */
  lemma {:induction false} HeldOrMet(d: DogState, things: seq<Thing>, item: FoundObject)
    requires item in MeetAll(d, things).bag
    ensures item in d.bag || exists t :: t in things && t.Loot? && EntryOf(item, t.loot)
  {
    if things != [] {
      var init, t := things[..|things| - 1], things[|things| - 1];
      if item in MeetAll(d, init).bag {
        HeldOrMet(d, init, item);
      } else {
        assert t in things && EntryOf(item, t.loot);
      }
    }
  }

  /** An object that lay on the map in one of the first states. */
  ghost predicate LayOnMap(trace: seq<SessionState>, n: nat, item: FoundObject) {
    exists k: nat :: k < n && k < |trace| && item.id in trace[k].board.lost
      && EntryOf(item, trace[k].board.lost[item.id])
  }

  lemma {:induction false} TickBag(m: MapInfo, ix: Index, s: SessionState, t: int, setup: Setup,
                                   events: seq<GatheringEvent>, id: nat, item: FoundObject)
    requires id in s.board.dogs && TickEvents(m, MovedBoard(ix, s.board, t), setup, events)
    requires Playable(MovedBoard(ix, s.board, t), setup, events)
    requires item in Play(MovedBoard(ix, s.board, t), setup, events).dogs[id].bag
    ensures item in s.board.dogs[id].bag
      || (item.id in s.board.lost && EntryOf(item, s.board.lost[item.id]))
  {
    var moved := MovedBoard(ix, s.board, t);
    DogsFactor(moved, setup, events, id);
    HeldOrMet(moved.dogs[id], Own(setup, events, id), item);
    OwnAreThings(setup, events, id);
  }

  lemma StepBag(m: MapInfo, ix: Index, limit: nat, s: SessionState, a: Action, r: SessionState, id: nat,
                item: FoundObject)
    requires Inv(m, s) && Next(m, ix, limit, s, a, r) && id in r.board.dogs && item in r.board.dogs[id].bag
    ensures (id in s.board.dogs && item in s.board.dogs[id].bag)
      || (item.id in s.board.lost && EntryOf(item, s.board.lost[item.id]))
  {
    match a
    case Join(name, isRandom, road, phase) =>
    case Direct(other, direction) =>
    case Generate(draw, draws) => DropAllCounter(m, s, draws);
    case Advance(t, setup, events) => TickBag(m, ix, s, t, setup, events, id, item);
  }

  lemma StepBagAt(m: MapInfo, ix: Index, limit: nat, actions: seq<Action>, trace: seq<SessionState>, id: nat, i: nat,
                  item: FoundObject)
    requires IsRun(m, ix, limit, actions, trace) && Represents(ix, m.roads) && i < |actions|
    requires id in trace[i + 1].board.dogs && item in trace[i + 1].board.dogs[id].bag
    ensures (id in trace[i].board.dogs && item in trace[i].board.dogs[id].bag)
      || (item.id in trace[i].board.lost && EntryOf(item, trace[i].board.lost[item.id]))
  {
    RunKeepsInv(m, ix, limit, actions, trace, i);
    RunStep(m, ix, limit, actions, trace, i);
    StepBag(m, ix, limit, trace[i], actions[i], trace[i + 1], id, item);
  }

  /** In every state of every run, whatever a dog carries lay on the map in an earlier state, with the same id, kind and
      value. */
  lemma {:induction false} CarriedLayOnMap(m: MapInfo, ix: Index, limit: nat, actions: seq<Action>,
                                           trace: seq<SessionState>, id: nat, n: nat, item: FoundObject)
    requires IsRun(m, ix, limit, actions, trace) && Represents(ix, m.roads) && n < |trace|
    requires id in trace[n].board.dogs && item in trace[n].board.dogs[id].bag
    ensures LayOnMap(trace, n, item)
  {
    if n > 0 {
      StepBagAt(m, ix, limit, actions, trace, id, n - 1, item);
      if id in trace[n - 1].board.dogs && item in trace[n - 1].board.dogs[id].bag {
        CarriedLayOnMap(m, ix, limit, actions, trace, id, n - 1, item);
      }
    }
  }

  /** And it is worth what the map says of its kind. */
  lemma {:induction false} CarriedIsWorthItsKind(m: MapInfo, ix: Index, limit: nat, actions: seq<Action>,
                                                 trace: seq<SessionState>, id: nat, n: nat, item: FoundObject)
    requires IsRun(m, ix, limit, actions, trace) && Represents(ix, m.roads) && n < |trace|
    requires id in trace[n].board.dogs && item in trace[n].board.dogs[id].bag
    ensures item.kind < |m.lootValues| && item.value == m.lootValues[item.kind]
  {
    CarriedLayOnMap(m, ix, limit, actions, trace, id, n, item);
    var k: nat :| k < n && k < |trace| && item.id in trace[k].board.lost && EntryOf(item, trace[k].board.lost[item.id]);
    RunKeepsInv(m, ix, limit, actions, trace, k);
    assert LootFine(m, trace[k].board.lost[item.id], item.id, trace[k].nextLost);
  }

  /* ---- how loot leaves the map ---- */

  /** Some dog picks the object in this tick. */
  ghost predicate PickedIn(ix: Index, s: SessionState, a: Action, oid: nat) {
    a.Advance? && a.setup.Fits(a.events)
    && exists id :: Picked(MovedBoard(ix, s.board, a.t), a.setup, a.events, id, oid)
  }

  lemma {:induction false} TickLeavesLoot(ix: Index, s: SessionState, a: Action, oid: nat)
    requires a.Advance? && Playable(MovedBoard(ix, s.board, a.t), a.setup, a.events) && oid in s.board.lost
    ensures var lost := Play(MovedBoard(ix, s.board, a.t), a.setup, a.events).lost;
      if PickedIn(ix, s, a, oid) then oid !in lost else oid in lost && lost[oid] == s.board.lost[oid]
  {
    LostFactors(MovedBoard(ix, s.board, a.t), a.setup, a.events, oid);
  }

  lemma {:induction false} DropsKeepLoot(m: MapInfo, s: SessionState, draws: seq<Draw>, oid: nat)
    requires (forall d :: d in draws ==> DrawOk(m, d)) && oid in s.board.lost && oid < s.nextLost
    ensures var lost := DroppedAll(m, s, draws).board.lost; oid in lost && lost[oid] == s.board.lost[oid]
  {
    if draws != [] {
      var init := draws[..|draws| - 1];
      DropsKeepLoot(m, s, init, oid);
      DroppedCount(m, s, init);
    }
  }

  /** In any step of any session an object stays on the map as it is, unless a dog picks it in a tick, and then it
      leaves. */
  lemma LootLeavesIffPicked(m: MapInfo, ix: Index, limit: nat, s: SessionState, a: Action, r: SessionState, oid: nat)
    requires Inv(m, s) && Next(m, ix, limit, s, a, r) && oid in s.board.lost
    ensures if PickedIn(ix, s, a, oid) then oid !in r.board.lost
            else oid in r.board.lost && r.board.lost[oid] == s.board.lost[oid]
  {
    assert LootFine(m, s.board.lost[oid], oid, s.nextLost);
    match a
    case Join(name, isRandom, road, phase) =>
    case Direct(other, direction) =>
    case Generate(draw, draws) => DropsKeepLoot(m, s, draws, oid);
    case Advance(t, setup, events) => TickLeavesLoot(ix, s, a, oid);
  }
}
