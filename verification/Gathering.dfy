/** The event loop of a tick: what a list of gathering events does to the dogs and to the map. */
module Gathering {
  import opened Wrappers
  import opened Geometry
  import opened CollisionDetector
  import opened Dogs
  import opened MapSums

  datatype LostObject = LostObject(id: nat, kind: nat, position: Vec, value: int)

  datatype Office = Office(position: Vec, width: real)

  /** What the item vector of a tick holds. */
  datatype Thing = Loot(loot: LostObject) | Base(office: Office)

  const LOOT_WIDTH := 0.0

  function ItemOf(t: Thing): Item {
    match t
    case Loot(o) => Item(o.position, LOOT_WIDTH)
    case Base(o) => Item(o.position, o.width)
  }

  function Found(o: LostObject): FoundObject { FoundObject(o.id, o.kind, o.value) }

  /** The dogs of a session and the loot on its map. */
  datatype Board = Board(dogs: map<nat, DogState>, lost: map<nat, LostObject>)

  /** A tick's configuration: the item vector, and the ids of the dogs in gatherer order. */
  datatype Setup = Setup(things: seq<Thing>, ids: seq<nat>) {
    predicate Fits(events: seq<GatheringEvent>) {
      forall e :: e in events ==> e.item < |things| && e.gatherer < |ids|
    }

    /** The dog an event belongs to. */
    function Dog(e: GatheringEvent): nat
      requires e.gatherer < |ids|
    {
      ids[e.gatherer]
    }
  }

  /* ---- one dog ---- */

  /** Does the dog put the thing of this event in its bag? */
  predicate Accepts(d: DogState, t: Thing) { t.Loot? && !Full(d) }

  /** What meeting one thing does to a dog. */
  function Meet(d: DogState, t: Thing): DogState {
    match t
    case Loot(o) => Bagged(d, Found(o))
    case Base(_) => if d.bag != [] then Cleared(d) else d
  }

  function MeetAll(d: DogState, things: seq<Thing>): DogState {
    if things == [] then d else Meet(MeetAll(d, things[..|things| - 1]), things[|things| - 1])
  }

  /** The loot the dog accepts out of what it meets. */
  function Accepted(d: DogState, things: seq<Thing>): seq<LostObject> {
    if things == [] then []
    else
      var init, t := things[..|things| - 1], things[|things| - 1];
      Accepted(d, init) + if Accepts(MeetAll(d, init), t) then [t.loot] else []
  }

  function ValueOf(objects: seq<LostObject>): int {
    if objects == [] then 0 else ValueOf(objects[..|objects| - 1]) + objects[|objects| - 1].value
  }

  /** Score plus bag. */
  function Ledger(d: DogState): int { d.score + BagValue(d.bag) }

  lemma WrapDiffers(v: int) returns (q: int)
    ensures v == Wrap(v) + q * SCORE_LIMIT
    ensures 0 <= v < SCORE_LIMIT ==> q == 0
  {
    q := v / SCORE_LIMIT;
  }

  lemma {:induction false} ValueOfSnoc(objects: seq<LostObject>, o: LostObject)
    ensures ValueOf(objects + [o]) == ValueOf(objects) + o.value
  {
    assert (objects + [o])[..|objects|] == objects;
  }

  lemma MeetLedger(d: DogState, t: Thing) returns (q: int)
    ensures Ledger(d) + (if Accepts(d, t) then t.loot.value else 0) == Ledger(Meet(d, t)) + q * SCORE_LIMIT
    ensures 0 <= Ledger(d) < SCORE_LIMIT ==> q == 0
  {
    q := 0;
    match t
    case Loot(o) =>
      assert (d.bag + [Found(o)])[..|d.bag|] == d.bag;
    case Base(_) =>
      if d.bag != [] {
        q := WrapDiffers(Ledger(d));
      }
  }

  /** The ledger of a dog grows by exactly what it accepts, up to a multiple of 2^32 lost by the
      unsigned score. */
  lemma {:induction false} LedgerGrows(d: DogState, things: seq<Thing>) returns (q: int)
    ensures Ledger(d) + ValueOf(Accepted(d, things)) == Ledger(MeetAll(d, things)) + q * SCORE_LIMIT
  {
    if things == [] {
      q := 0;
    } else {
      var init, t := things[..|things| - 1], things[|things| - 1];
      var q0 := LedgerGrows(d, init);
      var q1 := MeetLedger(MeetAll(d, init), t);
      q := q0 + q1;
      AcceptedSnoc(d, things);
    }
  }

  lemma {:induction false} AcceptedSnoc(d: DogState, things: seq<Thing>)
    requires things != []
    ensures var (init, t) := (things[..|things| - 1], things[|things| - 1]);
      ValueOf(Accepted(d, things)) ==
        ValueOf(Accepted(d, init)) + if Accepts(MeetAll(d, init), t) then t.loot.value else 0
  {
    var init, t := things[..|things| - 1], things[|things| - 1];
    if Accepts(MeetAll(d, init), t) {
      ValueOfSnoc(Accepted(d, init), t.loot);
    } else {
      assert Accepted(d, things) == Accepted(d, init);
    }
  }

  predicate NotNegative(things: seq<Thing>) {
    forall t :: t in things && t.Loot? ==> t.loot.value >= 0
  }

  /** While score and bag fit `unsigned` nothing is lost. */
  lemma {:induction false} LedgerExact(d: DogState, things: seq<Thing>)
    requires NotNegative(things) && 0 <= Ledger(d)
    requires Ledger(d) + ValueOf(Accepted(d, things)) < SCORE_LIMIT
    ensures Ledger(MeetAll(d, things)) == Ledger(d) + ValueOf(Accepted(d, things))
    ensures ValueOf(Accepted(d, things)) >= 0
  {
    if things != [] {
      var init, t := things[..|things| - 1], things[|things| - 1];
      assert t in things;
      AcceptedSnoc(d, things);
      LedgerExact(d, init);
      var q := MeetLedger(MeetAll(d, init), t);
    }
  }

  /* ---- the interleaved loop ---- */

  /** The body of the loop over the events. */
  function Process(b: Board, s: Setup, e: GatheringEvent): Board
    requires e.item < |s.things| && e.gatherer < |s.ids| && s.Dog(e) in b.dogs
  {
    var d := b.dogs[s.Dog(e)];
    match s.things[e.item]
    case Loot(o) =>
      if !Full(d) then Board(b.dogs[s.Dog(e) := Bagged(d, Found(o))], b.lost - {o.id}) else b
    case Base(_) =>
      if d.bag != [] then Board(b.dogs[s.Dog(e) := Cleared(d)], b.lost) else b
  }

  lemma ProcessIsMeet(b: Board, s: Setup, e: GatheringEvent)
    requires e.item < |s.things| && e.gatherer < |s.ids| && s.Dog(e) in b.dogs
    ensures var (d, t) := (b.dogs[s.Dog(e)], s.things[e.item]);
      Process(b, s, e) ==
        Board(b.dogs[s.Dog(e) := Meet(d, t)], if Accepts(d, t) then b.lost - {t.loot.id} else b.lost)
  {
    assert b.dogs == b.dogs[s.Dog(e) := b.dogs[s.Dog(e)]];
  }

  ghost predicate Playable(b: Board, s: Setup, events: seq<GatheringEvent>) {
    s.Fits(events) && forall id :: id in s.ids ==> id in b.dogs
  }

  function Play(b: Board, s: Setup, events: seq<GatheringEvent>): (r: Board)
    requires Playable(b, s, events)
    ensures r.dogs.Keys == b.dogs.Keys
    decreases |events|
  {
    if events == [] then b
    else
      Process(Play(b, s, events[..|events| - 1]), s, events[|events| - 1])
  }

  /** The things that one dog meets, in order. */
  function Own(s: Setup, events: seq<GatheringEvent>, id: nat): seq<Thing>
    requires s.Fits(events)
  {
    if events == [] then []
    else
      var init, e := events[..|events| - 1], events[|events| - 1];
      Own(s, init, id) + if s.Dog(e) == id then [s.things[e.item]] else []
  }

  predicate PickedBy(d: DogState, things: seq<Thing>, oid: nat) {
    exists o :: o in Accepted(d, things) && o.id == oid
  }

  /** The dog with this id picks the object with that id at some point of the event list. */
  predicate Picked(b: Board, s: Setup, events: seq<GatheringEvent>, id: nat, oid: nat)
    requires s.Fits(events)
  {
    id in b.dogs && PickedBy(b.dogs[id], Own(s, events, id), oid)
  }

  lemma {:induction false} PickedSnoc(d: DogState, init: seq<Thing>, t: Thing, oid: nat)
    ensures PickedBy(d, init + [t], oid) <==>
      (PickedBy(d, init, oid) || (Accepts(MeetAll(d, init), t) && t.loot.id == oid))
  {
    assert (init + [t])[..|init|] == init;
    if Accepts(MeetAll(d, init), t) {
      assert Accepted(d, init + [t]) == Accepted(d, init) + [t.loot];
      assert t.loot in Accepted(d, init + [t]);
    } else {
      assert Accepted(d, init + [t]) == Accepted(d, init);
    }
  }

  lemma {:induction false} MeetSnoc(d: DogState, init: seq<Thing>, t: Thing)
    ensures MeetAll(d, init + [t]) == Meet(MeetAll(d, init), t)
  {
    assert (init + [t])[..|init|] == init;
  }

  /** No dog picks the object anywhere in the event list. */
  ghost predicate LeftAlone(b: Board, s: Setup, events: seq<GatheringEvent>, oid: nat)
    requires s.Fits(events)
  {
    forall id :: id in b.dogs ==> !Picked(b, s, events, id, oid)
  }

  lemma {:induction false} PlayLast(b: Board, s: Setup, events: seq<GatheringEvent>)
    requires Playable(b, s, events) && events != []
    ensures var (init, e) := (events[..|events| - 1], events[|events| - 1]);
      Playable(b, s, init) && e.item < |s.things| && e.gatherer < |s.ids| && s.Dog(e) in Play(b, s, init).dogs
      && Play(b, s, events) == Process(Play(b, s, init), s, e)
  {
  }

  lemma {:induction false} DogsFactor(b: Board, s: Setup, events: seq<GatheringEvent>, id: nat)
    requires Playable(b, s, events) && id in b.dogs
    ensures Play(b, s, events).dogs[id] == MeetAll(b.dogs[id], Own(s, events, id))
    decreases |events|
  {
    if events != [] {
      var init, e := events[..|events| - 1], events[|events| - 1];
      PlayLast(b, s, events);
      DogsFactor(b, s, init, id);
      ProcessIsMeet(Play(b, s, init), s, e);
      OwnLast(s, events, id);
      MeetSnoc(b.dogs[id], Own(s, init, id), s.things[e.item]);
    }
  }

  lemma {:induction false} LostFactors(b: Board, s: Setup, events: seq<GatheringEvent>, oid: nat)
    requires Playable(b, s, events)
    ensures var lost := Play(b, s, events).lost;
      && (oid in lost <==> oid in b.lost && LeftAlone(b, s, events, oid))
      && (oid in lost ==> lost[oid] == b.lost[oid])
    decreases |events|
  {
    if events == [] {
      forall id | id in b.dogs ensures !Picked(b, s, events, id, oid) {
      }
    } else {
      var init, e := events[..|events| - 1], events[|events| - 1];
      PlayLast(b, s, events);
      LostFactors(b, s, init, oid);
      ProcessIsMeet(Play(b, s, init), s, e);
      PickedLast(b, s, events, oid);
      DogsFactor(b, s, init, s.Dog(e));
      var d := Play(b, s, init).dogs[s.Dog(e)];
      if Accepts(d, s.things[e.item]) && s.things[e.item].loot.id == oid {
        assert Picked(b, s, events, s.Dog(e), oid);
      } else {
        assert LeftAlone(b, s, events, oid) <==> LeftAlone(b, s, init, oid);
      }
    }
  }

  /** The interleaved loop gives every dog what its own events alone would give it, and takes from the
      map exactly what some dog picks. */
  lemma {:induction false} FactorsByDog(b: Board, s: Setup, events: seq<GatheringEvent>)
    requires Playable(b, s, events)
    ensures forall id :: id in b.dogs ==> Play(b, s, events).dogs[id] == MeetAll(b.dogs[id], Own(s, events, id))
    ensures forall oid :: oid in Play(b, s, events).lost <==> oid in b.lost && LeftAlone(b, s, events, oid)
    ensures forall oid :: oid in Play(b, s, events).lost ==> Play(b, s, events).lost[oid] == b.lost[oid]
  {
    forall id | id in b.dogs
      ensures Play(b, s, events).dogs[id] == MeetAll(b.dogs[id], Own(s, events, id))
    {
      DogsFactor(b, s, events, id);
    }
    forall oid
      ensures oid in Play(b, s, events).lost <==> oid in b.lost && LeftAlone(b, s, events, oid)
      ensures oid in Play(b, s, events).lost ==> Play(b, s, events).lost[oid] == b.lost[oid]
    {
      LostFactors(b, s, events, oid);
    }
  }

  lemma {:induction false} OwnLast(s: Setup, events: seq<GatheringEvent>, id: nat)
    requires s.Fits(events) && events != []
    ensures var (init, e) := (events[..|events| - 1], events[|events| - 1]);
      Own(s, events, id) == if s.Dog(e) == id then Own(s, init, id) + [s.things[e.item]] else Own(s, init, id)
  {
  }

  lemma {:induction false} PickedLast(b: Board, s: Setup, events: seq<GatheringEvent>, oid: nat)
    requires Playable(b, s, events) && events != []
    ensures var (init, e) := (events[..|events| - 1], events[|events| - 1]);
      var (d, t) := (b.dogs[s.Dog(e)], s.things[e.item]);
      forall id :: id in b.dogs ==>
        (Picked(b, s, events, id, oid) <==> (Picked(b, s, init, id, oid) ||
          (id == s.Dog(e) && Accepts(MeetAll(d, Own(s, init, id)), t) && t.loot.id == oid)))
  {
    var init, e := events[..|events| - 1], events[|events| - 1];
    forall id | id in b.dogs
      ensures Picked(b, s, events, id, oid) <==> (Picked(b, s, init, id, oid) ||
        (id == s.Dog(e) && Accepts(MeetAll(b.dogs[id], Own(s, init, id)), s.things[e.item])
          && s.things[e.item].loot.id == oid))
    {
      OwnLast(s, events, id);
      PickedSnoc(b.dogs[id], Own(s, init, id), s.things[e.item], oid);
    }
  }

  /** So only the order of each dog's own events matters. */
  lemma {:induction false} ReorderingAcrossDogs(b: Board, s: Setup, events: seq<GatheringEvent>,
                                                other: seq<GatheringEvent>)
    requires Playable(b, s, events) && Playable(b, s, other)
    requires forall id :: id in b.dogs ==> Own(s, events, id) == Own(s, other, id)
    ensures Play(b, s, events) == Play(b, s, other)
  {
    FactorsByDog(b, s, events);
    FactorsByDog(b, s, other);
    var p, q := Play(b, s, events), Play(b, s, other);
    forall oid ensures oid in p.lost <==> oid in q.lost {
      assert LeftAlone(b, s, events, oid) <==> LeftAlone(b, s, other, oid);
    }
    assert p.lost == q.lost;
    assert p.dogs == q.dogs;
  }

  /* ---- the order of equal times ---- */

  function OwnEvents(s: Setup, events: seq<GatheringEvent>, id: nat): seq<GatheringEvent>
    requires s.Fits(events)
  {
    if events == [] then []
    else
      var init, e := events[..|events| - 1], events[|events| - 1];
      OwnEvents(s, init, id) + if s.Dog(e) == id then [e] else []
  }

  /** No dog meets two things at the same time. */
  ghost predicate NoTies(s: Setup, events: seq<GatheringEvent>)
    requires s.Fits(events)
  {
    forall j, k :: 0 <= j < k < |events| && s.Dog(events[j]) == s.Dog(events[k]) ==> events[j].time != events[k].time
  }

  predicate StrictlySorted(events: seq<GatheringEvent>) {
    forall j, k :: 0 <= j < k < |events| ==> events[j].time < events[k].time
  }

  lemma {:induction false} OwnEventsLast(s: Setup, events: seq<GatheringEvent>, id: nat)
    requires s.Fits(events) && events != []
    ensures var (init, e) := (events[..|events| - 1], events[|events| - 1]);
      OwnEvents(s, events, id) == if s.Dog(e) == id then OwnEvents(s, init, id) + [e] else OwnEvents(s, init, id)
  {
  }

  lemma StrictlySortedSnoc(a: seq<GatheringEvent>, e: GatheringEvent)
    requires StrictlySorted(a) && forall f :: f in a ==> f.time < e.time
    ensures StrictlySorted(a + [e])
  {
  }

  lemma {:induction false} OwnEventsOf(s: Setup, events: seq<GatheringEvent>, id: nat)
    requires s.Fits(events) && SortedByTime(events) && NoTies(s, events)
    ensures forall e :: e in OwnEvents(s, events, id) <==> e in events && s.Dog(e) == id
    ensures StrictlySorted(OwnEvents(s, events, id))
  {
    if events != [] {
      var init, e := events[..|events| - 1], events[|events| - 1];
      assert events == init + [e];
      OwnEventsOf(s, init, id);
      OwnEventsLast(s, events, id);
      if s.Dog(e) == id {
        forall f | f in OwnEvents(s, init, id) ensures f.time < e.time {
          var j :| 0 <= j < |init| && init[j] == f;
          assert events[j] == f;
        }
        StrictlySortedSnoc(OwnEvents(s, init, id), e);
      }
    }
  }

  function Elements(a: seq<GatheringEvent>): set<GatheringEvent> { set e | e in a }

  lemma LastIsLatest(a: seq<GatheringEvent>, e: GatheringEvent)
    requires StrictlySorted(a) && e in Elements(a)
    ensures a != [] && e.time <= a[|a| - 1].time && (e.time == a[|a| - 1].time ==> e == a[|a| - 1])
  {
    var i :| 0 <= i < |a| && a[i] == e;
  }

  lemma WithoutLast(a: seq<GatheringEvent>)
    requires StrictlySorted(a) && a != []
    ensures a[|a| - 1] in Elements(a) && Elements(a[..|a| - 1]) == Elements(a) - {a[|a| - 1]}
  {
    var init, x := a[..|a| - 1], a[|a| - 1];
    assert a == init + [x];
    forall i | 0 <= i < |init| ensures init[i] != x {
      assert a[i].time < x.time;
    }
  }

  lemma {:induction false} SortedUnique(a: seq<GatheringEvent>, b: seq<GatheringEvent>)
    requires StrictlySorted(a) && StrictlySorted(b) && Elements(a) == Elements(b)
    ensures a == b
    decreases |a|
  {
    if a != [] {
      WithoutLast(a);
      LastIsLatest(b, a[|a| - 1]);
      WithoutLast(b);
      LastIsLatest(a, b[|b| - 1]);
      SortedUnique(a[..|a| - 1], b[..|b| - 1]);
      assert a == a[..|a| - 1] + [a[|a| - 1]] && b == b[..|b| - 1] + [b[|b| - 1]];
    } else if b != [] {
      WithoutLast(b);
    }
  }

  lemma {:induction false} OwnByEvents(s: Setup, a: seq<GatheringEvent>, b: seq<GatheringEvent>, id: nat)
    requires s.Fits(a) && s.Fits(b) && OwnEvents(s, a, id) == OwnEvents(s, b, id)
    ensures Own(s, a, id) == Own(s, b, id)
    decreases |a| + |b|
  {
    if a != [] && s.Dog(a[|a| - 1]) != id {
      OwnByEvents(s, a[..|a| - 1], b, id);
    } else if b != [] && s.Dog(b[|b| - 1]) != id {
      OwnByEvents(s, a, b[..|b| - 1], id);
    } else if a != [] && b != [] {
      var oa, ob := OwnEvents(s, a, id), OwnEvents(s, b, id);
      assert oa[..|oa| - 1] == OwnEvents(s, a[..|a| - 1], id) && ob[..|ob| - 1] == OwnEvents(s, b[..|b| - 1], id);
      assert oa[|oa| - 1] == a[|a| - 1] && ob[|ob| - 1] == b[|b| - 1];
      OwnByEvents(s, a[..|a| - 1], b[..|b| - 1], id);
    }
  }

  /** However the sort leaves equal times, the tick has one outcome as long as no single dog has a tie. */
  lemma {:induction false} SortOrderIsImmaterial(b: Board, s: Setup, items: seq<Item>, gatherers: seq<Gatherer>,
                              events: seq<GatheringEvent>, other: seq<GatheringEvent>)
    requires Playable(b, s, events) && Playable(b, s, other)
    requires IsEventList(items, gatherers, events) && IsEventList(items, gatherers, other)
    requires NoTies(s, events) && NoTies(s, other)
    ensures Play(b, s, events) == Play(b, s, other)
  {
    forall id | id in b.dogs ensures Own(s, events, id) == Own(s, other, id) {
      OwnEventsOf(s, events, id);
      OwnEventsOf(s, other, id);
      forall e ensures e in OwnEvents(s, events, id) <==> e in OwnEvents(s, other, id) {
        assert e in events <==> IsEvent(items, gatherers, e);
        assert e in other <==> IsEvent(items, gatherers, e);
      }
      assert Elements(OwnEvents(s, events, id)) == Elements(OwnEvents(s, other, id));
      SortedUnique(OwnEvents(s, events, id), OwnEvents(s, other, id));
      OwnByEvents(s, events, other, id);
    }
    ReorderingAcrossDogs(b, s, events, other);
  }

  /* ---- loot accounting ---- */

  predicate BagIdsDistinct(bag: seq<FoundObject>) {
    forall i, j :: 0 <= i < j < |bag| ==> bag[i].id != bag[j].id
  }

  /** Bags within capacity, no loot twice in a bag, none both in a bag and on the map. */
  ghost predicate BoardOk(b: Board) {
    && (forall oid :: oid in b.lost ==> b.lost[oid].id == oid)
    && (forall id :: id in b.dogs ==> DogOk(b.dogs[id]))
    && (forall id, i :: id in b.dogs && 0 <= i < |b.dogs[id].bag| ==> b.dogs[id].bag[i].id !in b.lost)
  }

  predicate DogOk(d: DogState) { |d.bag| <= d.bagCapacity && BagIdsDistinct(d.bag) }

  predicate LootDistinct(things: seq<Thing>) {
    forall i, j :: 0 <= i < j < |things| && things[i].Loot? && things[j].Loot? ==>
      things[i].loot.id != things[j].loot.id
  }

  /** The vectors of a tick: loot from the map, each once, and each dog once. */
  ghost predicate SetupOk(b: Board, s: Setup) {
    && (forall t :: t in s.things && t.Loot? ==> t.loot.id in b.lost && b.lost[t.loot.id] == t.loot)
    && LootDistinct(s.things)
    && (forall i, j :: 0 <= i < j < |s.ids| ==> s.ids[i] != s.ids[j])
    && (forall id :: id in s.ids ==> id in b.dogs)
  }

  lemma {:induction false} OwnComesFrom(s: Setup, events: seq<GatheringEvent>, id: nat, t: Thing) returns (k: nat)
    requires s.Fits(events) && t in Own(s, events, id)
    ensures k < |events| && s.Dog(events[k]) == id && s.things[events[k].item] == t
  {
    var n := |events| - 1;
    if s.Dog(events[n]) == id && s.things[events[n].item] == t {
      k := n;
    } else {
      k := OwnComesFrom(s, events[..n], id, t);
    }
  }

  lemma {:induction false} OwnLootDistinct(b: Board, s: Setup, events: seq<GatheringEvent>, id: nat)
    requires SetupOk(b, s) && s.Fits(events) && PairsDistinct(events)
    ensures LootDistinct(Own(s, events, id))
    ensures forall t :: t in Own(s, events, id) ==> t in s.things
  {
    if events != [] {
      var n := |events| - 1;
      var init, e := events[..n], events[n];
      OwnLootDistinct(b, s, init, id);
      OwnLast(s, events, id);
      forall t | t in Own(s, init, id) && t.Loot? && s.Dog(e) == id && s.things[e.item].Loot?
        ensures t.loot.id != s.things[e.item].loot.id
      {
        MetBefore(b, s, events, id, t);
      }
    }
  }

  /** A dog meets each loot at most once in a tick. */
  lemma MetBefore(b: Board, s: Setup, events: seq<GatheringEvent>, id: nat, t: Thing)
    requires SetupOk(b, s) && s.Fits(events) && PairsDistinct(events) && events != []
    requires t.Loot? && t in Own(s, events[..|events| - 1], id)
    requires s.Dog(events[|events| - 1]) == id && s.things[events[|events| - 1].item].Loot?
    ensures t.loot.id != s.things[events[|events| - 1].item].loot.id
  {
    var n := |events| - 1;
    var k := OwnComesFrom(s, events[..n], id, t);
    assert events[..n][k] == events[k];
    assert !SamePair(events[k], events[n]);
    var i, j := events[k].item, events[n].item;
    assert events[k].gatherer == events[n].gatherer;
    assert i != j && (i < j || j < i);
  }

  predicate BagHas(bag: seq<FoundObject>, oid: nat) { exists i :: 0 <= i < |bag| && bag[i].id == oid }

  /** What a dog holds at the end it held before or accepted, each once and within capacity. */
  lemma {:induction false} MeetAllBag(d: DogState, things: seq<Thing>)
    requires DogOk(d) && LootDistinct(things)
    requires forall t :: t in things && t.Loot? ==> !BagHas(d.bag, t.loot.id)
    ensures DogOk(MeetAll(d, things))
    ensures forall oid :: BagHas(MeetAll(d, things).bag, oid) ==> BagHas(d.bag, oid) || PickedBy(d, things, oid)
    ensures forall o :: o in Accepted(d, things) ==> Loot(o) in things
  {
    if things != [] {
      var n := |things| - 1;
      var init, t := things[..n], things[n];
      assert things == init + [t];
      MeetAllBag(d, init);
      var m := MeetAll(d, init);
      forall oid ensures BagHas(Meet(m, t).bag, oid) ==> BagHas(d.bag, oid) || PickedBy(d, things, oid) {
        PickedSnoc(d, init, t, oid);
        if Accepts(m, t) && BagHas(Meet(m, t).bag, oid) && oid != t.loot.id {
          var i :| 0 <= i < |Meet(m, t).bag| && Meet(m, t).bag[i].id == oid;
          assert m.bag[i].id == oid;
        }
      }
      if Accepts(m, t) {
        forall o | o in Accepted(d, init) ensures o.id != t.loot.id {
          var j :| 0 <= j < |init| && init[j] == Loot(o);
          assert things[j] == Loot(o);
        }
        assert forall i :: 0 <= i < |m.bag| ==> BagHas(m.bag, m.bag[i].id);
      }
    }
  }

  lemma {:induction false} PlayKeepsBoardOk(b: Board, s: Setup, events: seq<GatheringEvent>)
    requires BoardOk(b) && SetupOk(b, s) && s.Fits(events) && PairsDistinct(events)
    ensures BoardOk(Play(b, s, events))
    ensures forall oid :: oid in b.lost && oid !in Play(b, s, events).lost ==>
      exists id :: Picked(b, s, events, id, oid)
  {
    FactorsByDog(b, s, events);
    var r := Play(b, s, events);
    forall id | id in b.dogs
      ensures DogOk(r.dogs[id])
      ensures forall oid :: BagHas(r.dogs[id].bag, oid) ==> oid !in r.lost
    {
      OwnLootDistinct(b, s, events, id);
      var d := b.dogs[id];
      forall t | t in Own(s, events, id) && t.Loot? ensures !BagHas(d.bag, t.loot.id) {
      }
      MeetAllBag(d, Own(s, events, id));
      forall oid | BagHas(r.dogs[id].bag, oid) ensures oid !in r.lost {
        if !BagHas(d.bag, oid) {
          assert Picked(b, s, events, id, oid);
        }
      }
    }
    forall id, i | id in r.dogs && 0 <= i < |r.dogs[id].bag| ensures r.dogs[id].bag[i].id !in r.lost {
      assert BagHas(r.dogs[id].bag, r.dogs[id].bag[i].id);
    }
    forall oid | oid in b.lost && oid !in r.lost ensures exists id :: Picked(b, s, events, id, oid) {
      assert !LeftAlone(b, s, events, oid);
    }
  }

  /* ---- conservation of value ---- */

  /** The value on the map, in the bags and in the scores. */
  ghost function TotalValue(b: Board): int {
    SumOver(b.lost, (o: LostObject) => o.value) + SumOver(b.dogs, (d: DogState) => Ledger(d))
  }

  /** The value of loot accepted when it was no longer on the map. */
  function DoubleValue(b: Board, s: Setup, events: seq<GatheringEvent>): int
    requires Playable(b, s, events)
    decreases |events|
  {
    if events == [] then 0
    else
      var init, e := events[..|events| - 1], events[|events| - 1];
      var (before, t) := (Play(b, s, init), s.things[e.item]);
      DoubleValue(b, s, init) +
        if Accepts(before.dogs[s.Dog(e)], t) && t.loot.id !in before.lost then t.loot.value else 0
  }

  /** Every dog's score plus bag fits `unsigned` throughout the tick. */
  ghost predicate FitsUnsigned(b: Board, s: Setup, events: seq<GatheringEvent>)
    requires Playable(b, s, events)
  {
    forall k, id :: 0 <= k <= |events| && id in b.dogs ==> 0 <= Ledger(Play(b, s, events[..k]).dogs[id]) < SCORE_LIMIT
  }

  lemma ProcessTotal(b: Board, s: Setup, e: GatheringEvent)
    requires e.item < |s.things| && e.gatherer < |s.ids| && s.Dog(e) in b.dogs
    requires 0 <= Ledger(b.dogs[s.Dog(e)]) < SCORE_LIMIT
    requires var t := s.things[e.item]; t.Loot? && t.loot.id in b.lost ==> b.lost[t.loot.id] == t.loot
    ensures var (d, t) := (b.dogs[s.Dog(e)], s.things[e.item]);
      TotalValue(Process(b, s, e)) == TotalValue(b) +
        if Accepts(d, t) && t.loot.id !in b.lost then t.loot.value else 0
  {
    var d, t := b.dogs[s.Dog(e)], s.things[e.item];
    ProcessIsMeet(b, s, e);
    var q := MeetLedger(d, t);
    SumUpdated(b.dogs, (d: DogState) => Ledger(d), s.Dog(e), Meet(d, t));
    if Accepts(d, t) {
      if t.loot.id in b.lost {
        SumWithout(b.lost, (o: LostObject) => o.value, t.loot.id);
      } else {
        assert b.lost - {t.loot.id} == b.lost;
      }
    }
  }

  /** The event loop conserves value, except that loot accepted again after it left the map is new. */
  lemma {:induction false} ValueAccounted(b: Board, s: Setup, events: seq<GatheringEvent>)
    requires Playable(b, s, events) && SetupOk(b, s) && FitsUnsigned(b, s, events)
    ensures TotalValue(Play(b, s, events)) == TotalValue(b) + DoubleValue(b, s, events)
    decreases |events|
  {
    if events != [] {
      var n := |events| - 1;
      var init, e := events[..n], events[n];
      assert forall k :: 0 <= k <= n ==> init[..k] == events[..k];
      ValueAccounted(b, s, init);
      PlayLast(b, s, events);
      var t := s.things[e.item];
      assert t in s.things;
      if t.Loot? {
        LostFactors(b, s, init, t.loot.id);
      }
      assert 0 <= Ledger(Play(b, s, events[..n]).dogs[s.Dog(e)]) < SCORE_LIMIT;
      ProcessTotal(Play(b, s, init), s, e);
    }
  }

  /** No loot is accepted by two dogs. */
  ghost predicate NoDoubles(b: Board, s: Setup, events: seq<GatheringEvent>)
    requires s.Fits(events)
  {
    forall i, j, oid :: Picked(b, s, events, i, oid) && Picked(b, s, events, j, oid) ==> i == j
  }

  /** The last event is accepted by its dog, and some dog had accepted the same loot before. */
  ghost predicate LastDoubles(b: Board, s: Setup, events: seq<GatheringEvent>)
    requires Playable(b, s, events) && events != []
  {
    var (init, e) := (events[..|events| - 1], events[|events| - 1]);
    var t := s.things[e.item];
    Accepts(Play(b, s, init).dogs[s.Dog(e)], t) && !LeftAlone(b, s, init, t.loot.id)
  }

  lemma {:induction false} PickedWasMet(b: Board, s: Setup, events: seq<GatheringEvent>, id: nat, oid: nat)
    returns (t: Thing)
    requires s.Fits(events) && Picked(b, s, events, id, oid)
    ensures t in Own(s, events, id) && t.Loot? && t.loot.id == oid
  {
    var o :| o in Accepted(b.dogs[id], Own(s, events, id)) && o.id == oid;
    AcceptedWereMet(b.dogs[id], Own(s, events, id));
    t := Loot(o);
  }

  lemma {:induction false} AcceptedWereMet(d: DogState, things: seq<Thing>)
    ensures forall o :: o in Accepted(d, things) ==> Loot(o) in things
  {
    if things != [] {
      AcceptedWereMet(d, things[..|things| - 1]);
    }
  }

  lemma DoublesSplit(b: Board, s: Setup, events: seq<GatheringEvent>)
    requires Playable(b, s, events) && SetupOk(b, s) && PairsDistinct(events) && events != []
    ensures NoDoubles(b, s, events) <==> NoDoubles(b, s, events[..|events| - 1]) && !LastDoubles(b, s, events)
  {
    var init, e := events[..|events| - 1], events[|events| - 1];
    var me, t := s.Dog(e), s.things[e.item];
    DogsFactor(b, s, init, me);
    forall id, oid ensures Picked(b, s, init, id, oid) ==> Picked(b, s, events, id, oid) {
      PickedLast(b, s, events, oid);
    }
    if LastDoubles(b, s, events) {
      var id :| id in b.dogs && Picked(b, s, init, id, t.loot.id);
      PickedLast(b, s, events, t.loot.id);
      if id == me {
        var met := PickedWasMet(b, s, init, me, t.loot.id);
        MetBefore(b, s, events, me, met);
      }
      assert Picked(b, s, events, me, t.loot.id) && Picked(b, s, events, id, t.loot.id);
    } else if NoDoubles(b, s, init) {
      forall i, j, oid | Picked(b, s, events, i, oid) && Picked(b, s, events, j, oid) ensures i == j {
        PickedLast(b, s, events, oid);
      }
    }
  }

  /** With loot of positive value, a tick conserves value iff no loot is accepted by two dogs. */
  lemma {:induction false} ConservedIffNoDoubles(b: Board, s: Setup, events: seq<GatheringEvent>)
    requires Playable(b, s, events) && SetupOk(b, s) && PairsDistinct(events)
    requires forall t :: t in s.things && t.Loot? ==> t.loot.value > 0
    ensures DoubleValue(b, s, events) >= 0
    ensures DoubleValue(b, s, events) == 0 <==> NoDoubles(b, s, events)
    ensures FitsUnsigned(b, s, events) ==>
      (TotalValue(Play(b, s, events)) == TotalValue(b) <==> NoDoubles(b, s, events))
    decreases |events|
  {
    if events == [] {
      forall id, oid ensures !Picked(b, s, events, id, oid) {
      }
    } else {
      var init, e := events[..|events| - 1], events[|events| - 1];
      assert PairsDistinct(init);
      ConservedIffNoDoubles(b, s, init);
      DoublesSplit(b, s, events);
      var t := s.things[e.item];
      assert t in s.things;
      if t.Loot? {
        LostFactors(b, s, init, t.loot.id);
      }
    }
    if FitsUnsigned(b, s, events) {
      ValueAccounted(b, s, events);
    }
  }
}
