/** What a dog reaches in a tick: the offices and the loot in the rectangle ahead of it, and what that does to its bag
    and score. */
module Reaches {
  import opened Wrappers
  import opened Geometry
  import opened RoadIndices
  import opened Movement
  import opened CollisionDetector
  import opened Dogs
  import opened Gathering
  import opened Sessions
  import opened Ties

  /* ---- which things a dog meets ---- */

  /** Where a thing lies and how wide it is: loot is a point, an office has its width. */
  predicate LiesAt(t: Thing, place: Vec, width: real) {
    match t
    case Loot(o) => place == o.position && width == 0.0
    case Base(o) => place == o.position && width == o.width
  }

  /** The dog as a tick finds it: moved, looking along its way. */
  predicate Looks(d: DogState) {
    d.direction != Stop && d.gatherer.width >= 0.0 && d.gatherer == GathererAt(d.direction, d.body.pos, d.gatherer)
  }

  lemma MovedLooks(ix: Index, d: DogState, t: int)
    requires d.direction != Stop && d.gatherer.width >= 0.0
    ensures Looks(Moved(ix, d, t)) && Moved(ix, d, t).direction == d.direction
    ensures Moved(ix, d, t).gatherer.width == d.gatherer.width
  {
  }

  ghost predicate PairsUp(items: seq<Item>, gatherers: seq<Gatherer>, i: nat, g: nat) {
    exists e :: IsEvent(items, gatherers, e) && e.item == i && e.gatherer == g
  }

  /** The pair of this thing and this gatherer is an event iff the thing is ahead of the dog. */
  lemma PairIsEvent(items: seq<Item>, gatherers: seq<Gatherer>, d: DogState, i: nat, g: nat, place: Vec, width: real)
    requires i < |items| && g < |gatherers| && gatherers[g] == d.gatherer && Looks(d)
    requires items[i] == Item(place, width) && width >= 0.0
    ensures PairsUp(items, gatherers, i, g) <==> Ahead(d.direction, d.body.pos, place, width + d.gatherer.width)
  {
    RectangleOf(d, place, width + d.gatherer.width);
    CollectedIffPassesWithin(d.gatherer.start, d.gatherer.end, place, width + d.gatherer.width);
    var c := TryCollectPoint(d.gatherer.start, d.gatherer.end, place);
    if Ahead(d.direction, d.body.pos, place, width + d.gatherer.width) {
      assert IsEvent(items, gatherers, GatheringEvent(i, g, c.sqDistance, c.projRatio));
    }
  }

  /** Some event of the list pairs the dog with the thing. */
  predicate Meets(s: Setup, events: seq<GatheringEvent>, id: nat, t: Thing)
    requires s.Fits(events)
  {
    exists e :: e in events && s.Dog(e) == id && s.things[e.item] == t
  }

  lemma PlaceOf(m: MapInfo, b: Board, s: Setup, id: nat) returns (g: nat)
    requires BuiltFrom(m, b, s) && id in b.dogs
    ensures g < |s.ids| && s.ids[g] == id && GatherersOf(b, s.ids)[g] == b.dogs[id].gatherer
  {
    g :| 0 <= g < |s.ids| && s.ids[g] == id;
  }

  lemma MeetsByPairs(s: Setup, items: seq<Item>, gatherers: seq<Gatherer>, events: seq<GatheringEvent>, id: nat, g: nat,
                     t: Thing, ahead: bool)
    requires s.Fits(events) && IsEventList(items, gatherers, events) && t in s.things
    requires g < |s.ids| && s.ids[g] == id && forall j :: 0 <= j < |s.ids| && s.ids[j] == id ==> j == g
    requires forall i :: 0 <= i < |s.things| && s.things[i] == t ==> (PairsUp(items, gatherers, i, g) <==> ahead)
    ensures Meets(s, events, id, t) <==> ahead
  {
    if Meets(s, events, id, t) {
      var e :| e in events && s.Dog(e) == id && s.things[e.item] == t;
      assert IsEvent(items, gatherers, e) && e.gatherer == g;
      assert PairsUp(items, gatherers, e.item, g);
    }
    if ahead {
      var i :| 0 <= i < |s.things| && s.things[i] == t;
      assert PairsUp(items, gatherers, i, g);
      var e :| IsEvent(items, gatherers, e) && e.item == i && e.gatherer == g;
      assert e in events;
    }
  }

  lemma PairsOf(s: Setup, items: seq<Item>, gatherers: seq<Gatherer>, d: DogState, g: nat, t: Thing, place: Vec,
                width: real)
    requires items == ItemsOf(s.things) && g < |gatherers| && gatherers[g] == d.gatherer && Looks(d)
    requires LiesAt(t, place, width) && width >= 0.0
    ensures forall i :: 0 <= i < |s.things| && s.things[i] == t ==>
      (PairsUp(items, gatherers, i, g) <==> Ahead(d.direction, d.body.pos, place, width + d.gatherer.width))
  {
    forall i | 0 <= i < |s.things| && s.things[i] == t
      ensures PairsUp(items, gatherers, i, g)
        <==> Ahead(d.direction, d.body.pos, place, width + d.gatherer.width)
    {
      assert items[i] == Item(place, width);
      PairIsEvent(items, gatherers, d, i, g, place, width);
    }
  }

  /** In a tick the dog meets a thing iff the thing is ahead of it: within half a cell along its way, and to each side
      within the width of the thing and its own. */
  lemma MeetsIff(m: MapInfo, b: Board, s: Setup, events: seq<GatheringEvent>, id: nat, t: Thing, place: Vec,
                 width: real)
    requires TickEvents(m, b, s, events) && Playable(b, s, events) && id in b.dogs && Looks(b.dogs[id])
    requires t in s.things && LiesAt(t, place, width) && width >= 0.0
    ensures Meets(s, events, id, t)
      <==> Ahead(b.dogs[id].direction, b.dogs[id].body.pos, place, width + b.dogs[id].gatherer.width)
  {
    var d, items, gatherers := b.dogs[id], ItemsOf(s.things), GatherersOf(b, s.ids);
    var g := PlaceOf(m, b, s, id);
    PairsOf(s, items, gatherers, d, g, t, place, width);
    MeetsByPairs(s, items, gatherers, events, id, g, t,
      Ahead(d.direction, d.body.pos, place, width + d.gatherer.width));
  }

  lemma {:induction false} OwnIsMet(s: Setup, events: seq<GatheringEvent>, id: nat, t: Thing)
    requires s.Fits(events)
    ensures t in Own(s, events, id) <==> Meets(s, events, id, t)
  {
    if t in Own(s, events, id) {
      var k := OwnComesFrom(s, events, id, t);
      assert events[k] in events;
    }
    if Meets(s, events, id, t) {
      var k :| 0 <= k < |events| && s.Dog(events[k]) == id && s.things[events[k].item] == t;
      MetIsOwn(s, events, id, k);
    }
  }

  lemma {:induction false} MetIsOwn(s: Setup, events: seq<GatheringEvent>, id: nat, k: nat)
    requires s.Fits(events) && k < |events| && s.Dog(events[k]) == id
    ensures s.things[events[k].item] in Own(s, events, id)
    decreases |events|
  {
    OwnLast(s, events, id);
    if k < |events| - 1 {
      MetIsOwn(s, events[..|events| - 1], id, k);
    }
  }

  lemma OfficeListed(m: MapInfo, s: Setup, office: Office)
    requires exists n: nat :: OfficesAfter(m, s.things, n)
    ensures office in m.offices <==> Base(office) in s.things
  {
    var n: nat :| OfficesAfter(m, s.things, n);
    if office in m.offices {
      var i :| 0 <= i < |m.offices| && m.offices[i] == office;
      assert s.things[n + i] == Base(office);
    }
    if Base(office) in s.things {
      var k :| 0 <= k < |s.things| && s.things[k] == Base(office);
      assert s.things[n + (k - n)] == Base(m.offices[k - n]);
    }
  }

  /** Ahead of this dog, for a thing of this width. */
  predicate Reached(d: DogState, place: Vec, width: real) {
    Ahead(d.direction, d.body.pos, place, width + d.gatherer.width)
  }

  /** In a tick a dog meets exactly the offices and the loot ahead of it, and nothing else. */
  lemma {:induction false} MeetsWhatIsAhead(m: MapInfo, b: Board, s: Setup, events: seq<GatheringEvent>, id: nat)
    requires TickEvents(m, b, s, events) && Playable(b, s, events) && id in b.dogs && Looks(b.dogs[id])
    requires forall office :: office in m.offices ==> office.width >= 0.0
    ensures forall office :: Base(office) in Own(s, events, id) <==>
      office in m.offices && Reached(b.dogs[id], office.position, office.width)
    ensures forall o :: Loot(o) in Own(s, events, id) <==>
      o.id in b.lost && b.lost[o.id] == o && Reached(b.dogs[id], o.position, 0.0)
  {
    OwnAreThings(s, events, id);
    forall office ensures Base(office) in Own(s, events, id)
      <==> office in m.offices && Reached(b.dogs[id], office.position, office.width)
    {
      OfficeListed(m, s, office);
      OwnIsMet(s, events, id, Base(office));
      if office in m.offices {
        MeetsIff(m, b, s, events, id, Base(office), office.position, office.width);
      }
    }
    forall o ensures Loot(o) in Own(s, events, id)
      <==> o.id in b.lost && b.lost[o.id] == o && Reached(b.dogs[id], o.position, 0.0)
    {
      OwnIsMet(s, events, id, Loot(o));
      if Loot(o) in s.things {
        MeetsIff(m, b, s, events, id, Loot(o), o.position, 0.0);
      }
    }
  }

  /* ---- what it does with them ---- */

  lemma {:induction false} LastOffice(things: seq<Thing>) returns (pre: seq<Thing>, office: Thing, post: seq<Thing>)
    requires HasOffice(things)
    ensures things == (pre + [office]) + post && office.Base? && AllLoot(post)
  {
    var n := |things| - 1;
    if things[n].Base? {
      pre, office, post := things[..n], things[n], [];
    } else {
      assert exists i :: 0 <= i < |things[..n]| && things[..n][i].Base?;
      pre, office, post := LastOffice(things[..n]);
      post := post + [things[n]];
    }
  }

  /** The dog has handed in what it carried and what it picked up before its last office, and carries what it met
      after it, as far as that fits. */
  ghost predicate HandedIn(d: DogState, own: seq<Thing>, r: DogState) {
    exists pre, office, post :: HandedInAt(d, own, r, pre, office, post)
  }

  ghost predicate HandedInAt(d: DogState, own: seq<Thing>, r: DogState, pre: seq<Thing>, office: Thing,
                             post: seq<Thing>) {
    && own == (pre + [office]) + post && office.Base? && AllLoot(post)
    && r.score == (d.score + BagValue(d.bag) + ValueOf(Accepted(d, pre))) % 0x1_0000_0000
    && r.bag == FoundsOf(LootsOf(Fitting(post, d.bagCapacity)))
  }

  lemma {:induction false} AtOffice(d: DogState, pre: seq<Thing>, office: Thing)
    requires office.Base?
    ensures var x := MeetAll(d, pre + [office]);
      x.bag == [] && x.score == (d.score + BagValue(d.bag) + ValueOf(Accepted(d, pre))) % 0x1_0000_0000
      && x.bagCapacity == d.bagCapacity
  {
    EmptyAfter(d, pre, office);
    MeetAllKeepsDog(d, pre + [office]);
    var s := ScoreAt(d, pre, office);
    WrapShift(MeetAll(d, pre + [office]).score, s);
  }

  lemma {:induction false} HandsIn(d: DogState, own: seq<Thing>)
    requires HasOffice(own)
    ensures HandedIn(d, own, MeetAll(d, own))
  {
    var pre, office, post := LastOffice(own);
    var x := MeetAll(d, pre + [office]);
    AtOffice(d, pre, office);
    MeetAllConcat(d, pre + [office], post);
    MeetLoot(x, post);
    assert HandedInAt(d, own, MeetAll(d, own), pre, office, post);
  }

  lemma NoOfficeIn(things: seq<Thing>)
    requires forall office :: Base(office) !in things
    ensures AllLoot(things)
  {
    forall i | 0 <= i < |things| ensures things[i].Loot? {
      assert things[i] in things;
    }
  }

  /** A tick and one dog: with an office ahead, the dog hands in its bag, and all it had or picked up until then counts;
      with none, the score stays, and the bag gains what lies ahead, in the order of the events, while there is room. */
  lemma {:induction false} TickBagAndScore(m: MapInfo, b: Board, s: Setup, events: seq<GatheringEvent>, id: nat)
    requires TickEvents(m, b, s, events) && Playable(b, s, events) && id in b.dogs && Looks(b.dogs[id])
    requires forall office :: office in m.offices ==> office.width >= 0.0
    ensures var (d, own, r) := (b.dogs[id], Own(s, events, id), Play(b, s, events).dogs[id]);
      if exists office :: office in m.offices && Reached(d, office.position, office.width) then HandedIn(d, own, r)
      else AllLoot(own) && r == d.(bag := d.bag + FoundsOf(LootsOf(Fitting(own, Room(d)))))
  {
    var d, own := b.dogs[id], Own(s, events, id);
    MeetsWhatIsAhead(m, b, s, events, id);
    DogsFactor(b, s, events, id);
    if office :| office in m.offices && Reached(d, office.position, office.width) {
      assert Base(office) in own;
      HandsIn(d, own);
    } else {
      NoOfficeIn(own);
      MeetLoot(d, own);
    }
  }
}
