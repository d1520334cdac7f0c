/** A restored dog is kept under a number of the new session, and looked up under its own id: what that does to
    commands, to the event loop and to the removal of players. */
module Renumberings {
  import opened Wrappers
  import opened Geometry
  import opened RoadIndices
  import opened Movement
  import opened CollisionDetector
  import opened Dogs
  import opened Gathering
  import opened Sessions
  import opened Registries
  import opened Serialization
  import opened SavedGames

  /* ---- the orders of a save ---- */

  /** A record of the player, as a save writes it. */
  ghost function SaveOf(reg: Registry, dogs: map<nat, DogState>, sid: nat, id: nat): PlayerRepr
    requires id in PlayersOf(reg, sid) && id in reg.tokenOf && PlayersOf(reg, sid)[id].dog in dogs
  {
    PlayerRepr(id, ReprOf(dogs[PlayersOf(reg, sid)[id].dog]), reg.tokenOf[id])
  }

  ghost function OwnerOf(crew: map<nat, Player>, dog: nat): (id: nat)
    requires exists id :: id in crew && crew[id].dog == dog
    ensures id in crew && crew[id].dog == dog
  {
    var id :| id in crew && crew[id].dog == dog;
    id
  }

  ghost predicate Enumerates(order: seq<nat>, all: set<nat>) {
    NoRepeats(order) && forall id :: id in order <==> id in all
  }

  /** A session with tokens for its players, and its dogs under their ids. */
  ghost predicate Crewed(reg: Registry, dogs: map<nat, DogState>, sid: nat) {
    && Consistent(reg) && IdsAreKeys(dogs) && DogsMatch(PlayersOf(reg, sid), dogs.Keys)
  }

  lemma CrewHasTokens(reg: Registry, dogs: map<nat, DogState>, sid: nat)
    requires Crewed(reg, dogs, sid)
    ensures forall id :: id in PlayersOf(reg, sid) ==> id in reg.tokenOf && PlayersOf(reg, sid)[id].dog in dogs
  {
    var crew := PlayersOf(reg, sid);
    forall id | id in crew ensures id in reg.tokenOf {
      assert Registered(reg, crew[id]) && HasToken(reg, crew[id]);
    }
  }

  /** The players of the dogs in this order. */
  lemma OwnersInOrder(crew: map<nat, Player>, dogs: set<nat>, order: seq<nat>) returns (ids: seq<nat>)
    requires DogsMatch(crew, dogs) && Enumerates(order, dogs)
    ensures |ids| == |order| && Enumerates(ids, crew.Keys)
    ensures forall i :: 0 <= i < |ids| ==> ids[i] in crew && crew[ids[i]].dog == order[i]
  {
    forall i | 0 <= i < |order| ensures order[i] in dogs {
    }
    ids := seq(|order|, i requires 0 <= i < |order| => OwnerOf(crew, order[i]));
    forall id | id in crew ensures id in ids {
      var i :| 0 <= i < |order| && order[i] == crew[id].dog;
      assert ids[i] == id;
    }
  }

  lemma SaveByIds(reg: Registry, dogs: map<nat, DogState>, sid: nat, ids: seq<nat>) returns (players: seq<PlayerRepr>)
    requires forall id :: id in PlayersOf(reg, sid) ==> id in reg.tokenOf && PlayersOf(reg, sid)[id].dog in dogs
    requires Enumerates(ids, PlayersOf(reg, sid).Keys)
    ensures SavedPlayers(reg, dogs, sid, players) && |players| == |ids|
    ensures forall i :: 0 <= i < |ids| ==> (
      ids[i] in PlayersOf(reg, sid) && PlayersOf(reg, sid)[ids[i]].dog in dogs
      && players[i].dog.id == dogs[PlayersOf(reg, sid)[ids[i]].dog].id)
  {
    assert forall i :: 0 <= i < |ids| ==> ids[i] in ids && ids[i] in PlayersOf(reg, sid).Keys;
    players := seq(|ids|, i requires 0 <= i < |ids| => SaveOf(reg, dogs, sid, ids[i]));
    forall id | id in PlayersOf(reg, sid) ensures exists i :: 0 <= i < |players| && players[i].id == id {
      var i :| 0 <= i < |ids| && ids[i] == id;
      assert players[i].id == id;
    }
  }

  /** `order[i]` is the own id of the dog that comes back as number `i`. */
  ghost predicate Numbered(players: seq<PlayerRepr>, order: seq<nat>) {
    |order| == |players| && forall i :: 0 <= i < |order| ==> DogsBack(players)[i].id == order[i]
  }

  lemma NumberedBy(players: seq<PlayerRepr>, order: seq<nat>)
    requires |order| == |players| && forall i :: 0 <= i < |order| ==> players[i].dog.id == order[i]
    ensures Numbered(players, order)
  {
  }

  /** The players may be walked in any order, and so the dogs. */
  lemma SaveInOrder(reg: Registry, dogs: map<nat, DogState>, sid: nat, order: seq<nat>)
    returns (players: seq<PlayerRepr>)
    requires Crewed(reg, dogs, sid) && Enumerates(order, dogs.Keys)
    ensures SavedPlayers(reg, dogs, sid, players) && Numbered(players, order)
  {
    CrewHasTokens(reg, dogs, sid);
    var ids := OwnersInOrder(PlayersOf(reg, sid), dogs.Keys, order);
    players := SaveByIds(reg, dogs, sid, ids);
    NumberedBy(players, order);
  }

  lemma SavedDogs(reg: Registry, dogs: map<nat, DogState>, sid: nat, players: seq<PlayerRepr>) returns (order: seq<nat>)
    requires Crewed(reg, dogs, sid) && SavedPlayers(reg, dogs, sid, players)
    ensures Enumerates(order, dogs.Keys) && Numbered(players, order)
  {
    order := DogsComeBack(reg, dogs, sid, players);
    CountsAgree(DogsBack(players), |order|, |players|);
    forall i | 0 <= i < |players| ensures DogsBack(players)[i].id == order[i] {
      assert order[i] in dogs;
    }
  }

  /** The numbers from 0 on, without a gap. */
  ghost predicate NoGap(ids: set<nat>) { forall id: nat :: id in ids <==> id < |ids| }

  lemma {:induction false} EnumeratedCount(order: seq<nat>, all: set<nat>)
    requires Enumerates(order, all)
    ensures |order| == |all|
  {
    if order == [] {
      assert all == {};
    } else {
      var last := order[|order| - 1];
      assert order == order[..|order| - 1] + [last];
      EnumeratedCount(order[..|order| - 1], all - {last});
    }
  }

  lemma {:induction false} SomeOrder(all: set<nat>) returns (order: seq<nat>)
    ensures Enumerates(order, all)
    decreases all
  {
    order := [];
    if all != {} {
      var id :| id in all;
      var rest := SomeOrder(all - {id});
      order := [id] + rest;
    }
  }

  /** At most `n` numbers lie below `n`, and if there are `n` of them they are all. */
  lemma {:induction false} FullRange(all: set<nat>, n: nat)
    requires forall id :: id in all ==> id < n
    ensures |all| <= n && (|all| == n ==> forall id: nat :: id < n ==> id in all)
  {
    if n == 0 {
      assert all == {};
    } else {
      FullRange(all - {n - 1}, n - 1);
      assert n - 1 !in all ==> all - {n - 1} == all;
    }
  }

  lemma OrderOfRange(order: seq<nat>, all: set<nat>)
    requires Enumerates(order, all)
    ensures |order| == |all|
    ensures (forall id :: id in all ==> id < |order|) <==> (forall id: nat :: id in all <==> id < |order|)
    ensures (forall i :: 0 <= i < |order| ==> order[i] == i) ==> forall id: nat :: id in all <==> id < |order|
  {
    EnumeratedCount(order, all);
    if forall id :: id in all ==> id < |order| {
      FullRange(all, |order|);
    }
    assert forall i :: 0 <= i < |order| ==> order[i] in order && order[i] in all;
  }

  lemma OrderOfOne(order: seq<nat>, all: set<nat>)
    requires Enumerates(order, all) && all <= {0}
    ensures forall i :: 0 <= i < |order| ==> order[i] == i
  {
    forall i | 0 <= i < |order| ensures order[i] == i {
      assert order[0] in order && order[i] in order;
    }
  }

  lemma NumbersBack(players: seq<PlayerRepr>, order: seq<nat>)
    requires Numbered(players, order)
    ensures IdsAreKeys(DogsBack(players)) <==> forall i :: 0 <= i < |order| ==> order[i] == i
    ensures forall id: nat :: id in DogsBack(players).Keys <==> id < |order|
  {
    if IdsAreKeys(DogsBack(players)) {
      forall i | 0 <= i < |order| ensures order[i] == i {
        assert i in DogsBack(players);
      }
    }
  }

  lemma CoveredIff(all: set<nat>, back: set<nat>, order: seq<nat>)
    requires Enumerates(order, all) && forall id: nat :: id in back <==> id < |order|
    ensures all <= back <==> NoGap(all)
  {
    OrderOfRange(order, all);
  }

  lemma KeysByOrder(dogs: map<nat, DogState>, players: seq<PlayerRepr>, order: seq<nat>)
    requires Enumerates(order, dogs.Keys) && Numbered(players, order)
    ensures dogs.Keys <= DogsBack(players).Keys <==> NoGap(dogs.Keys)
    ensures IdsAreKeys(DogsBack(players)) ==> NoGap(dogs.Keys)
    ensures dogs.Keys <= {0} ==> IdsAreKeys(DogsBack(players))
  {
    NumbersBack(players, order);
    CoveredIff(dogs.Keys, DogsBack(players).Keys, order);
    OrderOfRange(order, dogs.Keys);
    if dogs.Keys <= {0} {
      OrderOfOne(order, dogs.Keys);
    }
  }

  lemma SaveKeys(reg: Registry, dogs: map<nat, DogState>, sid: nat, players: seq<PlayerRepr>)
    requires Crewed(reg, dogs, sid) && SavedPlayers(reg, dogs, sid, players)
    ensures dogs.Keys <= DogsBack(players).Keys <==> NoGap(dogs.Keys)
    ensures IdsAreKeys(DogsBack(players)) ==> NoGap(dogs.Keys)
    ensures dogs.Keys <= {0} ==> IdsAreKeys(DogsBack(players))
  {
    var order := SavedDogs(reg, dogs, sid, players);
    KeysByOrder(dogs, players, order);
  }

  /** A restored dog is kept under a number of the new session, and looked up under its own id. Whatever the
      order in which the players are saved, every player finds a dog under the id of its own iff the ids had no
      gap; some order puts every dog under its own id iff they had none, and every order does iff there is no
      dog but number 0. */
  lemma {:induction false} KeysMatchIff(reg: Registry, dogs: map<nat, DogState>, sid: nat)
    requires Crewed(reg, dogs, sid)
    ensures forall players :: SavedPlayers(reg, dogs, sid, players) ==>
      (dogs.Keys <= DogsBack(players).Keys <==> NoGap(dogs.Keys))
    ensures (exists players :: SavedPlayers(reg, dogs, sid, players) && IdsAreKeys(DogsBack(players)))
      <==> NoGap(dogs.Keys)
    ensures (forall players :: SavedPlayers(reg, dogs, sid, players) ==> IdsAreKeys(DogsBack(players)))
      <==> dogs.Keys <= {0}
  {
    forall players | SavedPlayers(reg, dogs, sid, players)
      ensures dogs.Keys <= DogsBack(players).Keys <==> NoGap(dogs.Keys)
      ensures IdsAreKeys(DogsBack(players)) ==> NoGap(dogs.Keys)
      ensures dogs.Keys <= {0} ==> IdsAreKeys(DogsBack(players))
    {
      SaveKeys(reg, dogs, sid, players);
    }
    if NoGap(dogs.Keys) {
      var players := SaveMatching(reg, dogs, sid);
    }
    if id :| id in dogs && id != 0 {
      var players := SaveMismatched(reg, dogs, sid, id);
    }
  }

  lemma IdentityOrder(dogs: map<nat, DogState>) returns (order: seq<nat>)
    requires NoGap(dogs.Keys)
    ensures Enumerates(order, dogs.Keys) && forall i :: 0 <= i < |order| ==> order[i] == i
  {
    order := seq(|dogs|, i requires 0 <= i < |dogs| => i);
    forall id | id in dogs ensures id in order {
      assert order[id] == id;
    }
  }

  lemma SaveMatching(reg: Registry, dogs: map<nat, DogState>, sid: nat) returns (players: seq<PlayerRepr>)
    requires Crewed(reg, dogs, sid) && NoGap(dogs.Keys)
    ensures SavedPlayers(reg, dogs, sid, players) && IdsAreKeys(DogsBack(players))
  {
    var order := IdentityOrder(dogs);
    players := SaveInOrder(reg, dogs, sid, order);
    NumbersBack(players, order);
  }

  lemma OrderFrom(all: set<nat>, id: nat) returns (order: seq<nat>)
    requires id in all
    ensures Enumerates(order, all) && order != [] && order[0] == id
  {
    var rest := SomeOrder(all - {id});
    order := [id] + rest;
  }

  /** The save that starts with this dog puts it under number 0. */
  lemma SaveMismatched(reg: Registry, dogs: map<nat, DogState>, sid: nat, id: nat) returns (players: seq<PlayerRepr>)
    requires Crewed(reg, dogs, sid) && id in dogs && id != 0
    ensures SavedPlayers(reg, dogs, sid, players) && !IdsAreKeys(DogsBack(players))
  {
    var order := OrderFrom(dogs.Keys, id);
    players := SaveInOrder(reg, dogs, sid, order);
    NumbersBack(players, order);
  }

  /* ---- commands ---- */

  datatype Arrival = Arrival(name: string, spawn: Vec)

  /** Newcomers join the restored session. */
  function AllJoined(m: MapInfo, s: SessionState, arrivals: seq<Arrival>): SessionState {
    if arrivals == [] then s
    else
      var last := arrivals[|arrivals| - 1];
      Joined(m, AllJoined(m, s, arrivals[..|arrivals| - 1]), last.name, last.spawn)
  }

  /** The newcomers are numbered on, and nobody else changes. */
  ghost predicate Follow(m: MapInfo, s: SessionState, arrivals: seq<Arrival>, r: SessionState) {
    var n := s.nextDog;
    && r.nextDog == n + |arrivals|
    && (forall id: nat :: id in r.board.dogs <==> id < n + |arrivals|)
    && (forall id :: id in s.board.dogs && id < n ==> id in r.board.dogs && r.board.dogs[id] == s.board.dogs[id])
    && forall i :: 0 <= i < |arrivals| ==> NewcomerAt(m, r, n + i, arrivals[i])
  }

  predicate NewcomerAt(m: MapInfo, r: SessionState, id: nat, a: Arrival) {
    id in r.board.dogs && r.board.dogs[id] == NewDog(id, a.name, a.spawn, m.bagCapacity)
  }

  lemma OneMoreFollows(m: MapInfo, s: SessionState, arrivals: seq<Arrival>, a: Arrival, r: SessionState)
    requires Follow(m, s, arrivals, r)
    ensures Follow(m, s, arrivals + [a], Joined(m, r, a.name, a.spawn))
  {
  }

  lemma {:induction false} NewcomersFollow(m: MapInfo, s: SessionState, arrivals: seq<Arrival>)
    requires forall id: nat :: id in s.board.dogs <==> id < s.nextDog
    ensures Follow(m, s, arrivals, AllJoined(m, s, arrivals))
  {
    if arrivals != [] {
      var init, last := arrivals[..|arrivals| - 1], arrivals[|arrivals| - 1];
      NewcomersFollow(m, s, init);
      OneMoreFollows(m, s, init, last, AllJoined(m, s, init));
      assert init + [last] == arrivals;
    }
  }

  /** Number `k` is the own dog of player `k`: the dog that had this id before. */
  predicate OwnDogAt(dogs: map<nat, DogState>, r: SessionState, k: nat)
    requires k in dogs
  {
    k in r.board.dogs && r.board.dogs[k] == Reloaded(dogs[k])
  }

  /** Whom dog id `k` steers: nobody, if it is not a number yet; a newcomer, if it is the number of one; else the dog
      that came back under it, which is the player's own iff the save put it there. */
  predicate SteeredAs(m: MapInfo, dogs: map<nat, DogState>, order: seq<nat>, arrivals: seq<Arrival>, r: SessionState,
                      k: nat, outcome: Result<SessionState, string>) {
    && (outcome == Err("Invalid dog id") <==> |order| + |arrivals| <= k)
    && (|order| <= k < |order| + |arrivals| ==> NewcomerAt(m, r, k, arrivals[k - |order|]))
    && (k < |order| ==> k in r.board.dogs && order[k] in dogs && r.board.dogs[k] == Reloaded(dogs[order[k]]))
    && (k in dogs ==> (OwnDogAt(dogs, r, k) <==> k < |order| && order[k] == k))
  }

  lemma SteeredByNumber(m: MapInfo, dogs: map<nat, DogState>, order: seq<nat>, s: SessionState,
                        arrivals: seq<Arrival>, r: SessionState, k: nat, direction: Option<Direction>)
    requires Renumbered(order, dogs, s.board.dogs) && s.nextDog == |order| && IdsAreKeys(dogs)
    requires Follow(m, s, arrivals, r)
    ensures SteeredAs(m, dogs, order, arrivals, r, k, Directed(m, r, k, direction))
  {
    assert k < |order| ==> order[k] in order && order[k] in dogs && k in s.board.dogs;
    if |order| <= k < |order| + |arrivals| {
      assert NewcomerAt(m, r, |order| + (k - |order|), arrivals[k - |order|]);
    }
  }

  /** The order of the dogs after a restore. */
  lemma OrderBack(reg: Registry, dogs: map<nat, DogState>, sid: nat, players: seq<PlayerRepr>) returns (order: seq<nat>)
    requires Crewed(reg, dogs, sid) && SavedPlayers(reg, dogs, sid, players)
    ensures Renumbered(order, dogs, DogsBack(players)) && |order| == |players| && Enumerates(order, dogs.Keys)
  {
    order := DogsComeBack(reg, dogs, sid, players);
    CountsAgree(DogsBack(players), |order|, |players|);
  }

  /** Whom the player of dog `k` steers in a restored session that others have joined since. */
  lemma WhoIsSteered(m: MapInfo, reg: Registry, dogs: map<nat, DogState>, sid: nat, players: seq<PlayerRepr>,
                     s: SessionState, arrivals: seq<Arrival>, k: nat, direction: Option<Direction>)
    returns (order: seq<nat>)
    requires Crewed(reg, dogs, sid) && SavedPlayers(reg, dogs, sid, players)
    requires s.board.dogs == DogsBack(players) && s.nextDog == |players|
    ensures Enumerates(order, dogs.Keys)
    ensures var r := AllJoined(m, s, arrivals);
      SteeredAs(m, dogs, order, arrivals, r, k, Directed(m, r, k, direction))
  {
    order := OrderBack(reg, dogs, sid, players);
    NewcomersFollow(m, s, arrivals);
    SteeredByNumber(m, dogs, order, s, arrivals, AllJoined(m, s, arrivals), k, direction);
  }

  lemma OnlyOne(order: seq<nat>, dogs: map<nat, DogState>, back: map<nat, DogState>)
    requires Renumbered(order, dogs, back) && dogs.Keys == {1}
    ensures order == [1] && back == map[0 := Reloaded(dogs[1])]
  {
    EnumeratedCount(order, dogs.Keys);
    assert order[0] in order;
  }

  /** The least case: when dog 0 has retired and dog 1 has not, every restore puts dog 1 under number 0, and its
      player can no longer steer it. */
  lemma LostSteering(m: MapInfo, reg: Registry, dogs: map<nat, DogState>, sid: nat, players: seq<PlayerRepr>,
                     s: SessionState, direction: Option<Direction>)
    requires Crewed(reg, dogs, sid) && SavedPlayers(reg, dogs, sid, players) && dogs.Keys == {1}
    requires s.board.dogs == DogsBack(players) && s.nextDog == |players|
    ensures s.board.dogs == map[0 := Reloaded(dogs[1])] && s.nextDog == 1
    ensures Directed(m, s, 1, direction) == Err("Invalid dog id")
  {
    var order := OrderBack(reg, dogs, sid, players);
    OnlyOne(order, dogs, s.board.dogs);
  }

  lemma SteersNewcomer(m: MapInfo, s: SessionState, d: DogState, name: string, spawn: Vec, direction: Option<Direction>)
    requires s.board.dogs == map[0 := d] && s.nextDog == 1
    ensures var r := Directed(m, Joined(m, s, name, spawn), 1, direction);
      r.Ok? && r.value.board.dogs
        == map[0 := d, 1 := Commanded(NewDog(1, name, spawn, m.bagCapacity), direction, m.dogSpeed)]
  {
  }

  /** From the next join on that player steers the newcomer. */
  lemma WrongDog(m: MapInfo, reg: Registry, dogs: map<nat, DogState>, sid: nat, players: seq<PlayerRepr>,
                 s: SessionState, name: string, spawn: Vec, direction: Option<Direction>)
    requires Crewed(reg, dogs, sid) && SavedPlayers(reg, dogs, sid, players) && dogs.Keys == {1}
    requires s.board.dogs == DogsBack(players) && s.nextDog == |players|
    ensures var r := Directed(m, Joined(m, s, name, spawn), 1, direction);
      r.Ok? && r.value.board.dogs
        == map[0 := Reloaded(dogs[1]), 1 := Commanded(NewDog(1, name, spawn, m.bagCapacity), direction, m.dogSpeed)]
  {
    LostSteering(m, reg, dogs, sid, players, s, direction);
    SteersNewcomer(m, s, Reloaded(dogs[1]), name, spawn, direction);
  }

  /* ---- the event loop ---- */

  /** The loop looks the dog of a gatherer up under the dog's own id; `keys` is the order in which the map was
      walked for the gatherers. */
  function OwnIds(dogs: map<nat, DogState>, keys: seq<nat>): (r: seq<nat>)
    requires forall k :: k in keys ==> k in dogs
    ensures |r| == |keys|
  {
    seq(|keys|, i requires 0 <= i < |keys| => dogs[keys[i]].id)
  }

  predicate LookupsFind(dogs: map<nat, DogState>, ids: seq<nat>, events: seq<GatheringEvent>) {
    forall i :: 0 <= i < |events| && events[i].gatherer < |ids| ==> ids[events[i].gatherer] in dogs
  }

  /** What is found is the dog that gathers. */
  predicate LookupsRight(keys: seq<nat>, ids: seq<nat>, events: seq<GatheringEvent>)
    requires |keys| == |ids|
  {
    forall i :: 0 <= i < |events| && events[i].gatherer < |ids| ==> ids[events[i].gatherer] == keys[events[i].gatherer]
  }

  lemma LoopFindsIff(dogs: map<nat, DogState>, ids: seq<nat>)
    ensures (forall events :: LookupsFind(dogs, ids, events)) <==> forall i :: 0 <= i < |ids| ==> ids[i] in dogs
  {
    forall i | 0 <= i < |ids| && ids[i] !in dogs ensures exists events :: !LookupsFind(dogs, ids, events) {
      var e := GatheringEvent(0, i, 0.0, 0.0);
      assert [e][0].gatherer == i;
      assert !LookupsFind(dogs, ids, [e]);
    }
  }

  lemma LoopRightIff(keys: seq<nat>, ids: seq<nat>)
    requires |keys| == |ids|
    ensures (forall events :: LookupsRight(keys, ids, events)) <==> keys == ids
  {
    forall i | 0 <= i < |ids| && ids[i] != keys[i] ensures exists events :: !LookupsRight(keys, ids, events) {
      var e := GatheringEvent(0, i, 0.0, 0.0);
      assert [e][0].gatherer == i;
      assert !LookupsRight(keys, ids, [e]);
    }
  }

  function OwnIdSet(back: map<nat, DogState>): set<nat> { set k | k in back :: back[k].id }

  lemma OwnIdsBack(order: seq<nat>, dogs: map<nat, DogState>, back: map<nat, DogState>)
    requires Renumbered(order, dogs, back) && IdsAreKeys(dogs)
    ensures OwnIdSet(back) == dogs.Keys
  {
    assert forall i :: 0 <= i < |order| ==> order[i] in order && order[i] in dogs;
    forall id | id in dogs ensures id in OwnIdSet(back) {
      var i :| 0 <= i < |order| && order[i] == id;
      assert i in back && back[i].id == id;
    }
  }

  /** The dogs of a restored session have the ids they had, and so its players match them. */
  lemma PlayersMatchOwnIds(reg: Registry, dogs: map<nat, DogState>, sid: nat, players: seq<PlayerRepr>)
    requires Crewed(reg, dogs, sid) && SavedPlayers(reg, dogs, sid, players)
    ensures OwnIdSet(DogsBack(players)) == dogs.Keys
    ensures DogsMatch(PlayersOf(reg, sid), OwnIdSet(DogsBack(players)))
  {
    var order := OrderBack(reg, dogs, sid, players);
    OwnIdsBack(order, dogs, DogsBack(players));
  }

  lemma OwnIdsListed(back: map<nat, DogState>, keys: seq<nat>)
    requires Enumerates(keys, back.Keys)
    ensures forall id :: id in OwnIds(back, keys) <==> id in OwnIdSet(back)
  {
    forall id | id in OwnIdSet(back) ensures id in OwnIds(back, keys) {
      var k :| k in back && back[k].id == id;
      assert k in keys;
      var j :| 0 <= j < |keys| && keys[j] == k;
      assert OwnIds(back, keys)[j] == id;
    }
    forall j | 0 <= j < |keys| ensures OwnIds(back, keys)[j] in OwnIdSet(back) {
      assert keys[j] in keys;
    }
  }

  lemma AllFoundIff(ids: seq<nat>, saved: set<nat>, back: map<nat, DogState>)
    requires forall id :: id in ids <==> id in saved
    ensures (forall i :: 0 <= i < |ids| ==> ids[i] in back) <==> saved <= back.Keys
  {
    if forall i :: 0 <= i < |ids| ==> ids[i] in back {
      assert forall id :: id in saved ==> id in ids;
    }
  }

  lemma OwnIdsAreKeysIff(back: map<nat, DogState>, keys: seq<nat>)
    requires Enumerates(keys, back.Keys)
    ensures keys == OwnIds(back, keys) <==> IdsAreKeys(back)
  {
    forall k | k in back ensures exists i :: 0 <= i < |keys| && keys[i] == k {
      assert k in keys;
    }
    assert forall i :: 0 <= i < |keys| ==> keys[i] in keys;
  }

  /** After a restore the loop finds a dog for every event iff the saved ids had no gap, and else dereferences an
      entry that is missing; it finds the right dog for every event iff each dog is under its own id. */
  lemma LoopAfterRestore(reg: Registry, dogs: map<nat, DogState>, sid: nat, players: seq<PlayerRepr>, keys: seq<nat>)
    requires Crewed(reg, dogs, sid) && SavedPlayers(reg, dogs, sid, players)
    requires Enumerates(keys, DogsBack(players).Keys)
    ensures (forall events :: LookupsFind(DogsBack(players), OwnIds(DogsBack(players), keys), events))
      <==> NoGap(dogs.Keys)
    ensures (forall events :: LookupsRight(keys, OwnIds(DogsBack(players), keys), events))
      <==> IdsAreKeys(DogsBack(players))
  {
    var back, ids := DogsBack(players), OwnIds(DogsBack(players), keys);
    SaveKeys(reg, dogs, sid, players);
    PlayersMatchOwnIds(reg, dogs, sid, players);
    OwnIdsListed(back, keys);
    AllFoundIff(ids, dogs.Keys, back);
    LoopFindsIff(back, ids);
    OwnIdsAreKeysIff(back, keys);
    LoopRightIff(keys, ids);
  }

  /* ---- the removal of players ---- */

  /** The dog of this id is among those left, under whatever number. */
  predicate DogLeft(back: map<nat, DogState>, left: set<nat>, dog: nat) {
    exists k :: k in left && k in back && back[k].id == dog
  }

  /** The cleanup after a tick that left these entries keeps exactly the players whose dog is left. */
  ghost predicate CleansRightly(r: Registry, sid: nat, back: map<nat, DogState>, left: set<nat>)
    requires sid in r.players
  {
    forall p :: Registered(r, p) && p.session == sid ==>
      (Registered(Cleaned(r, sid, left), p) <==> DogLeft(back, left, p.dog))
  }

  lemma KeptIff(r: Registry, c: Registry, sid: nat, back: map<nat, DogState>, left: set<nat>)
    requires forall p :: Registered(c, p) <==> Registered(r, p) && (p.session != sid || p.dog in left)
    ensures (forall p :: Registered(r, p) && p.session == sid ==> (Registered(c, p) <==> DogLeft(back, left, p.dog)))
      <==> forall p :: Registered(r, p) && p.session == sid ==> (p.dog in left <==> DogLeft(back, left, p.dog))
  {
  }

  lemma CleansRightlyIff(r: Registry, sid: nat, back: map<nat, DogState>, left: set<nat>)
    requires Consistent(r) && sid in r.players
    ensures CleansRightly(r, sid, back, left) <==>
      forall p :: Registered(r, p) && p.session == sid ==> (p.dog in left <==> DogLeft(back, left, p.dog))
  {
    CleanedPlayers(r, sid, left);
    KeptIff(r, Cleaned(r, sid, left), sid, back, left);
  }

  lemma CleansRight(r: Registry, sid: nat, back: map<nat, DogState>, left: set<nat>)
    requires Consistent(r) && sid in r.players && left <= back.Keys && IdsAreKeys(back)
    ensures CleansRightly(r, sid, back, left)
  {
    CleansRightlyIff(r, sid, back, left);
    assert forall k :: k in left ==> k in back && back[k].id == k;
  }

  lemma OwnerOfDog(r: Registry, sid: nat, dog: nat, dogs: set<nat>) returns (p: Player)
    requires PlayersOk(r) && sid in r.players && DogsMatch(PlayersOf(r, sid), dogs) && dog in dogs
    ensures Registered(r, p) && p.session == sid && p.dog == dog
  {
    var id :| id in PlayersOf(r, sid) && PlayersOf(r, sid)[id].dog == dog;
    p := r.players[sid][id];
  }

  lemma CleansWrong(r: Registry, sid: nat, back: map<nat, DogState>, k: nat)
    requires Consistent(r) && sid in r.players && k in back && back[k].id != k
    requires DogsMatch(PlayersOf(r, sid), OwnIdSet(back))
    ensures !CleansRightly(r, sid, back, {k})
  {
    assert back[k].id in OwnIdSet(back);
    var p := OwnerOfDog(r, sid, back[k].id, OwnIdSet(back));
    CleansRightlyIff(r, sid, back, {k});
    assert DogLeft(back, {k}, p.dog);
  }

  lemma SomeCleanupWrong(r: Registry, sid: nat, back: map<nat, DogState>)
    requires Consistent(r) && sid in r.players && DogsMatch(PlayersOf(r, sid), OwnIdSet(back)) && !IdsAreKeys(back)
    ensures exists left :: left <= back.Keys && !CleansRightly(r, sid, back, left)
  {
    var k :| k in back && back[k].id != k;
    CleansWrong(r, sid, back, k);
    assert {k} <= back.Keys;
  }

  lemma AllCleanupsRight(r: Registry, sid: nat, back: map<nat, DogState>)
    requires Consistent(r) && sid in r.players && IdsAreKeys(back)
    ensures forall left :: left <= back.Keys ==> CleansRightly(r, sid, back, left)
  {
    forall left | left <= back.Keys ensures CleansRightly(r, sid, back, left) {
      CleansRight(r, sid, back, left);
    }
  }

  /** After a restore the cleanup removes the right players, whatever retires, iff each dog is under its own id. */
  lemma CleanupAfterRestore(r: Registry, sid: nat, back: map<nat, DogState>)
    requires Consistent(r) && sid in r.players && DogsMatch(PlayersOf(r, sid), OwnIdSet(back))
    ensures (forall left :: left <= back.Keys ==> CleansRightly(r, sid, back, left)) <==> IdsAreKeys(back)
  {
    if IdsAreKeys(back) {
      AllCleanupsRight(r, sid, back);
    } else {
      SomeCleanupWrong(r, sid, back);
    }
  }

  /* ---- what runs keep ---- */

  predicate LootIsKeys(lost: map<nat, LostObject>) { forall oid :: oid in lost ==> lost[oid].id == oid }

  predicate BagsEmpty(dogs: map<nat, DogState>) { forall id :: id in dogs ==> dogs[id].bag == [] }

  lemma {:induction false} BackFine(m: MapInfo, saved: SessionState, s: SessionState, order: seq<nat>)
    requires Inv(m, saved) && Renumbered(order, saved.board.dogs, s.board.dogs) && s.nextDog == |order|
    requires IdsAreKeys(s.board.dogs) && BagsEmpty(s.board.dogs)
    ensures forall id :: id in s.board.dogs ==>
      DogFine(m, s.board.dogs[id], id, s.nextDog, s.nextLost) && DogOk(s.board.dogs[id])
  {
    forall id | id in s.board.dogs
      ensures DogFine(m, s.board.dogs[id], id, s.nextDog, s.nextLost) && DogOk(s.board.dogs[id])
    {
      assert order[id] in order;
      var d := saved.board.dogs[order[id]];
      assert DogFine(m, d, order[id], saved.nextDog, saved.nextLost);
    }
  }

  lemma LootBackFine(m: MapInfo, saved: SessionState, s: SessionState, order: seq<nat>)
    requires Inv(m, saved) && LostRenumbered(order, saved.board.lost, s.board.lost) && s.nextLost == |order|
    ensures forall oid :: oid in s.board.lost ==> LootFine(m, s.board.lost[oid], oid, s.nextLost)
  {
    forall oid | oid in s.board.lost ensures LootFine(m, s.board.lost[oid], oid, s.nextLost) {
      assert order[oid] in order;
      assert LootFine(m, saved.board.lost[order[oid]], order[oid], saved.nextLost);
    }
  }

  lemma FirstNumbers(order: seq<nat>, lost: map<nat, LostObject>, back: map<nat, LostObject>)
    requires LostRenumbered(order, lost, back) && LootIsKeys(lost) && LootIsKeys(back)
    ensures forall i: nat :: i < |order| ==> i in lost
  {
    forall i: nat | i < |order| ensures i in lost {
      assert order[i] in order && back[i].id == order[i];
    }
  }

  /** What is in a bag has a number that no object on the map has; so if the map's objects have the first numbers,
      the session's counter is not past it. */
  lemma BaggedIsPast(m: MapInfo, saved: SessionState, s: SessionState, dogOrder: seq<nat>, lootOrder: seq<nat>, id: nat)
    requires Inv(m, saved) && Renumbered(dogOrder, saved.board.dogs, s.board.dogs)
    requires LostRenumbered(lootOrder, saved.board.lost, s.board.lost) && s.nextLost == |lootOrder|
    requires LootIsKeys(s.board.lost) && id in s.board.dogs && s.board.dogs[id].bag != []
    ensures !DogFine(m, s.board.dogs[id], id, s.nextDog, s.nextLost)
  {
    assert dogOrder[id] in dogOrder;
    var item := saved.board.dogs[dogOrder[id]].bag[0];
    assert item == s.board.dogs[id].bag[0] && item.id !in saved.board.lost;
    FirstNumbers(lootOrder, saved.board.lost, s.board.lost);
  }

  lemma {:induction false} BackInv(m: MapInfo, saved: SessionState, s: SessionState, dogOrder: seq<nat>,
                                   lootOrder: seq<nat>)
    requires Inv(m, saved) && Renumbered(dogOrder, saved.board.dogs, s.board.dogs) && s.nextDog == |dogOrder|
    requires LostRenumbered(lootOrder, saved.board.lost, s.board.lost) && s.nextLost == |lootOrder|
    requires IdsAreKeys(s.board.dogs) && LootIsKeys(s.board.lost) && BagsEmpty(s.board.dogs)
    ensures Inv(m, s)
  {
    BackFine(m, saved, s, dogOrder);
    LootBackFine(m, saved, s, lootOrder);
  }

  lemma {:induction false} InvBack(m: MapInfo, saved: SessionState, s: SessionState, dogOrder: seq<nat>,
                                   lootOrder: seq<nat>)
    requires Inv(m, saved) && Renumbered(dogOrder, saved.board.dogs, s.board.dogs)
    requires LostRenumbered(lootOrder, saved.board.lost, s.board.lost) && s.nextLost == |lootOrder|
    requires Inv(m, s)
    ensures IdsAreKeys(s.board.dogs) && LootIsKeys(s.board.lost) && BagsEmpty(s.board.dogs)
  {
    forall id | id in s.board.dogs ensures s.board.dogs[id].id == id && s.board.dogs[id].bag == [] {
      assert DogFine(m, s.board.dogs[id], id, s.nextDog, s.nextLost);
      if s.board.dogs[id].bag != [] {
        BaggedIsPast(m, saved, s, dogOrder, lootOrder, id);
      }
    }
  }

  /** A restored session is one that a run could have reached, as far as the invariant of all runs tells, iff dogs
      and loot are under their own ids and no dog carries anything. */
  lemma RestoredInvIff(m: MapInfo, saved: SessionState, s: SessionState)
    requires Inv(m, saved) && SessionBack(saved.board, s)
    ensures Inv(m, s) <==> IdsAreKeys(s.board.dogs) && LootIsKeys(s.board.lost) && BagsEmpty(s.board.dogs)
  {
    var dogOrder :| Renumbered(dogOrder, saved.board.dogs, s.board.dogs) && s.nextDog == |dogOrder|;
    var lootOrder :| LostRenumbered(lootOrder, saved.board.lost, s.board.lost) && s.nextLost == |lootOrder|;
    if IdsAreKeys(s.board.dogs) && LootIsKeys(s.board.lost) && BagsEmpty(s.board.dogs) {
      BackInv(m, saved, s, dogOrder, lootOrder);
    } else if Inv(m, s) {
      InvBack(m, saved, s, dogOrder, lootOrder);
    }
  }

  lemma StepAtKeeps(m: MapInfo, ix: Index, limit: nat, actions: seq<Action>, trace: seq<SessionState>, i: nat)
    requires Represents(ix, m.roads) && StepAt(m, ix, limit, actions, trace, i) && Inv(m, trace[i])
    ensures Inv(m, trace[i + 1])
  {
    StepKeeps(m, ix, limit, trace[i], actions[i], trace[i + 1]);
  }

  /** A run that starts in some state. */
  ghost predicate IsRunFrom(m: MapInfo, ix: Index, limit: nat, start: SessionState, actions: seq<Action>,
                            trace: seq<SessionState>) {
    && |trace| == |actions| + 1 && trace[0] == start
    && forall i {:trigger StepAt(m, ix, limit, actions, trace, i)} ::
      0 <= i < |actions| ==> StepAt(m, ix, limit, actions, trace, i)
  }

  /** Then every further step keeps the invariant, as in a session built since the start. */
  lemma {:induction false} RestoredRunKeeps(m: MapInfo, ix: Index, limit: nat, s: SessionState, actions: seq<Action>,
                                            trace: seq<SessionState>, i: nat)
    requires Represents(ix, m.roads) && Inv(m, s) && IsRunFrom(m, ix, limit, s, actions, trace) && i < |trace|
    ensures Inv(m, trace[i])
  {
    if i > 0 {
      RestoredRunKeeps(m, ix, limit, s, actions, trace, i - 1);
      StepAtKeeps(m, ix, limit, actions, trace, i - 1);
    }
  }
}
