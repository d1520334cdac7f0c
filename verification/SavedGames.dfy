/** Saving a game into records, and building a game from records. */
module SavedGames {
  import opened Wrappers
  import opened Geometry
  import opened Movement
  import opened RoadIndices
  import opened CollisionDetector
  import opened Dogs
  import opened Gathering
  import opened Sessions
  import opened Registries
  import opened ApplicationRuns
  import opened Serialization

  /* ---- dogs ---- */

  /** `DogRepr` of a dog. */
  function ReprOf(d: DogState): DogRepr {
    DogRepr(d.id, d.name, d.body.pos, d.bagCapacity, d.body.speed, d.direction, d.score, d.bag)
  }

  /** The same, of the object. */
  function ReprOfDog(dog: Dog): (r: DogRepr)
    reads dog
    ensures r == ReprOf(dog.State())
  {
    DogRepr(dog.id, dog.name, dog.position, dog.bagCapacity, dog.speed, dog.direction, dog.score, dog.bag)
  }

  const BAG_FULL := "Failed to put bag content"

  /** The loop that puts the bag back. */
  function Refilled(d: DogState, bag: seq<FoundObject>): Result<DogState, string> {
    if bag == [] then Ok(d)
    else
      match Refilled(d, bag[..|bag| - 1])
      case Err(e) => Err(e)
      case Ok(r) => if Full(r) then Err(BAG_FULL) else Ok(Bagged(r, bag[|bag| - 1]))
  }

  /** The dog before its bag is put back. */
  function Unpacked(r: DogRepr): DogState {
    WithSpeed(NewDog(r.id, r.name, r.pos, r.bagCapacity), r.speed).(direction := r.direction, score := r.score)
  }

  /** `DogRepr::Restore`. */
  function RestoredDog(r: DogRepr): Result<DogState, string> { Refilled(Unpacked(r), r.bag) }

  lemma {:induction false} RefillExact(d: DogState, bag: seq<FoundObject>)
    requires d.bag == []
    ensures Refilled(d, bag) == if |bag| <= d.bagCapacity then Ok(d.(bag := bag)) else Err(BAG_FULL)
  {
    if bag != [] {
      RefillExact(d, bag[..|bag| - 1]);
      assert bag[..|bag| - 1] + [bag[|bag| - 1]] == bag;
    } else {
      assert d.(bag := []) == d;
    }
  }

  /** What of a dog comes back: all but the gatherer, which the next move sets, and the two clocks; and
      a dog that has not moved yet comes back at rest. */
  function Reloaded(d: DogState): DogState {
    d.(gatherer := Gatherer(ZERO, ZERO, DOG_WIDTH), inactive := 0, live := 0, active := d.body.speed != ZERO)
  }

  /** A saved dog comes back iff its bag was within capacity, which every run keeps. */
  lemma DogComesBack(d: DogState)
    ensures RestoredDog(ReprOf(d)) == if |d.bag| <= d.bagCapacity then Ok(Reloaded(d)) else Err(BAG_FULL)
  {
    RefillExact(Unpacked(ReprOf(d)), d.bag);
  }

  /** And what comes back would be saved as the same record again. */
  lemma ReloadedIsSavedAgain(d: DogState)
    ensures ReprOf(Reloaded(d)) == ReprOf(d) && Reloaded(Reloaded(d)) == Reloaded(d)
  {
  }

  /** All but the two clocks, the activity flag and the place of the gatherer. */
  predicate SameButClocks(a: DogState, b: DogState) {
    && a.gatherer.width == b.gatherer.width
    && a.(gatherer := b.gatherer, inactive := b.inactive, live := b.live, active := b.active) == b
  }

  /** A restored dog goes on as it would have: whatever commands and ticks follow, it is the same dog at the same place
      with the same bag and score, gathers the same from its first tick on, and has lost the time it had lived. */
  lemma {:induction false} RestoredDogGoesOn(ix: Index, d: DogState, dogSpeed: real, inputs: seq<Input>)
    requires d.gatherer.width == DOG_WIDTH
    ensures var (a, b) := (RunDog(ix, Reloaded(d), dogSpeed, inputs), RunDog(ix, d, dogSpeed, inputs));
      && SameButClocks(a, b) && b.live == a.live + d.live
      && (inputs != [] && inputs[|inputs| - 1].Tick? && b.direction != Stop ==> a.gatherer == b.gatherer)
    decreases |inputs|
  {
    if inputs != [] {
      var init, last := inputs[..|inputs| - 1], inputs[|inputs| - 1];
      RestoredDogGoesOn(ix, d, dogSpeed, init);
      StepsAlike(ix, RunDog(ix, Reloaded(d), dogSpeed, init), RunDog(ix, d, dogSpeed, init), dogSpeed, last);
    }
  }

  lemma StepsAlike(ix: Index, a: DogState, b: DogState, dogSpeed: real, input: Input)
    requires SameButClocks(a, b)
    ensures var (p, q) := (StepDog(ix, a, dogSpeed, input), StepDog(ix, b, dogSpeed, input));
      && SameButClocks(p, q) && q.live - p.live == b.live - a.live
      && (input.Tick? && q.direction != Stop ==> p.gatherer == q.gatherer)
  {
  }

  /** The restore on objects. */
  method RestoreDog(r: DogRepr) returns (res: Result<Dog, string>)
    ensures match res
      case Ok(dog) => fresh(dog) && RestoredDog(r) == Ok(dog.State())
      case Err(e) => RestoredDog(r) == Err(e)
  {
    var dog := new Dog(r.id, r.name, r.pos, r.bagCapacity);
    dog.SetSpeed(r.speed);
    dog.SetDirection(r.direction);
    dog.SetScore(r.score);
    RefillExact(Unpacked(r), r.bag);
    for i := 0 to |r.bag|
      invariant fresh(dog) && Refilled(Unpacked(r), r.bag[..i]) == Ok(dog.State())
    {
      RefillExact(Unpacked(r), r.bag[..i]);
      assert r.bag[..i + 1][..i] == r.bag[..i];
      var ok := dog.AddItemToBag(r.bag[i]);
      if !ok {
        return Err(BAG_FULL);
      }
    }
    assert r.bag[..|r.bag|] == r.bag;
    res := Ok(dog);
  }

  /* ---- sessions ---- */

  /** The loop over the players of a session. */
  function RestoredPlayers(reg: Registry, sid: nat, players: seq<PlayerRepr>): Result<(Registry, SessionState),
                           string> {
    if players == [] then Ok((reg, FRESH))
    else
      var p := players[|players| - 1];
      match RestoredPlayers(reg, sid, players[..|players| - 1])
      case Err(e) => Err(e)
      case Ok((r, s)) =>
        match RestoredDog(p.dog)
        case Err(e) => Err(e)
        case Ok(d) => Ok((Readmitted(r, Player(p.id, sid, d.id), p.token), WithDog(s, d)))
  }

  function RestoredLost(s: SessionState, lost: seq<LostObject>): SessionState {
    if lost == [] then s else WithLost(RestoredLost(s, lost[..|lost| - 1]), lost[|lost| - 1])
  }

  /** One session: its players, its loot, and then its place in the list. */
  function RestoredSession(reg: Registry, repr: SessionRepr): Result<(Registry, SessionState), string> {
    match RestoredPlayers(reg, repr.id, repr.players)
    case Err(e) => Err(e)
    case Ok((r, s)) =>
      var next := if repr.id >= r.nextSession then repr.id + 1 else r.nextSession;
      Ok((Recorded(r.(nextSession := next), Listed(repr.id, repr.mapId)), RestoredLost(s, repr.lost)))
  }

  /** `RestoreGame`, from the records on. */
  function RestoredGame(reg: Registry, game: seq<SessionRepr>): Result<(Registry, map<nat, SessionState>), string> {
    if game == [] then Ok((reg, map[]))
    else
      var last := game[|game| - 1];
      match RestoredGame(reg, game[..|game| - 1])
      case Err(e) => Err(e)
      case Ok((r, sessions)) =>
        match RestoredSession(r, last)
        case Err(e) => Err(e)
        case Ok((r2, s)) => Ok((r2, sessions[last.id := s]))
  }

  /* ---- what a save holds ---- */

  /** The players of a session, each once and in any order, with their dogs and tokens. */
  ghost predicate SavedPlayers(reg: Registry, dogs: map<nat, DogState>, sid: nat, players: seq<PlayerRepr>) {
    && SomeSaved(reg, dogs, sid, players)
    && (forall id :: id in PlayersOf(reg, sid) ==> exists i :: 0 <= i < |players| && players[i].id == id)
  }

  predicate SavedPlayer(reg: Registry, dogs: map<nat, DogState>, sid: nat, p: PlayerRepr) {
    && p.id in PlayersOf(reg, sid) && p.id in reg.tokenOf && p.token == reg.tokenOf[p.id]
    && PlayersOf(reg, sid)[p.id].dog in dogs && p.dog == ReprOf(dogs[PlayersOf(reg, sid)[p.id].dog])
  }

  /** The loot of a session, each object once and in any order. */
  ghost predicate SavedLost(lost: map<nat, LostObject>, saved: seq<LostObject>) {
    && (forall i :: 0 <= i < |saved| ==> saved[i].id in lost && lost[saved[i].id] == saved[i])
    && (forall i, j :: 0 <= i < j < |saved| ==> saved[i].id != saved[j].id)
    && (forall oid :: oid in lost ==> lost[oid] in saved)
  }

  ghost predicate SavedSession(reg: Registry, boards: map<nat, Board>, l: Listed, repr: SessionRepr) {
    && repr.id == l.id && repr.mapId == l.mapId && l.id in boards
    && SavedPlayers(reg, boards[l.id].dogs, l.id, repr.players) && SavedLost(boards[l.id].lost, repr.lost)
  }

  /** `SaveGame`: the records of the listed sessions in order. */
  ghost predicate SavedGame(reg: Registry, boards: map<nat, Board>, game: seq<SessionRepr>) {
    && |game| == |reg.listed|
    && forall k :: 0 <= k < |game| ==> SavedSession(reg, boards, reg.listed[k], game[k])
  }

  /** What a game must be to be saved and to come back whole; every run keeps all of it. */
  ghost predicate Savable(reg: Registry, boards: map<nat, Board>) {
    && Consistent(reg)
    && forall k :: 0 <= k < |reg.listed| ==> reg.listed[k].id in boards && SessionSavable(reg, boards, reg.listed[k].id)
  }

  ghost predicate SessionSavable(reg: Registry, boards: map<nat, Board>, sid: nat)
    requires sid in boards
  {
    && BoardOk(boards[sid]) && DogsMatch(PlayersOf(reg, sid), boards[sid].dogs.Keys)
    && IdsAreKeys(boards[sid].dogs)
  }

  /* ---- the players come back ---- */

  /** The tokens restored so far: exactly those of the given players of the saved registry. */
  ghost predicate TokensPartly(r: Registry, reg: Registry, ids: set<nat>) {
    && (forall t :: t in r.tokens <==> t in reg.tokens && reg.tokens[t].id in ids)
    && (forall t :: t in r.tokens ==> r.tokens[t] == reg.tokens[t])
    && (forall id :: id in r.tokenOf <==> id in reg.tokenOf && id in ids)
    && (forall id :: id in r.tokenOf ==> r.tokenOf[id] == reg.tokenOf[id])
  }

  /** The players restored so far: exactly the given ones of the saved registry. */
  ghost predicate PlayersPartly(r: Registry, reg: Registry, ids: set<nat>) {
    PlayersOk(r) && forall p :: Registered(r, p) <==> Registered(reg, p) && p.id in ids
  }

  ghost predicate Partly(r: Registry, reg: Registry, ids: set<nat>) {
    TokensPartly(r, reg, ids) && PlayersPartly(r, reg, ids)
  }

  lemma AddedRegistered(r: Registry, p: Player)
    requires p.id !in PlayersOf(r, p.session)
    ensures forall q :: Registered(Added(r, p), q) <==> Registered(r, q) || q == p
  {
    assert Added(r, p).players == r.players[p.session := PlayersOf(r, p.session)[p.id := p]];
  }

  lemma NotBackYet(r: Registry, reg: Registry, ids: set<nat>, p: Player)
    requires PlayersPartly(r, reg, ids) && p.id !in ids
    ensures forall s :: s in r.players ==> p.id !in r.players[s]
  {
    forall s, id | s in r.players && id in r.players[s] ensures id != p.id {
      assert Registered(r, r.players[s][id]);
    }
  }

  /** Ids belong to one player. */
  lemma OnePlayerPerId(reg: Registry, p: Player, q: Player)
    requires TokensMatch(reg) && Registered(reg, p) && Registered(reg, q) && p.id == q.id
    ensures p == q
  {
    assert HasToken(reg, p) && HasToken(reg, q);
  }

  lemma OneMoreBack(r: Registry, reg: Registry, ids: set<nat>, p: Player)
    requires TokensMatch(reg) && Partly(r, reg, ids) && Registered(reg, p) && p.id !in ids
    ensures HasToken(reg, p) && Partly(Readmitted(r, p, reg.tokenOf[p.id]), reg, ids + {p.id})
  {
    assert HasToken(reg, p);
    OneMoreToken(r, reg, ids, p);
    OneMorePlayer(r, reg, ids, p);
  }

  lemma OneMorePlayer(r: Registry, reg: Registry, ids: set<nat>, p: Player)
    requires TokensMatch(reg) && PlayersPartly(r, reg, ids) && Registered(reg, p) && p.id !in ids && HasToken(reg, p)
    ensures PlayersPartly(Readmitted(r, p, reg.tokenOf[p.id]), reg, ids + {p.id})
  {
    var n := Readmitted(r, p, reg.tokenOf[p.id]);
    NotBackYet(r, reg, ids, p);
    AddedRegistered(r, p);
    AdmittedPlayers(r, p, n.nextPlayer);
    SamePlayers(Added(r, p).(nextPlayer := n.nextPlayer), n);
    forall q ensures Registered(n, q) <==> Registered(reg, q) && q.id in ids + {p.id} {
      assert Registered(n, q) <==> Registered(Added(r, p), q);
      if Registered(reg, q) && q.id == p.id {
        OnePlayerPerId(reg, p, q);
      }
    }
  }

  lemma SamePlayers(a: Registry, b: Registry)
    requires PlayersOk(a) && a.players == b.players && a.nextPlayer == b.nextPlayer
    ensures PlayersOk(b)
  {
  }

  lemma OneMoreToken(r: Registry, reg: Registry, ids: set<nat>, p: Player)
    requires TokensMatch(reg) && TokensPartly(r, reg, ids) && HasToken(reg, p) && p.id !in ids
    ensures TokensPartly(Readmitted(r, p, reg.tokenOf[p.id]), reg, ids + {p.id})
  {
    var token := reg.tokenOf[p.id];
    var n := Readmitted(r, p, token);
    OneTokenHas(reg, p);
    assert n.tokens == r.tokens[token := p] && n.tokenOf == r.tokenOf[p.id := token];
  }

  lemma OneTokenHas(reg: Registry, p: Player)
    requires TokensMatch(reg) && HasToken(reg, p)
    ensures forall t :: t in reg.tokens ==> (reg.tokens[t].id == p.id <==> t == reg.tokenOf[p.id])
  {
    forall t | t in reg.tokens ensures reg.tokens[t].id == p.id <==> t == reg.tokenOf[p.id] {
      assert TokenOk(reg, t);
    }
  }

  /* ---- a session comes back ---- */

  /** The dog of a record whose bag fits. */
  function Rebuilt(r: DogRepr): DogState { Unpacked(r).(bag := r.bag) }

  predicate BagsFit(players: seq<PlayerRepr>) {
    forall i :: 0 <= i < |players| ==> |players[i].dog.bag| <= players[i].dog.bagCapacity
  }

  /** The dogs as they are numbered anew. */
  function DogsBack(players: seq<PlayerRepr>): map<nat, DogState> {
    map i: nat | i < |players| :: Rebuilt(players[i].dog)
  }

  function LostBack(lost: seq<LostObject>): map<nat, LostObject> { map i: nat | i < |lost| :: lost[i] }

  function AllReadmitted(reg: Registry, sid: nat, players: seq<PlayerRepr>): Registry {
    if players == [] then reg
    else
      var p := players[|players| - 1];
      Readmitted(AllReadmitted(reg, sid, players[..|players| - 1]), Player(p.id, sid, p.dog.id), p.token)
  }

  lemma DogsBackSnoc(players: seq<PlayerRepr>)
    requires players != []
    ensures var (init, p) := (players[..|players| - 1], players[|players| - 1]);
      |init| !in DogsBack(init) && DogsBack(players) == DogsBack(init)[|init| := Rebuilt(p.dog)]
  {
  }

  /** The loop over the players succeeds iff every bag fits, and then numbers the dogs anew. */
  lemma {:induction false} RestoredPlayersIs(reg: Registry, sid: nat, players: seq<PlayerRepr>)
    ensures RestoredPlayers(reg, sid, players) ==
      if BagsFit(players)
      then Ok((AllReadmitted(reg, sid, players), SessionState(Board(DogsBack(players), map[]), |players|, 0)))
      else Err(BAG_FULL)
  {
    if players == [] {
      assert DogsBack([]) == map[];
    } else {
      var init, p := players[..|players| - 1], players[|players| - 1];
      assert players == init + [p];
      assert BagsFit(players) <==> BagsFit(init) && |p.dog.bag| <= p.dog.bagCapacity;
      RestoredPlayersIs(reg, sid, init);
      RefillExact(Unpacked(p.dog), p.dog.bag);
      DogsBackSnoc(players);
    }
  }

  lemma {:induction false} RestoredLostIs(s: SessionState, lost: seq<LostObject>)
    requires s.board.lost == map[] && s.nextLost == 0
    ensures RestoredLost(s, lost) == SessionState(Board(s.board.dogs, LostBack(lost)), s.nextDog, |lost|)
  {
    if lost == [] {
      assert LostBack([]) == map[];
    } else {
      var init, o := lost[..|lost| - 1], lost[|lost| - 1];
      RestoredLostIs(s, init);
      assert |init| !in LostBack(init) && LostBack(lost) == LostBack(init)[|init| := o];
    }
  }

  /** The state a session record is restored to. */
  function StateBack(repr: SessionRepr): SessionState {
    SessionState(Board(DogsBack(repr.players), LostBack(repr.lost)), |repr.players|, |repr.lost|)
  }

  function SessionReadmitted(reg: Registry, repr: SessionRepr): Registry {
    var r := AllReadmitted(reg, repr.id, repr.players);
    var next := if repr.id >= r.nextSession then repr.id + 1 else r.nextSession;
    Recorded(r.(nextSession := next), Listed(repr.id, repr.mapId))
  }

  lemma RestoredSessionIs(reg: Registry, repr: SessionRepr)
    requires BagsFit(repr.players)
    ensures RestoredSession(reg, repr) == Ok((SessionReadmitted(reg, repr), StateBack(repr)))
  {
    RestoredPlayersIs(reg, repr.id, repr.players);
    RestoredLostIs(SessionState(Board(DogsBack(repr.players), map[]), |repr.players|, 0), repr.lost);
  }

  function IdsOf(players: seq<PlayerRepr>): set<nat> { set i | 0 <= i < |players| :: players[i].id }

  /** The players of a list are saved players of the session, each once. */
  ghost predicate SomeSaved(reg: Registry, dogs: map<nat, DogState>, sid: nat, players: seq<PlayerRepr>) {
    && (forall i :: 0 <= i < |players| ==> SavedPlayer(reg, dogs, sid, players[i]))
    && (forall i, j :: 0 <= i < j < |players| ==> players[i].id != players[j].id)
  }

  predicate IdsAreKeys(dogs: map<nat, DogState>) { forall id :: id in dogs ==> dogs[id].id == id }

  lemma SomeSavedSnoc(reg: Registry, dogs: map<nat, DogState>, sid: nat, players: seq<PlayerRepr>)
    requires SomeSaved(reg, dogs, sid, players) && players != []
    ensures var (init, p) := (players[..|players| - 1], players[|players| - 1]);
      && SomeSaved(reg, dogs, sid, init) && SavedPlayer(reg, dogs, sid, p)
      && p.id !in IdsOf(init) && IdsOf(players) == IdsOf(init) + {p.id}
  {
    var init, p := players[..|players| - 1], players[|players| - 1];
    assert players == init + [p];
  }

  lemma OneMoreSaved(reg: Registry, dogs: map<nat, DogState>, sid: nat, saved: seq<PlayerRepr>, p: PlayerRepr)
    requires SomeSaved(reg, dogs, sid, saved) && SavedPlayer(reg, dogs, sid, p) && p.id !in IdsOf(saved)
    ensures SomeSaved(reg, dogs, sid, saved + [p]) && IdsOf(saved + [p]) == IdsOf(saved) + {p.id}
  {
    var all := saved + [p];
    assert all[|saved|] == p && forall i :: 0 <= i < |saved| ==> all[i] == saved[i] && saved[i].id in IdsOf(saved);
  }

  lemma AllSaved(reg: Registry, dogs: map<nat, DogState>, sid: nat, saved: seq<PlayerRepr>)
    requires SomeSaved(reg, dogs, sid, saved) && IdsOf(saved) == PlayersOf(reg, sid).Keys
    ensures SavedPlayers(reg, dogs, sid, saved)
  {
  }

  lemma SavedPlayerIs(reg: Registry, dogs: map<nat, DogState>, sid: nat, p: PlayerRepr)
    requires PlayersOk(reg) && IdsAreKeys(dogs) && SavedPlayer(reg, dogs, sid, p)
    ensures Registered(reg, Player(p.id, sid, p.dog.id)) && p.id in reg.tokenOf && p.token == reg.tokenOf[p.id]
  {
    assert PlayersOf(reg, sid)[p.id] == Player(p.id, sid, p.dog.id);
  }

  lemma PlayerBack(r: Registry, reg: Registry, ids: set<nat>, dogs: map<nat, DogState>, sid: nat, p: PlayerRepr)
    requires TokensMatch(reg) && PlayersOk(reg) && Partly(r, reg, ids)
    requires SavedPlayer(reg, dogs, sid, p) && IdsAreKeys(dogs) && p.id !in ids
    ensures Partly(Readmitted(r, Player(p.id, sid, p.dog.id), p.token), reg, ids + {p.id})
  {
    SavedPlayerIs(reg, dogs, sid, p);
    OneMoreBack(r, reg, ids, Player(p.id, sid, p.dog.id));
  }

  lemma SamePartly(r: Registry, s: Registry, reg: Registry, ids: set<nat>, others: set<nat>)
    requires r == s && ids == others && Partly(r, reg, ids)
    ensures Partly(s, reg, others)
  {
  }

  lemma IdsSnoc(ids: set<nat>, all: set<nat>, players: seq<PlayerRepr>, p: PlayerRepr)
    requires players != [] && p == players[|players| - 1] && p.id !in IdsOf(players[..|players| - 1])
    requires ids !! IdsOf(players) && all == ids + IdsOf(players)
    ensures var init := players[..|players| - 1];
      ids !! IdsOf(init) && all - {p.id} == ids + IdsOf(init) && all == all - {p.id} + {p.id}
  {
    assert players == players[..|players| - 1] + [p];
    assert IdsOf(players) == IdsOf(players[..|players| - 1]) + {p.id};
  }

  lemma LastPlayerBack(r: Registry, n: Registry, reg: Registry, all: set<nat>, dogs: map<nat, DogState>, sid: nat,
                       p: PlayerRepr)
    requires TokensMatch(reg) && PlayersOk(reg) && IdsAreKeys(dogs)
    requires n == Readmitted(r, Player(p.id, sid, p.dog.id), p.token)
    requires Partly(r, reg, all - {p.id}) && SavedPlayer(reg, dogs, sid, p) && p.id in all
    ensures Partly(n, reg, all)
  {
    var before := all - {p.id};
    assert all == before + {p.id};
    PlayerBack(r, reg, before, dogs, sid, p);
  }

  /** `all`: the ids that were back before, and those of the list. */
  lemma {:induction false} SessionPlayersBack(r: Registry, reg: Registry, ids: set<nat>, all: set<nat>,
                                              dogs: map<nat, DogState>, sid: nat, players: seq<PlayerRepr>)
    requires TokensMatch(reg) && PlayersOk(reg) && Partly(r, reg, ids)
    requires SomeSaved(reg, dogs, sid, players) && IdsAreKeys(dogs) && ids !! IdsOf(players)
    requires all == ids + IdsOf(players)
    ensures Partly(AllReadmitted(r, sid, players), reg, all)
  {
    if players == [] {
      SamePartly(r, AllReadmitted(r, sid, []), reg, ids, all);
    } else {
      var init, p := players[..|players| - 1], players[|players| - 1];
      SomeSavedSnoc(reg, dogs, sid, players);
      IdsSnoc(ids, all, players, p);
      SessionPlayersBack(r, reg, ids, all - {p.id}, dogs, sid, init);
      LastPlayerBack(AllReadmitted(r, sid, init), AllReadmitted(r, sid, players), reg, all, dogs, sid, p);
    }
  }

  /* ---- the whole game comes back ---- */

  function AllSessions(reg: Registry, game: seq<SessionRepr>): Registry {
    if game == [] then reg else SessionReadmitted(AllSessions(reg, game[..|game| - 1]), game[|game| - 1])
  }

  function SessionsBack(game: seq<SessionRepr>): map<nat, SessionState> {
    if game == [] then map[] else SessionsBack(game[..|game| - 1])[game[|game| - 1].id := StateBack(game[|game| - 1])]
  }

  lemma {:induction false} RestoredGameIs(reg: Registry, game: seq<SessionRepr>)
    requires forall k :: 0 <= k < |game| ==> BagsFit(game[k].players)
    ensures RestoredGame(reg, game) == Ok((AllSessions(reg, game), SessionsBack(game)))
  {
    if game != [] {
      var init, last := game[..|game| - 1], game[|game| - 1];
      RestoredGameIs(reg, init);
      RestoredSessionIs(AllSessions(reg, init), last);
    }
  }

  lemma {:induction false} SessionBackAt(game: seq<SessionRepr>, k: nat)
    requires k < |game| && forall i, j :: 0 <= i < j < |game| ==> game[i].id != game[j].id
    ensures game[k].id in SessionsBack(game) && SessionsBack(game)[game[k].id] == StateBack(game[k])
  {
    if k < |game| - 1 {
      SessionBackAt(game[..|game| - 1], k);
    }
  }

  function GameIds(game: seq<SessionRepr>): set<nat> {
    if game == [] then {} else GameIds(game[..|game| - 1]) + IdsOf(game[|game| - 1].players)
  }

  lemma {:induction false} InGameIds(game: seq<SessionRepr>, id: nat)
    ensures id in GameIds(game) <==> exists k :: 0 <= k < |game| && id in IdsOf(game[k].players)
  {
    if game != [] {
      var init := game[..|game| - 1];
      InGameIds(init, id);
      if id in GameIds(init) {
        var k :| 0 <= k < |init| && id in IdsOf(init[k].players);
        assert id in IdsOf(game[k].players);
      }
      if k :| 0 <= k < |game| && id in IdsOf(game[k].players) {
        assert k < |init| ==> id in IdsOf(init[k].players);
      }
    }
  }

  /** The first sessions of the list, as saved. */
  ghost predicate SavedSoFar(reg: Registry, boards: map<nat, Board>, game: seq<SessionRepr>) {
    && |game| <= |reg.listed|
    && forall k :: 0 <= k < |game| ==> SavedSession(reg, boards, reg.listed[k], game[k])
  }

  /** The ids of a session record are ids of players of that session. */
  lemma SavedIds(reg: Registry, boards: map<nat, Board>, l: Listed, repr: SessionRepr, id: nat)
    requires PlayersOk(reg) && SavedSession(reg, boards, l, repr) && id in IdsOf(repr.players)
    ensures id in PlayersOf(reg, l.id) && Registered(reg, PlayersOf(reg, l.id)[id])
    ensures PlayersOf(reg, l.id)[id].id == id && PlayersOf(reg, l.id)[id].session == l.id
  {
    var i :| 0 <= i < |repr.players| && repr.players[i].id == id;
    assert SavedPlayer(reg, boards[l.id].dogs, l.id, repr.players[i]);
  }

  lemma InOneSession(reg: Registry, boards: map<nat, Board>, game: seq<SessionRepr>, j: nat, k: nat, id: nat)
    requires Consistent(reg) && SavedSoFar(reg, boards, game) && j < k < |game| && id in IdsOf(game[j].players)
    ensures id !in IdsOf(game[k].players)
  {
    SavedIds(reg, boards, reg.listed[j], game[j], id);
    if id in IdsOf(game[k].players) {
      SavedIds(reg, boards, reg.listed[k], game[k], id);
      OnePlayerPerId(reg, PlayersOf(reg, reg.listed[j].id)[id], PlayersOf(reg, reg.listed[k].id)[id]);
    }
  }

  lemma WhichSession(game: seq<SessionRepr>, n: nat, id: nat) returns (k: nat)
    requires n <= |game| && id in GameIds(game[..n])
    ensures k < n && id in IdsOf(game[k].players)
  {
    InGameIds(game[..n], id);
    k :| k < n && id in IdsOf(game[..n][k].players);
  }

  lemma LastIdsAreNew(reg: Registry, boards: map<nat, Board>, game: seq<SessionRepr>)
    requires Consistent(reg) && SavedSoFar(reg, boards, game) && game != []
    ensures GameIds(game[..|game| - 1]) !! IdsOf(game[|game| - 1].players)
  {
    var n := |game| - 1;
    forall id | id in GameIds(game[..n]) ensures id !in IdsOf(game[n].players) {
      var k := WhichSession(game, n, id);
      InOneSession(reg, boards, game, k, n, id);
    }
  }

  /** The list and the table restored so far. */
  ghost predicate ListPartly(r: Registry, listed: seq<Listed>) {
    && r.listed == listed
    && (forall k :: 0 <= k < |listed| ==> listed[k].id < r.nextSession && listed[k].mapId in r.table)
    && (forall m :: m in r.table ==> r.table[m] != map[])
    && PlacesHold(r)
  }

  lemma {:induction false} PlayersLeaveTheList(reg: Registry, sid: nat, players: seq<PlayerRepr>)
    ensures var r := AllReadmitted(reg, sid, players);
      r.listed == reg.listed && r.table == reg.table && r.nextSession == reg.nextSession
  {
    if players != [] {
      PlayersLeaveTheList(reg, sid, players[..|players| - 1]);
    }
  }

  /** The places recorded before stay right, and the new one is. */
  lemma RecordedPlaces(r: Registry, s: Listed)
    requires PlacesHold(r)
    ensures PlacesHold(Recorded(r, s))
  {
    var n := Recorded(r, s);
    forall m, sid | m in n.table && sid in n.table[m]
      ensures n.table[m][sid] < |n.listed| && n.listed[n.table[m][sid]] == Listed(sid, m)
    {
      if m in r.table && sid in r.table[m] {
        assert n.table[m][sid] == r.table[m][sid];
      } else {
        assert m == s.mapId && sid == s.id && n.table[m][sid] == |r.listed|;
      }
    }
  }

  lemma RecordedEntries(r: Registry, s: Listed)
    requires forall m :: m in r.table ==> r.table[m] != map[]
    ensures forall m :: m in Recorded(r, s).table ==> Recorded(r, s).table[m] != map[]
    ensures s.mapId in Recorded(r, s).table && forall m :: m in r.table ==> m in Recorded(r, s).table
  {
    assert s.id in Recorded(r, s).table[s.mapId];
  }

  lemma RecordedList(r: Registry, listed: seq<Listed>, s: Listed)
    requires ListPartly(r, listed) && s.id < r.nextSession
    ensures ListPartly(Recorded(r, s), listed + [s])
  {
    RecordedPlaces(r, s);
    RecordedEntries(r, s);
    forall k | 0 <= k < |listed + [s]| ensures (listed + [s])[k].mapId in Recorded(r, s).table {
      assert k < |listed| ==> listed[k].mapId in r.table;
    }
  }

  lemma SameListBack(r: Registry, s: Registry, listed: seq<Listed>)
    requires ListPartly(r, listed)
    requires s.listed == r.listed && s.table == r.table && s.nextSession >= r.nextSession
    ensures ListPartly(s, listed)
  {
  }

  lemma OneMoreListedBack(r: Registry, listed: seq<Listed>, repr: SessionRepr)
    requires ListPartly(r, listed)
    ensures ListPartly(SessionReadmitted(r, repr), listed + [Listed(repr.id, repr.mapId)])
  {
    PlayersLeaveTheList(r, repr.id, repr.players);
    var p := AllReadmitted(r, repr.id, repr.players);
    var q := p.(nextSession := if repr.id >= p.nextSession then repr.id + 1 else p.nextSession);
    SameListBack(r, q, listed);
    RecordedList(q, listed, Listed(repr.id, repr.mapId));
  }

  /** The list does not matter to the players. */
  lemma SamePeople(r: Registry, s: Registry, reg: Registry, ids: set<nat>)
    requires Partly(r, reg, ids)
    requires r.players == s.players && r.tokens == s.tokens && r.tokenOf == s.tokenOf && r.nextPlayer == s.nextPlayer
    ensures Partly(s, reg, ids)
  {
    SamePlayers(r, s);
    assert forall p :: Registered(s, p) <==> Registered(r, p);
  }

  lemma OneMoreSessionBack(r: Registry, reg: Registry, boards: map<nat, Board>, ids: set<nat>, l: Listed,
                           repr: SessionRepr)
    requires TokensMatch(reg) && PlayersOk(reg) && Partly(r, reg, ids) && SavedSession(reg, boards, l, repr)
    requires IdsAreKeys(boards[l.id].dogs) && ids !! IdsOf(repr.players)
    ensures Partly(SessionReadmitted(r, repr), reg, ids + IdsOf(repr.players))
  {
    var all := ids + IdsOf(repr.players);
    SessionPlayersBack(r, reg, ids, all, boards[l.id].dogs, repr.id, repr.players);
    SamePeople(AllReadmitted(r, repr.id, repr.players), SessionReadmitted(r, repr), reg, all);
  }

  lemma NobodyBack(reg: Registry)
    ensures Partly(EMPTY, reg, {}) && ListPartly(EMPTY, [])
  {
  }

  lemma LastSessionBack(r: Registry, n: Registry, reg: Registry, boards: map<nat, Board>, ids: set<nat>, all: set<nat>,
                        before: seq<Listed>, l: Listed, repr: SessionRepr)
    requires n == SessionReadmitted(r, repr) && all == ids + IdsOf(repr.players) && ids !! IdsOf(repr.players)
    requires TokensMatch(reg) && PlayersOk(reg) && SavedSession(reg, boards, l, repr) && IdsAreKeys(boards[l.id].dogs)
    requires Partly(r, reg, ids) && ListPartly(r, before)
    ensures Partly(n, reg, all) && ListPartly(n, before + [l])
  {
    OneMoreSessionBack(r, reg, boards, ids, l, repr);
    OneMoreListedBack(r, before, repr);
  }

  /** The sessions of `game` are back in `r`, and nothing else. */
  ghost predicate BackSoFar(reg: Registry, game: seq<SessionRepr>, r: Registry)
    requires |game| <= |reg.listed|
  {
    Partly(r, reg, GameIds(game)) && ListPartly(r, reg.listed[..|game|])
  }

  lemma LastRecordIs(reg: Registry, boards: map<nat, Board>, game: seq<SessionRepr>)
    requires Savable(reg, boards) && SavedSoFar(reg, boards, game) && game != []
    ensures var (n, l, last) := (|game| - 1, reg.listed[|game| - 1], game[|game| - 1]);
      && SavedSession(reg, boards, l, last) && IdsAreKeys(boards[l.id].dogs)
      && reg.listed[..n] + [l] == reg.listed[..n + 1]
  {
    assert SessionSavable(reg, boards, reg.listed[|game| - 1].id);
  }

  lemma OneSessionMore(reg: Registry, boards: map<nat, Board>, game: seq<SessionRepr>, r: Registry)
    requires Savable(reg, boards) && SavedSoFar(reg, boards, game) && game != []
    requires BackSoFar(reg, game[..|game| - 1], r)
    ensures BackSoFar(reg, game, SessionReadmitted(r, game[|game| - 1]))
  {
    var (n, l, last) := (|game| - 1, reg.listed[|game| - 1], game[|game| - 1]);
    LastIdsAreNew(reg, boards, game);
    LastRecordIs(reg, boards, game);
    NextBack(r, SessionReadmitted(r, last), reg, boards, GameIds(game[..n]), GameIds(game),
      reg.listed[..n], reg.listed[..n + 1], l, last);
  }

  lemma NextBack(r: Registry, n: Registry, reg: Registry, boards: map<nat, Board>, ids: set<nat>, all: set<nat>,
                 before: seq<Listed>, after: seq<Listed>, l: Listed, repr: SessionRepr)
    requires n == SessionReadmitted(r, repr) && all == ids + IdsOf(repr.players) && ids !! IdsOf(repr.players)
    requires Consistent(reg) && SavedSession(reg, boards, l, repr) && IdsAreKeys(boards[l.id].dogs)
    requires Partly(r, reg, ids) && ListPartly(r, before) && after == before + [l]
    ensures Partly(n, reg, all) && ListPartly(n, after)
  {
    LastSessionBack(r, n, reg, boards, ids, all, before, l, repr);
  }

  lemma {:induction false} SessionsComeBack(reg: Registry, boards: map<nat, Board>, game: seq<SessionRepr>)
    requires Savable(reg, boards) && SavedSoFar(reg, boards, game)
    ensures BackSoFar(reg, game, AllSessions(EMPTY, game))
  {
    if game == [] {
      NobodyBack(reg);
      assert reg.listed[..0] == [];
    } else {
      SessionsComeBack(reg, boards, game[..|game| - 1]);
      OneSessionMore(reg, boards, game, AllSessions(EMPTY, game[..|game| - 1]));
    }
  }

  lemma WholeTokensBack(r: Registry, reg: Registry, ids: set<nat>)
    requires TokensMatch(reg) && TokensPartly(r, reg, ids)
    requires forall p :: Registered(reg, p) ==> p.id in ids
    ensures r.tokens == reg.tokens && r.tokenOf == reg.tokenOf
  {
    forall t | t in reg.tokens ensures t in r.tokens {
      assert TokenOk(reg, t);
    }
    forall id | id in reg.tokenOf ensures id in r.tokenOf {
      assert IdOk(reg, id);
      assert TokenOk(reg, reg.tokenOf[id]);
    }
    assert r.tokens.Keys == reg.tokens.Keys && r.tokenOf.Keys == reg.tokenOf.Keys;
  }

  /** Once every player is back, the registry is the saved one. */
  lemma WholeIsBack(r: Registry, reg: Registry, ids: set<nat>)
    requires Consistent(reg) && Partly(r, reg, ids)
    requires forall p :: Registered(reg, p) ==> p.id in ids
    ensures r.players == reg.players && r.tokens == reg.tokens && r.tokenOf == reg.tokenOf
  {
    WholeTokensBack(r, reg, ids);
    SamePlayersBack(r, reg);
  }

  lemma SamePlayersBack(r: Registry, reg: Registry)
    requires PlayersOk(r) && PlayersOk(reg) && forall p :: Registered(r, p) <==> Registered(reg, p)
    ensures r.players == reg.players
  {
    SubPlayers(r, reg);
    SubPlayers(reg, r);
    forall s | s in r.players ensures r.players[s] == reg.players[s] {
      assert r.players[s].Keys == reg.players[s].Keys;
    }
  }

  lemma SubPlayers(r: Registry, reg: Registry)
    requires PlayersOk(r) && forall p :: Registered(r, p) ==> Registered(reg, p)
    ensures forall s :: s in r.players ==> s in reg.players
    ensures forall s, id :: s in r.players && id in r.players[s] ==>
      id in reg.players[s] && reg.players[s][id] == r.players[s][id]
  {
    forall s, id | s in r.players && id in r.players[s]
      ensures s in reg.players && id in reg.players[s] && reg.players[s][id] == r.players[s][id]
    {
      assert Registered(r, r.players[s][id]);
    }
    forall s | s in r.players ensures s in reg.players {
      var id :| id in r.players[s];
    }
  }

  lemma {:induction false} EveryoneIsSaved(reg: Registry, boards: map<nat, Board>, game: seq<SessionRepr>, p: Player)
    requires Consistent(reg) && SavedGame(reg, boards, game) && Registered(reg, p)
    ensures p.id in GameIds(game)
  {
    assert IsListed(reg, p.session);
    var k :| 0 <= k < |reg.listed| && reg.listed[k].id == p.session;
    assert p.id in PlayersOf(reg, p.session);
    assert SavedSession(reg, boards, reg.listed[k], game[k]);
    var i :| 0 <= i < |game[k].players| && game[k].players[i].id == p.id;
    InGameIds(game, p.id);
  }

  lemma SavedBagsFit(reg: Registry, boards: map<nat, Board>, l: Listed, repr: SessionRepr)
    requires SavedSession(reg, boards, l, repr) && BoardOk(boards[l.id])
    ensures BagsFit(repr.players)
  {
    forall i | 0 <= i < |repr.players| ensures |repr.players[i].dog.bag| <= repr.players[i].dog.bagCapacity {
      assert SavedPlayer(reg, boards[l.id].dogs, l.id, repr.players[i]);
      assert DogOk(boards[l.id].dogs[PlayersOf(reg, l.id)[repr.players[i].id].dog]);
    }
  }

  lemma ConsistentAgain(r: Registry, reg: Registry)
    requires Consistent(reg) && PlayersOk(r) && ListPartly(r, reg.listed)
    requires r.players == reg.players && r.tokens == reg.tokens && r.tokenOf == reg.tokenOf
    ensures Consistent(r)
  {
    SameTokens(reg, r);
    forall s | s in r.players ensures IsListed(r, s) {
      assert IsListed(reg, s);
    }
  }

  lemma TableIsRight(r: Registry, listed: seq<Listed>, m: string)
    requires ListPartly(r, listed)
    ensures RightFor(r, m)
  {
  }

  /** A saved game that is read back yields the same players, tokens and list of sessions, all of it in
      agreement, and a table of sessions that is right for every map, even if it was not when saved. */
  lemma {:induction false} GameComesBack(reg: Registry, boards: map<nat, Board>, game: seq<SessionRepr>)
    requires Savable(reg, boards) && SavedGame(reg, boards, game)
    ensures RestoredGame(EMPTY, game) == Ok((AllSessions(EMPTY, game), SessionsBack(game)))
    ensures var r := AllSessions(EMPTY, game);
      && r.players == reg.players && r.tokens == reg.tokens && r.tokenOf == reg.tokenOf && r.listed == reg.listed
      && Consistent(r) && forall m :: RightFor(r, m)
  {
    forall k | 0 <= k < |game| ensures BagsFit(game[k].players) {
      SavedBagsFit(reg, boards, reg.listed[k], game[k]);
    }
    RestoredGameIs(EMPTY, game);
    SessionsComeBack(reg, boards, game);
    WholeGame(reg, boards, game, AllSessions(EMPTY, game));
  }

  lemma WholeGame(reg: Registry, boards: map<nat, Board>, game: seq<SessionRepr>, r: Registry)
    requires Consistent(reg) && SavedGame(reg, boards, game) && BackSoFar(reg, game, r)
    ensures r.players == reg.players && r.tokens == reg.tokens && r.tokenOf == reg.tokenOf && r.listed == reg.listed
    ensures Consistent(r) && forall m :: RightFor(r, m)
  {
    assert reg.listed[..|game|] == reg.listed;
    forall p | Registered(reg, p) ensures p.id in GameIds(game) {
      EveryoneIsSaved(reg, boards, game, p);
    }
    WholeIsBack(r, reg, GameIds(game));
    ConsistentAgain(r, reg);
    forall m ensures RightFor(r, m) {
      TableIsRight(r, reg.listed, m);
    }
  }

  /* ---- the dogs and the loot of one session ---- */

  /** The dogs come back under new numbers: number `i` is the dog that was `order[i]`. */
  ghost predicate Renumbered(order: seq<nat>, dogs: map<nat, DogState>, back: map<nat, DogState>) {
    && NoRepeats(order)
    && (forall id :: id in order <==> id in dogs)
    && (forall i: nat :: i in back <==> i < |order|)
    && (forall i :: 0 <= i < |order| ==> back[i] == Reloaded(dogs[order[i]]))
  }

  ghost predicate LostRenumbered(order: seq<nat>, lost: map<nat, LostObject>, back: map<nat, LostObject>) {
    && NoRepeats(order)
    && (forall id :: id in order <==> id in lost)
    && (forall i: nat :: i in back <==> i < |order|)
    && (forall i :: 0 <= i < |order| ==> back[i] == lost[order[i]])
  }

  lemma DogsComeBack(reg: Registry, dogs: map<nat, DogState>, sid: nat, players: seq<PlayerRepr>)
    returns (order: seq<nat>)
    requires PlayersOk(reg) && SavedPlayers(reg, dogs, sid, players)
    requires IdsAreKeys(dogs) && DogsMatch(PlayersOf(reg, sid), dogs.Keys)
    ensures Renumbered(order, dogs, DogsBack(players))
  {
    order := seq(|players|, i requires 0 <= i < |players| => players[i].dog.id);
    var crew := PlayersOf(reg, sid);
    forall i | 0 <= i < |players| ensures order[i] in dogs && crew[players[i].id].dog == order[i] {
      assert SavedPlayer(reg, dogs, sid, players[i]);
    }
    forall i | 0 <= i < |players| ensures DogsBack(players)[i] == Reloaded(dogs[order[i]]) {
      assert SavedPlayer(reg, dogs, sid, players[i]);
    }
    forall id | id in dogs ensures id in order {
      var owner :| owner in crew && crew[owner].dog == id;
      var i :| 0 <= i < |players| && players[i].id == owner;
      assert order[i] == id;
    }
  }

  lemma LootComesBack(lost: map<nat, LostObject>, saved: seq<LostObject>) returns (order: seq<nat>)
    requires SavedLost(lost, saved) && forall oid :: oid in lost ==> lost[oid].id == oid
    ensures LostRenumbered(order, lost, LostBack(saved))
  {
    order := seq(|saved|, i requires 0 <= i < |saved| => saved[i].id);
    forall oid | oid in lost ensures oid in order {
      var i :| 0 <= i < |saved| && saved[i] == lost[oid];
      assert order[i] == oid;
    }
  }

  /** The session has the same dogs, but for what `Reloaded` says, and the same loot, each once and under new
      numbers, and its counters are past them. */
  ghost predicate SessionBack(b: Board, s: SessionState) {
    && (exists order :: Renumbered(order, b.dogs, s.board.dogs) && s.nextDog == |order|)
    && (exists order :: LostRenumbered(order, b.lost, s.board.lost) && s.nextLost == |order|)
  }

  lemma RecordComesBack(reg: Registry, boards: map<nat, Board>, game: seq<SessionRepr>, k: nat)
    requires Savable(reg, boards) && SavedGame(reg, boards, game) && k < |game|
    ensures reg.listed[k].id in boards && SessionBack(boards[reg.listed[k].id], StateBack(game[k]))
  {
    var sid := reg.listed[k].id;
    assert SavedSession(reg, boards, reg.listed[k], game[k]);
    assert SessionSavable(reg, boards, sid);
    var dogOrder := DogsComeBack(reg, boards[sid].dogs, sid, game[k].players);
    var lootOrder := LootComesBack(boards[sid].lost, game[k].lost);
    assert |dogOrder| == |game[k].players| by {
      CountsAgree(DogsBack(game[k].players), |dogOrder|, |game[k].players|);
    }
    assert |lootOrder| == |game[k].lost| by {
      CountsAgree(LostBack(game[k].lost), |lootOrder|, |game[k].lost|);
    }
  }

  /** Each session of a saved game comes back under its id. */
  lemma {:induction false} SessionComesBack(reg: Registry, boards: map<nat, Board>, game: seq<SessionRepr>, k: nat)
    requires Savable(reg, boards) && SavedGame(reg, boards, game) && k < |game|
    ensures var sid := reg.listed[k].id;
      sid in SessionsBack(game) && sid in boards && SessionBack(boards[sid], SessionsBack(game)[sid])
  {
    forall i, j | 0 <= i < j < |game| ensures game[i].id != game[j].id {
      assert SavedSession(reg, boards, reg.listed[i], game[i]) && SavedSession(reg, boards, reg.listed[j], game[j]);
    }
    assert SavedSession(reg, boards, reg.listed[k], game[k]);
    SessionBackAt(game, k);
    RecordComesBack(reg, boards, game, k);
  }

  lemma CountsAgree<V>(m: map<nat, V>, a: nat, b: nat)
    requires forall i: nat :: i in m <==> i < a
    requires forall i: nat :: i in m <==> i < b
    ensures a == b
  {
    assert a !in m && b !in m;
  }

  function StatesBack(game: seq<SessionRepr>): (back: seq<SessionState>)
    ensures |back| == |game|
  {
    seq(|game|, k requires 0 <= k < |game| => StateBack(game[k]))
  }

  /** The same players, tokens and list, all of it in agreement, a table of sessions that is right for every map,
      and in each session what it held. */
  ghost predicate ComesBack(reg: Registry, boards: map<nat, Board>, r: Registry, back: seq<SessionState>) {
    && r.players == reg.players && r.tokens == reg.tokens && r.tokenOf == reg.tokenOf && r.listed == reg.listed
    && Consistent(r) && (forall m :: RightFor(r, m)) && |back| == |reg.listed|
    && forall k :: 0 <= k < |back| ==> reg.listed[k].id in boards && SessionBack(boards[reg.listed[k].id], back[k])
  }

  lemma {:induction false} AllComesBack(reg: Registry, boards: map<nat, Board>, game: seq<SessionRepr>)
    requires Savable(reg, boards) && SavedGame(reg, boards, game)
    ensures forall k :: 0 <= k < |game| ==> BagsFit(game[k].players)
    ensures ComesBack(reg, boards, AllSessions(EMPTY, game), StatesBack(game))
  {
    GameComesBack(reg, boards, game);
    forall k | 0 <= k < |game|
      ensures BagsFit(game[k].players)
      ensures reg.listed[k].id in boards && SessionBack(boards[reg.listed[k].id], StatesBack(game)[k])
    {
      SavedBagsFit(reg, boards, reg.listed[k], game[k]);
      RecordComesBack(reg, boards, game, k);
    }
  }
}
