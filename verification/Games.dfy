/** The whole server as a state machine: the containers together with the state of every session. Its runs are
    runs of the containers and, session by session, runs of the session machine. */
module Games {
  import opened Wrappers
  import opened Geometry
  import opened RoadIndices
  import opened Movement
  import opened Dogs
  import opened CollisionDetector
  import opened Gathering
  import opened Sessions
  import opened Registries
  import opened ApplicationRuns
  import opened Serialization
  import opened SavedGames

  datatype Config = Config(maps: map<string, MapInfo>, isRandom: bool, limit: nat) {
    predicate Ok() { forall m :: m in maps ==> maps[m].id == m && maps[m].roads != [] }
  }

  /** A session with the map it runs on. */
  datatype Hosted = Hosted(info: MapInfo, state: SessionState)

  /** `hosted`: every session ever opened. */
  datatype Game = Game(reg: Registry, hosted: map<nat, Hosted>, dropped: bool)

  const NO_GAME := Game(EMPTY, map[], false)

  /* ---- operations ---- */

  function Opened(g: Game, info: MapInfo): Game {
    g.(reg := SessionAdded(g.reg, info.id), hosted := g.hosted[g.reg.nextSession := Hosted(info, FRESH)])
  }

  /** The session is in this state now. */
  function Became(g: Game, sid: nat, s: SessionState): Game
    requires sid in g.hosted
  {
    g.(hosted := g.hosted[sid := g.hosted[sid].(state := s)])
  }

  /** A join that goes through: a dog at the spawn point, its player and a token. */
  function Entered(g: Game, sid: nat, name: string, spawn: Vec, token: Token): Game
    requires sid in g.hosted
  {
    var h := g.hosted[sid];
    Became(g, sid, Joined(h.info, h.state, name, spawn)).(reg := Enrolled(g.reg, sid, h.state.nextDog, token))
  }

  /* ---- steps ---- */

  datatype Action =
    | Join(mapId: string, name: string, token: Token, found: Lookup, road: nat, phase: real)
    | Move(token: Token, direction: Option<Direction>)
    | Generate(sid: nat, draw: real, draws: seq<Draw>)
    | Tick(sid: nat, t: int, setup: Setup, events: seq<GatheringEvent>)

  /** `Join` in a session that was found or opened. */
  ghost predicate EnterStep(c: Config, g: Game, sid: nat, a: Action, r: Game, outcome: Result<Token, string>)
    requires a.Join?
  {
    if a.name == "" then r == g && outcome == Err(BAD_NAME)
    else
      && sid in g.hosted && a.token !in g.reg.tokens && outcome == Ok(a.token)
      && var roads := g.hosted[sid].info.roads;
        && a.road < |roads| && 0.0 <= a.phase <= 1.0
        && r == Entered(g, sid, a.name, SpawnPoint(roads, c.isRandom, a.road, a.phase), a.token)
  }

  /** `JoinGame`. A place outside the list is undefined behaviour and has no step. */
  ghost predicate JoinStep(c: Config, g: Game, a: Action, r: Game, outcome: Result<Token, string>)
    requires a.Join?
  {
    && Finds(g.reg, a.mapId, a.found)
    && match a.found
       case At(k) => k < |g.reg.listed| && EnterStep(c, g, g.reg.listed[k].id, a, r, outcome)
       case NotFound =>
         if a.mapId !in c.maps then r == g && outcome == Err(BAD_MAP)
         else EnterStep(c, Opened(g, c.maps[a.mapId]), g.reg.nextSession, a, r, outcome)
  }

  /** A player steers its dog; an unknown token does nothing. */
  ghost predicate MoveStep(g: Game, token: Token, direction: Option<Direction>, r: Game, outcome: Result<(), string>) {
    if token !in g.reg.tokens then r == g && outcome == Ok(())
    else
      var p := g.reg.tokens[token];
      && p.session in g.hosted
      && var h := g.hosted[p.session];
        match Directed(h.info, h.state, p.dog, direction)
        case Ok(s) => r == Became(g, p.session, s) && outcome == Ok(())
        case Err(e) => r == g && outcome == Err(e)
  }

  ghost predicate GenerateStep(g: Game, sid: nat, draw: real, draws: seq<Draw>, r: Game) {
    && sid in g.hosted && sid in r.hosted && r == Became(g, sid, r.hosted[sid].state)
    && Sessions.GenerateStep(g.hosted[sid].info, g.hosted[sid].state, draw, draws, r.hosted[sid].state)
  }

  /** What a tick that leaves the session in state `s` leaves of the rest: if some dog retired in it, the players
      are cleaned up. */
  ghost predicate Settled(g: Game, sid: nat, s: SessionState, r: Game) {
    && IsListed(g.reg, sid) && sid in g.hosted && r.hosted == Became(g, sid, s).hosted
    && (if s.board.dogs.Keys == g.hosted[sid].state.board.dogs.Keys then r.reg == g.reg
        else sid in g.reg.players && r.reg == Cleaned(g.reg, sid, s.board.dogs.Keys))
    && r.dropped == (g.dropped || !IsListed(r.reg, sid))
  }

  /** A tick of a listed session. */
  ghost predicate TickStep(c: Config, g: Game, sid: nat, t: int, setup: Setup, events: seq<GatheringEvent>, r: Game) {
    && sid in g.hosted && sid in r.hosted && Settled(g, sid, r.hosted[sid].state, r)
    && var h := g.hosted[sid];
      Sessions.TickStep(h.info, IndexOf(h.info.roads), c.limit, h.state, t, setup, events, r.hosted[sid].state)
  }

  lemma TickIs(c: Config, g: Game, sid: nat, t: int, setup: Setup, events: seq<GatheringEvent>, s: SessionState,
               r: Game)
    requires Settled(g, sid, s, r)
    requires var h := g.hosted[sid];
      Sessions.TickStep(h.info, IndexOf(h.info.roads), c.limit, h.state, t, setup, events, s)
    ensures TickStep(c, g, sid, t, setup, events, r)
  {
  }

  ghost predicate Next(c: Config, g: Game, a: Action, r: Game) {
    match a
    case Join(_, _, _, _, _, _) => exists outcome :: JoinStep(c, g, a, r, outcome)
    case Move(token, direction) => exists outcome :: MoveStep(g, token, direction, r, outcome)
    case Generate(sid, draw, draws) => GenerateStep(g, sid, draw, draws, r)
    case Tick(sid, t, setup, events) => TickStep(c, g, sid, t, setup, events, r)
  }

  /* ---- the containers' view of a step ---- */

  function PenOf(s: SessionState): Pen { Pen(s.board.dogs.Keys, s.nextDog) }

  function PensOf(hosted: map<nat, Hosted>): map<nat, Pen> { map sid | sid in hosted :: PenOf(hosted[sid].state) }

  function WorldOf(g: Game): World { World(g.reg, PensOf(g.hosted), g.dropped) }

  lemma PensUpdated(hosted: map<nat, Hosted>, sid: nat, h: Hosted)
    ensures PensOf(hosted[sid := h]) == PensOf(hosted)[sid := PenOf(h.state)]
  {
  }

  lemma OpenedWorld(g: Game, info: MapInfo)
    ensures WorldOf(Opened(g, info)) == ApplicationRuns.Opened(WorldOf(g), info.id)
  {
    PensUpdated(g.hosted, g.reg.nextSession, Hosted(info, FRESH));
    assert FRESH.board.dogs.Keys == {};
  }

  lemma EnteredWorld(g: Game, sid: nat, name: string, spawn: Vec, token: Token)
    requires sid in g.hosted
    ensures WorldOf(Entered(g, sid, name, spawn, token)) == ApplicationRuns.Entered(WorldOf(g), sid, token)
  {
    var h := g.hosted[sid];
    var s := Joined(h.info, h.state, name, spawn);
    PensUpdated(g.hosted, sid, h.(state := s));
    assert s.board.dogs.Keys == h.state.board.dogs.Keys + {h.state.nextDog};
  }

  lemma BecameWorld(g: Game, sid: nat, s: SessionState)
    requires sid in g.hosted
    ensures PensOf(Became(g, sid, s).hosted) == PensOf(g.hosted)[sid := PenOf(s)]
    ensures PenOf(s) == PenOf(g.hosted[sid].state) ==> WorldOf(Became(g, sid, s)) == WorldOf(g)
  {
    PensUpdated(g.hosted, sid, g.hosted[sid].(state := s));
    assert PenOf(s) == PenOf(g.hosted[sid].state) ==> PensOf(g.hosted)[sid := PenOf(s)] == PensOf(g.hosted);
  }

  /* ---- the sessions' view of a step ---- */

  /** Some run of the session machine on this map leads to the state. */
  ghost predicate Reached(m: MapInfo, limit: nat, s: SessionState) {
    exists actions, trace :: RunTo(m, limit, actions, trace, s)
  }

  ghost predicate RunTo(m: MapInfo, limit: nat, actions: seq<Sessions.Action>, trace: seq<SessionState>,
                        s: SessionState) {
    Sessions.IsRun(m, IndexOf(m.roads), limit, actions, trace) && trace[|actions|] == s
  }

  lemma FreshReached(m: MapInfo, limit: nat)
    ensures Reached(m, limit, FRESH)
  {
    assert RunTo(m, limit, [], [FRESH], FRESH);
  }

  lemma {:induction false} NextReached(m: MapInfo, limit: nat, s: SessionState, a: Sessions.Action, r: SessionState)
    requires Reached(m, limit, s) && Sessions.Next(m, IndexOf(m.roads), limit, s, a, r)
    ensures Reached(m, limit, r)
  {
    var actions, trace :| RunTo(m, limit, actions, trace, s);
    var (longer, states) := (actions + [a], trace + [r]);
    forall i | 0 <= i < |longer| ensures Sessions.StepAt(m, IndexOf(m.roads), limit, longer, states, i) {
      if i < |actions| {
        assert Sessions.StepAt(m, IndexOf(m.roads), limit, actions, trace, i);
      }
    }
    assert RunTo(m, limit, longer, states, r);
  }

  lemma ReachedInv(m: MapInfo, limit: nat, s: SessionState)
    requires Reached(m, limit, s)
    ensures Inv(m, s)
  {
    var actions, trace :| RunTo(m, limit, actions, trace, s);
    RunKeepsInv(m, IndexOf(m.roads), limit, actions, trace, |actions|);
  }

  /* ---- what every step keeps ---- */

  ghost predicate HostedOk(c: Config, h: Hosted) {
    h.info.id in c.maps && c.maps[h.info.id] == h.info && Reached(h.info, c.limit, h.state)
  }

  ghost predicate AllHosted(c: Config, hosted: map<nat, Hosted>) {
    forall sid :: sid in hosted ==> HostedOk(c, hosted[sid])
  }

  /** The list names the maps that the sessions run on. */
  predicate ListNames(listed: seq<Listed>, hosted: map<nat, Hosted>) {
    forall k :: 0 <= k < |listed| ==> listed[k].id in hosted && hosted[listed[k].id].info.id == listed[k].mapId
  }

  /** The containers agree with the dogs of all sessions, and each session is where a run of its own could be. */
  ghost predicate GameOk(c: Config, g: Game) {
    WorldOk(WorldOf(g)) && AllHosted(c, g.hosted) && ListNames(g.reg.listed, g.hosted)
  }

  lemma NewGameOk(c: Config)
    ensures GameOk(c, NO_GAME) && WorldOf(NO_GAME) == START
  {
  }

  lemma HostedUpdated(c: Config, hosted: map<nat, Hosted>, sid: nat, h: Hosted)
    requires AllHosted(c, hosted) && HostedOk(c, h)
    ensures AllHosted(c, hosted[sid := h])
  {
  }

  lemma OpenedOk(c: Config, g: Game, mapId: string)
    requires c.Ok() && GameOk(c, g) && mapId in c.maps
    ensures GameOk(c, Opened(g, c.maps[mapId]))
  {
    var info := c.maps[mapId];
    OpenedWorld(g, info);
    OpenedKeeps(WorldOf(g), info.id);
    FreshReached(info, c.limit);
    HostedUpdated(c, g.hosted, g.reg.nextSession, Hosted(info, FRESH));
  }

  lemma BecameOk(c: Config, g: Game, sid: nat, a: Sessions.Action, s: SessionState)
    requires AllHosted(c, g.hosted) && ListNames(g.reg.listed, g.hosted) && sid in g.hosted
    requires var h := g.hosted[sid]; Sessions.Next(h.info, IndexOf(h.info.roads), c.limit, h.state, a, s)
    ensures AllHosted(c, Became(g, sid, s).hosted) && ListNames(g.reg.listed, Became(g, sid, s).hosted)
  {
    var h := g.hosted[sid];
    assert HostedOk(c, h);
    NextReached(h.info, c.limit, h.state, a, s);
    HostedUpdated(c, g.hosted, sid, h.(state := s));
  }

  lemma EnterKeeps(c: Config, g: Game, sid: nat, a: Action, r: Game, outcome: Result<Token, string>)
    requires GameOk(c, g) && IsListed(g.reg, sid) && a.Join? && EnterStep(c, g, sid, a, r, outcome)
    ensures GameOk(c, r)
  {
    if a.name != "" {
      var h := g.hosted[sid];
      var spawn := SpawnPoint(h.info.roads, c.isRandom, a.road, a.phase);
      EnteredWorld(g, sid, a.name, spawn, a.token);
      EnteredKeeps(WorldOf(g), sid, a.token);
      BecameOk(c, g, sid, Sessions.Action.Join(a.name, c.isRandom, a.road, a.phase),
               Joined(h.info, h.state, a.name, spawn));
    }
  }

  lemma JoinKeeps(c: Config, g: Game, a: Action, r: Game, outcome: Result<Token, string>)
    requires c.Ok() && GameOk(c, g) && a.Join? && JoinStep(c, g, a, r, outcome)
    ensures GameOk(c, r)
  {
    match a.found
    case At(k) =>
      assert IsListed(g.reg, g.reg.listed[k].id);
      EnterKeeps(c, g, g.reg.listed[k].id, a, r, outcome);
    case NotFound =>
      if a.mapId in c.maps {
        var o := Opened(g, c.maps[a.mapId]);
        OpenedOk(c, g, a.mapId);
        assert o.reg.listed[|g.reg.listed|].id == g.reg.nextSession;
        EnterKeeps(c, o, g.reg.nextSession, a, r, outcome);
      }
  }

  /** The player of a token belongs to a listed session, and its dog is in it. */
  lemma PlayersHaveDogs(c: Config, g: Game, token: Token)
    requires GameOk(c, g) && token in g.reg.tokens
    ensures var p := g.reg.tokens[token];
      IsListed(g.reg, p.session) && p.session in g.hosted && p.dog in g.hosted[p.session].state.board.dogs
  {
    var p := g.reg.tokens[token];
    assert TokenOk(g.reg, token) && Registered(g.reg, p);
    assert IsListed(g.reg, p.session);
    assert SessionOk(WorldOf(g), p.session);
    assert PlayersOf(g.reg, p.session)[p.id] == p;
  }

  lemma SteeredPen(m: MapInfo, s: SessionState, dog: nat, direction: Option<Direction>)
    requires dog in s.board.dogs
    ensures Directed(m, s, dog, direction).Ok? && PenOf(Directed(m, s, dog, direction).value) == PenOf(s)
  {
    assert Directed(m, s, dog, direction).value.board.dogs.Keys == s.board.dogs.Keys;
  }

  /** A session's step that neither adds nor removes a dog. */
  lemma SamePenKeeps(c: Config, g: Game, sid: nat, a: Sessions.Action, s: SessionState)
    requires GameOk(c, g) && sid in g.hosted && PenOf(s) == PenOf(g.hosted[sid].state)
    requires Sessions.Next(g.hosted[sid].info, IndexOf(g.hosted[sid].info.roads), c.limit, g.hosted[sid].state, a, s)
    ensures WorldOf(Became(g, sid, s)) == WorldOf(g) && GameOk(c, Became(g, sid, s))
  {
    BecameWorld(g, sid, s);
    BecameOk(c, g, sid, a, s);
  }

  /** Steering never fails: the error for an unknown dog is not reached from any token. */
  lemma MoveSucceeds(c: Config, g: Game, token: Token, direction: Option<Direction>, r: Game, outcome: Result<(),
                     string>)
    requires GameOk(c, g) && MoveStep(g, token, direction, r, outcome)
    ensures outcome == Ok(()) && WorldOf(r) == WorldOf(g) && GameOk(c, r)
  {
    if token in g.reg.tokens {
      PlayersHaveDogs(c, g, token);
      var p := g.reg.tokens[token];
      var h := g.hosted[p.session];
      SteeredPen(h.info, h.state, p.dog, direction);
      var s := Directed(h.info, h.state, p.dog, direction).value;
      SamePenKeeps(c, g, p.session, Sessions.Action.Direct(p.dog, direction), s);
    }
  }

  /** What a join gives: under its token a player, and in the player's session a new dog with the player's name, at the
      drawn point, at rest and with nothing; and all other dogs of all sessions are as they were. */
  ghost predicate JoinGives(c: Config, g: Game, a: Action, r: Game)
    requires a.Join?
  {
    && a.token !in g.reg.tokens && a.token in r.reg.tokens
    && var p := r.reg.tokens[a.token];
      && p.session in r.hosted
      && var h := r.hosted[p.session];
        && p.dog in h.state.board.dogs && a.road < |h.info.roads| && OnlyNew(g, p.session, p.dog, r)
        && var d := h.state.board.dogs[p.dog];
          d.name == a.name && d.bag == [] && d.score == 0 && d.body.speed == ZERO && d.direction == North
          && d.body.pos == SpawnPoint(h.info.roads, c.isRandom, a.road, a.phase)
  }

  /** Only this dog is new; every other one of every session is as it was. */
  ghost predicate OnlyNew(g: Game, sid: nat, dog: nat, r: Game) {
    forall s, k :: s in r.hosted && k in r.hosted[s].state.board.dogs && !(s == sid && k == dog) ==>
      s in g.hosted && k in g.hosted[s].state.board.dogs
      && r.hosted[s].state.board.dogs[k] == g.hosted[s].state.board.dogs[k]
  }

  lemma EnterGives(c: Config, g: Game, sid: nat, a: Action, r: Game, outcome: Result<Token, string>)
    requires a.Join? && EnterStep(c, g, sid, a, r, outcome) && outcome.Ok?
    ensures JoinGives(c, g, a, r) && outcome == Ok(a.token) && r.reg.tokens[a.token].session == sid
  {
  }

  lemma OpenedHosts(g: Game, info: MapInfo)
    ensures forall s, k :: s in Opened(g, info).hosted && k in Opened(g, info).hosted[s].state.board.dogs ==>
      s in g.hosted && s != g.reg.nextSession
      && Opened(g, info).hosted[s] == g.hosted[s]
  {
  }

  lemma JoinSucceeds(c: Config, g: Game, a: Action, r: Game, outcome: Result<Token, string>)
    requires c.Ok() && a.Join? && JoinStep(c, g, a, r, outcome) && outcome.Ok?
    ensures JoinGives(c, g, a, r) && outcome == Ok(a.token)
  {
    match a.found
    case At(k) => EnterGives(c, g, g.reg.listed[k].id, a, r, outcome);
    case NotFound =>
      OpenedHosts(g, c.maps[a.mapId]);
      EnterGives(c, Opened(g, c.maps[a.mapId]), g.reg.nextSession, a, r, outcome);
  }

  /** And it enters on the map that was asked for, as long as the table of sessions is right for it. */
  lemma JoinsItsMap(c: Config, g: Game, a: Action, r: Game, outcome: Result<Token, string>)
    requires c.Ok() && GameOk(c, g) && a.Join? && JoinStep(c, g, a, r, outcome) && outcome.Ok?
    requires RightFor(g.reg, a.mapId)
    ensures a.token in r.reg.tokens && r.reg.tokens[a.token].session in r.hosted
    ensures var info := r.hosted[r.reg.tokens[a.token].session].info;
      info.id == a.mapId && a.mapId in c.maps && info == c.maps[a.mapId]
  {
    match a.found
    case At(k) =>
      EnterGives(c, g, g.reg.listed[k].id, a, r, outcome);
      assert HostedOk(c, g.hosted[g.reg.listed[k].id]);
    case NotFound => EnterGives(c, Opened(g, c.maps[a.mapId]), g.reg.nextSession, a, r, outcome);
  }

  /** The dog of a token's player. */
  predicate DogAt(g: Game, sid: nat, dog: nat) { sid in g.hosted && dog in g.hosted[sid].state.board.dogs }

  function TheDog(g: Game, sid: nat, dog: nat): DogState
    requires DogAt(g, sid, dog)
  {
    g.hosted[sid].state.board.dogs[dog]
  }

  /** A move turns the player's dog and leaves every other dog of every session alone. */
  lemma MoveGives(g: Game, token: Token, direction: Option<Direction>, r: Game)
    requires MoveStep(g, token, direction, r, Ok(())) && token in g.reg.tokens
    ensures var p := g.reg.tokens[token];
      && r.reg == g.reg && DogAt(g, p.session, p.dog) && DogAt(r, p.session, p.dog)
      && r.hosted[p.session].info == g.hosted[p.session].info
      && TheDog(r, p.session, p.dog)
        == Commanded(TheDog(g, p.session, p.dog), direction, g.hosted[p.session].info.dogSpeed)
      && OnlyNew(g, p.session, p.dog, r)
  {
  }

  /** The dog has entered under this name at this place, and is on its way. */
  predicate OnItsWay(d: DogState, name: string, pos: Vec, direction: Option<Direction>, v: real) {
    && d.name == name && d.body.pos == pos && d.bag == [] && d.score == 0
    && match direction
       case Some(to) => d.direction == to && d.body.speed == DirectionToSpeed(to, v)
       case None => d.body.speed == ZERO
  }

  lemma CommandedOn(d: DogState, name: string, pos: Vec, direction: Option<Direction>, v: real)
    requires d.name == name && d.body.pos == pos && d.bag == [] && d.score == 0
    ensures OnItsWay(Commanded(d, direction, v), name, pos, direction, v)
  {
  }

  lemma OnlyNewTwice(g: Game, sid: nat, dog: nat, r: Game, q: Game)
    requires OnlyNew(g, sid, dog, r) && OnlyNew(r, sid, dog, q)
    ensures OnlyNew(g, sid, dog, q)
  {
  }

  /** Who joins and then moves: the dog of that name, at the place where it entered, is on its way as told, and no other
      dog of any session has noticed anything. */
  lemma JoinThenMove(c: Config, g: Game, a: Action, r: Game, direction: Option<Direction>, q: Game,
                     outcome: Result<(), string>)
    requires c.Ok() && GameOk(c, g) && a.Join? && JoinStep(c, g, a, r, Ok(a.token))
    requires MoveStep(r, a.token, direction, q, outcome)
    ensures outcome == Ok(()) && q.reg == r.reg && a.token in q.reg.tokens
    ensures var p := q.reg.tokens[a.token];
      && DogAt(q, p.session, p.dog) && OnlyNew(g, p.session, p.dog, q)
      && var info := q.hosted[p.session].info;
        a.road < |info.roads|
        && OnItsWay(TheDog(q, p.session, p.dog), a.name, SpawnPoint(info.roads, c.isRandom, a.road, a.phase),
                    direction, info.dogSpeed)
  {
    JoinSucceeds(c, g, a, r, Ok(a.token));
    JoinKeeps(c, g, a, r, Ok(a.token));
    MoveSucceeds(c, r, a.token, direction, q, outcome);
    MoveGives(r, a.token, direction, q);
    var p := r.reg.tokens[a.token];
    var info := r.hosted[p.session].info;
    CommandedOn(TheDog(r, p.session, p.dog), a.name, SpawnPoint(info.roads, c.isRandom, a.road, a.phase), direction,
      info.dogSpeed);
    OnlyNewTwice(g, p.session, p.dog, r, q);
  }

  lemma GenerateKeeps(c: Config, g: Game, sid: nat, draw: real, draws: seq<Draw>, r: Game)
    requires GameOk(c, g) && GenerateStep(g, sid, draw, draws, r)
    ensures WorldOf(r) == WorldOf(g) && GameOk(c, r)
  {
    var h := g.hosted[sid];
    DropAllCounter(h.info, h.state, draws);
    SamePenKeeps(c, g, sid, Sessions.Action.Generate(draw, draws), r.hosted[sid].state);
  }

  /** The dogs that retire in a tick. */
  function RetiredIn(g: Game, sid: nat, r: Game): set<nat>
    requires sid in g.hosted && sid in r.hosted
  {
    g.hosted[sid].state.board.dogs.Keys - r.hosted[sid].state.board.dogs.Keys
  }

  lemma TickDogs(m: MapInfo, ix: Index, limit: nat, s: SessionState, t: int, setup: Setup,
                 events: seq<GatheringEvent>, r: SessionState)
    requires Sessions.TickStep(m, ix, limit, s, t, setup, events, r)
    ensures r.board.dogs.Keys <= s.board.dogs.Keys && r.nextDog == s.nextDog
  {
  }

  lemma LeftAfter(all: set<nat>, left: set<nat>)
    requires left <= all
    ensures all - (all - left) == left && (all - left == {} <==> left == all)
  {
  }

  lemma TickedPens(hosted: map<nat, Hosted>, sid: nat, s: SessionState)
    requires sid in hosted && s.nextDog == hosted[sid].state.nextDog
    ensures PensOf(hosted[sid := hosted[sid].(state := s)])
      == PensOf(hosted)[sid := Pen(s.board.dogs.Keys, PensOf(hosted)[sid].next)]
  {
    PensUpdated(hosted, sid, hosted[sid].(state := s));
  }

  lemma SettledWorld(g: Game, sid: nat, s: SessionState, r: Game)
    requires Settled(g, sid, s, r) && s.nextDog == g.hosted[sid].state.nextDog
    requires s.board.dogs.Keys <= g.hosted[sid].state.board.dogs.Keys
    ensures var retired := g.hosted[sid].state.board.dogs.Keys - s.board.dogs.Keys;
      ApplicationRuns.TickStep(WorldOf(g), sid, retired, WorldOf(r))
  {
    TickedPens(g.hosted, sid, s);
    LeftAfter(g.hosted[sid].state.board.dogs.Keys, s.board.dogs.Keys);
  }

  lemma TickWorld(c: Config, g: Game, sid: nat, t: int, setup: Setup, events: seq<GatheringEvent>, r: Game)
    requires TickStep(c, g, sid, t, setup, events, r)
    ensures ApplicationRuns.TickStep(WorldOf(g), sid, RetiredIn(g, sid, r), WorldOf(r))
  {
    var h, s := g.hosted[sid], r.hosted[sid].state;
    TickDogs(h.info, IndexOf(h.info.roads), c.limit, h.state, t, setup, events, s);
    SettledWorld(g, sid, s, r);
  }

  lemma TickKeeps(c: Config, g: Game, sid: nat, t: int, setup: Setup, events: seq<GatheringEvent>, r: Game)
    requires GameOk(c, g) && TickStep(c, g, sid, t, setup, events, r)
    ensures GameOk(c, r)
  {
    TickWorld(c, g, sid, t, setup, events, r);
    ApplicationRuns.TickKeeps(WorldOf(g), sid, RetiredIn(g, sid, r), WorldOf(r));
    BecameOk(c, g, sid, Sessions.Action.Advance(t, setup, events), r.hosted[sid].state);
    TickList(WorldOf(g), sid, RetiredIn(g, sid, r), WorldOf(r));
    UnlistedExact(g.reg.listed, sid);
    forall k | 0 <= k < |r.reg.listed| ensures r.reg.listed[k] in g.reg.listed {
      assert r.reg.listed[k] in r.reg.listed;
    }
  }

  lemma NextKeeps(c: Config, g: Game, a: Action, r: Game)
    requires c.Ok() && GameOk(c, g) && Next(c, g, a, r)
    ensures GameOk(c, r)
  {
    match a
    case Join(_, _, _, _, _, _) =>
      var outcome :| JoinStep(c, g, a, r, outcome);
      JoinKeeps(c, g, a, r, outcome);
    case Move(token, direction) =>
      var outcome :| MoveStep(g, token, direction, r, outcome);
      MoveSucceeds(c, g, token, direction, r, outcome);
    case Generate(sid, draw, draws) => GenerateKeeps(c, g, sid, draw, draws, r);
    case Tick(sid, t, setup, events) => TickKeeps(c, g, sid, t, setup, events, r);
  }

  /* ---- whole runs ---- */

  /** `trace[i]` is the state before action `i`. */
  ghost predicate IsRun(c: Config, actions: seq<Action>, trace: seq<Game>) {
    && |trace| == |actions| + 1 && trace[0] == NO_GAME
    && forall i {:trigger StepAt(c, actions, trace, i)} :: 0 <= i < |actions| ==> StepAt(c, actions, trace, i)
  }

  ghost predicate StepAt(c: Config, actions: seq<Action>, trace: seq<Game>, i: int) {
    0 <= i < |actions| && i + 1 < |trace| && Next(c, trace[i], actions[i], trace[i + 1])
  }

  /** In every reachable state of the server the containers agree with the dogs, and every session is in a state
      that a run of its own leads to; so all that holds on session runs holds of every session here. */
  lemma {:induction false} RunKeeps(c: Config, actions: seq<Action>, trace: seq<Game>, i: nat)
    requires c.Ok() && IsRun(c, actions, trace) && i < |trace|
    ensures GameOk(c, trace[i])
  {
    if i == 0 {
      NewGameOk(c);
    } else {
      RunKeeps(c, actions, trace, i - 1);
      assert StepAt(c, actions, trace, i - 1);
      NextKeeps(c, trace[i - 1], actions[i - 1], trace[i]);
    }
  }

  /** The containers' action of a step, if it is one at all. */
  function WorldAction(g: Game, a: Action, r: Game): Option<ApplicationRuns.Action> {
    match a
    case Join(mapId, name, token, found, _, _) => Some(ApplicationRuns.Action.Join(mapId, name, token, found))
    case Tick(sid, _, _, _) =>
      if sid in g.hosted && sid in r.hosted then Some(ApplicationRuns.Action.Tick(sid, RetiredIn(g, sid, r))) else None
    case Move(_, _) => None
    case Generate(_, _, _) => None
  }

  lemma EnterWorldStep(c: Config, g: Game, sid: nat, a: Action, r: Game, outcome: Result<Token, string>)
    requires a.Join? && EnterStep(c, g, sid, a, r, outcome)
    ensures a.name == "" ==> WorldOf(r) == WorldOf(g) && outcome == Err(BAD_NAME)
    ensures a.name != "" ==> outcome == Ok(a.token) && a.token !in g.reg.tokens
    ensures a.name != "" ==> sid in g.hosted && WorldOf(r) == ApplicationRuns.Entered(WorldOf(g), sid, a.token)
  {
    if a.name != "" {
      EnteredWorld(g, sid, a.name, SpawnPoint(g.hosted[sid].info.roads, c.isRandom, a.road, a.phase), a.token);
    }
  }

  lemma JoinWorld(c: Config, g: Game, a: Action, r: Game, outcome: Result<Token, string>)
    requires c.Ok() && GameOk(c, g) && a.Join? && JoinStep(c, g, a, r, outcome)
    ensures ApplicationRuns.JoinStep(
      c.maps.Keys, WorldOf(g), ApplicationRuns.Action.Join(a.mapId, a.name, a.token, a.found), WorldOf(r), outcome)
  {
    match a.found
    case At(k) => EnterWorldStep(c, g, g.reg.listed[k].id, a, r, outcome);
    case NotFound =>
      if a.mapId in c.maps {
        OpenedWorld(g, c.maps[a.mapId]);
        EnterWorldStep(c, Opened(g, c.maps[a.mapId]), g.reg.nextSession, a, r, outcome);
      }
  }

  /** A step of the server is a step of the containers, or does not concern them. */
  lemma NextWorld(c: Config, g: Game, a: Action, r: Game)
    requires c.Ok() && GameOk(c, g) && Next(c, g, a, r)
    ensures match WorldAction(g, a, r)
      case Some(b) => ApplicationRuns.Next(c.maps.Keys, WorldOf(g), b, WorldOf(r))
      case None => WorldOf(r) == WorldOf(g)
  {
    match a
    case Join(_, _, _, _, _, _) =>
      var outcome :| JoinStep(c, g, a, r, outcome);
      JoinWorld(c, g, a, r, outcome);
    case Move(token, direction) =>
      var outcome :| MoveStep(g, token, direction, r, outcome);
      MoveSucceeds(c, g, token, direction, r, outcome);
    case Generate(sid, draw, draws) => GenerateKeeps(c, g, sid, draw, draws, r);
    case Tick(sid, t, setup, events) => TickWorld(c, g, sid, t, setup, events, r);
  }

  ghost predicate WorldRunTo(c: Config, actions: seq<ApplicationRuns.Action>, trace: seq<World>, w: World) {
    ApplicationRuns.IsRun(c.maps.Keys, actions, trace) && trace[|actions|] == w
  }

  lemma {:induction false} OneWorldMore(c: Config, actions: seq<ApplicationRuns.Action>, trace: seq<World>, w: World,
                                        a: ApplicationRuns.Action, r: World)
    requires WorldRunTo(c, actions, trace, w) && ApplicationRuns.Next(c.maps.Keys, w, a, r)
    ensures WorldRunTo(c, actions + [a], trace + [r], r)
  {
    var (longer, states) := (actions + [a], trace + [r]);
    forall i | 0 <= i < |longer| ensures ApplicationRuns.StepAt(c.maps.Keys, longer, states, i) {
      if i < |actions| {
        assert ApplicationRuns.StepAt(c.maps.Keys, actions, trace, i);
      }
    }
  }

  /** Every run of the server is a run of its containers, with the steps left out that do not concern them. */
  lemma {:induction false} RunOfContainers(c: Config, actions: seq<Action>, trace: seq<Game>, i: nat)
    returns (worldActions: seq<ApplicationRuns.Action>, worlds: seq<World>)
    requires c.Ok() && IsRun(c, actions, trace) && i < |trace|
    ensures WorldRunTo(c, worldActions, worlds, WorldOf(trace[i]))
  {
    if i == 0 {
      NewGameOk(c);
      worldActions, worlds := [], [START];
    } else {
      worldActions, worlds := RunOfContainers(c, actions, trace, i - 1);
      var g, a, r := trace[i - 1], actions[i - 1], trace[i];
      RunKeeps(c, actions, trace, i - 1);
      assert StepAt(c, actions, trace, i - 1);
      NextWorld(c, g, a, r);
      match WorldAction(g, a, r) {
        case Some(b) =>
          OneWorldMore(c, worldActions, worlds, WorldOf(g), b, WorldOf(r));
          worldActions, worlds := worldActions + [b], worlds + [WorldOf(r)];
        case None =>
      }
    }
  }

  /* ---- a restart ---- */

  function BoardsOf(g: Game): map<nat, Board> { map sid | sid in g.hosted :: g.hosted[sid].state.board }

  /** What a save and a restore need, every reachable state has. */
  lemma GameSavable(c: Config, g: Game)
    requires GameOk(c, g)
    ensures Savable(g.reg, BoardsOf(g))
  {
    forall k | 0 <= k < |g.reg.listed| ensures SessionSavable(g.reg, BoardsOf(g), g.reg.listed[k].id) {
      HostedSavable(c, g, k);
    }
  }

  lemma HostedSavable(c: Config, g: Game, k: nat)
    requires GameOk(c, g) && k < |g.reg.listed|
    ensures g.reg.listed[k].id in g.hosted && SessionSavable(g.reg, BoardsOf(g), g.reg.listed[k].id)
  {
    var sid := g.reg.listed[k].id;
    var h := g.hosted[sid];
    assert HostedOk(c, h) && IsListed(g.reg, sid) && SessionOk(WorldOf(g), sid);
    ReachedInv(h.info, c.limit, h.state);
    forall id | id in h.state.board.dogs ensures h.state.board.dogs[id].id == id {
      assert DogFine(h.info, h.state.board.dogs[id], id, h.state.nextDog, h.state.nextLost);
    }
  }

  /** From any reachable state of the server: the records of a save, written to the archive and read back from it,
      are accepted whole, and the game comes back. */
  lemma {:induction false} RestartKeeps(c: Config, actions: seq<Action>, trace: seq<Game>, i: nat,
                                        records: seq<SessionRepr>)
    requires c.Ok() && IsRun(c, actions, trace) && i < |trace|
    requires SavedGame(trace[i].reg, BoardsOf(trace[i]), records)
    ensures GameC().get(GameC().put(records)) == Some((records, []))
    ensures RestoredGame(EMPTY, records).Ok?
    ensures ComesBack(trace[i].reg, BoardsOf(trace[i]), RestoredGame(EMPTY, records).value.0, StatesBack(records))
    ensures forall k :: 0 <= k < |records| ==> (
      records[k].id in RestoredGame(EMPTY, records).value.1
      && RestoredGame(EMPTY, records).value.1[records[k].id] == StatesBack(records)[k])
  {
    RunKeeps(c, actions, trace, i);
    GameSavable(c, trace[i]);
    ArchiveKeeps(records);
    RestoreSucceeds(trace[i].reg, BoardsOf(trace[i]), records);
  }

  lemma ArchiveKeeps(records: seq<SessionRepr>)
    ensures GameC().get(GameC().put(records)) == Some((records, []))
  {
    GameRoundTrip(records, GameC().put(records), []);
    assert GameC().put(records) + [] == GameC().put(records);
  }

  lemma {:induction false} RestoreSucceeds(reg: Registry, boards: map<nat, Board>, records: seq<SessionRepr>)
    requires Savable(reg, boards) && SavedGame(reg, boards, records)
    ensures RestoredGame(EMPTY, records) == Ok((AllSessions(EMPTY, records), SessionsBack(records)))
    ensures ComesBack(reg, boards, AllSessions(EMPTY, records), StatesBack(records))
    ensures forall k :: 0 <= k < |records| ==>
      records[k].id in SessionsBack(records) && SessionsBack(records)[records[k].id] == StatesBack(records)[k]
  {
    AllComesBack(reg, boards, records);
    RestoredGameIs(EMPTY, records);
    RecordIdsDiffer(reg, boards, records);
    StatesAt(records);
  }

  lemma {:induction false} RecordIdsDiffer(reg: Registry, boards: map<nat, Board>, records: seq<SessionRepr>)
    requires Savable(reg, boards) && SavedGame(reg, boards, records)
    ensures forall i, j :: 0 <= i < j < |records| ==> records[i].id != records[j].id
  {
    forall i, j | 0 <= i < j < |records| ensures records[i].id != records[j].id {
      assert SavedSession(reg, boards, reg.listed[i], records[i]);
      assert SavedSession(reg, boards, reg.listed[j], records[j]);
    }
  }

  lemma {:induction false} StatesAt(records: seq<SessionRepr>)
    requires forall i, j :: 0 <= i < j < |records| ==> records[i].id != records[j].id
    ensures forall k :: 0 <= k < |records| ==>
      records[k].id in SessionsBack(records) && SessionsBack(records)[records[k].id] == StatesBack(records)[k]
  {
    forall k | 0 <= k < |records|
      ensures records[k].id in SessionsBack(records) && SessionsBack(records)[records[k].id] == StatesBack(records)[k]
    {
      SessionBackAt(records, k);
    }
  }

  lemma RecordsHaveMaps(c: Config, g: Game, records: seq<SessionRepr>)
    requires c.Ok() && GameOk(c, g) && SavedGame(g.reg, BoardsOf(g), records)
    ensures forall k :: 0 <= k < |records| ==>
      records[k].mapId in c.maps && c.maps[records[k].mapId].id == records[k].mapId
  {
    forall k | 0 <= k < |records| ensures records[k].mapId in c.maps {
      assert SavedSession(g.reg, BoardsOf(g), g.reg.listed[k], records[k]);
      assert HostedOk(c, g.hosted[g.reg.listed[k].id]);
    }
  }

  /** All that a restart needs of the records of a save, and what it brings back. */
  lemma {:induction false} SavedComesBack(c: Config, g: Game, records: seq<SessionRepr>)
    requires c.Ok() && GameOk(c, g) && SavedGame(g.reg, BoardsOf(g), records)
    ensures forall k :: 0 <= k < |records| ==>
      records[k].mapId in c.maps && c.maps[records[k].mapId].id == records[k].mapId
    ensures GameC().get(GameC().put(records)) == Some((records, []))
    ensures forall k :: 0 <= k < |records| ==> BagsFit(records[k].players)
    ensures ComesBack(g.reg, BoardsOf(g), AllSessions(EMPTY, records), StatesBack(records))
  {
    RecordsHaveMaps(c, g, records);
    ArchiveKeeps(records);
    GameSavable(c, g);
    AllComesBack(g.reg, BoardsOf(g), records);
  }
}
