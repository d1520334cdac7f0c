/** Players, tokens and the application as objects, refining the state machine. */
module Applications {
  import opened Wrappers
  import opened Geometry
  import opened RoadIndices
  import opened Movement
  import opened Dogs
  import opened CollisionDetector
  import opened Gathering
  import opened Sessions
  import opened LootGenerators
  import opened GameSessions
  import opened Registries
  import opened ApplicationRuns
  import opened Serialization
  import opened SavedGames
  import opened Games

  class Players {
    var bySession: map<nat, map<nat, Player>>
    var nextId: nat

    constructor ()
      ensures bySession == map[] && nextId == 0
    {
      bySession, nextId := map[], 0;
    }

    method Insert(p: Player)
      modifies this`bySession
      ensures bySession == Inserted(old(bySession), p)
    {
      if p.session in bySession {
        bySession := bySession[p.session := Emplace(bySession[p.session], p.id, p)];
      } else {
        bySession := bySession[p.session := map[p.id := p]];
      }
    }

    /** A new player under the next id. */
    method Add(dog: nat, session: nat) returns (p: Player)
      modifies this
      ensures p == Player(old(nextId), session, dog) && nextId == old(nextId) + 1
      ensures bySession == Inserted(old(bySession), p)
    {
      p := Player(nextId, session, dog);
      Insert(p);
      nextId := nextId + 1;
    }

    /** A restored player under its own id. */
    method Readmit(p: Player)
      modifies this
      ensures nextId == if p.id >= old(nextId) then p.id + 1 else old(nextId)
      ensures bySession == Inserted(old(bySession), p)
    {
      if p.id >= nextId {
        nextId := p.id + 1;
      }
      Insert(p);
    }

    function FindPlayersBySessionId(session: nat): (r: Option<map<nat, Player>>)
      reads this
      ensures r.Some? <==> session in bySession
      ensures r.Some? ==> r.value == bySession[session]
    {
      if session in bySession then Some(bySession[session]) else None
    }

    method ErasePlayerFromSession(session: nat, id: nat)
      requires session in bySession && id in bySession[session]
      modifies this`bySession
      ensures bySession == old(bySession)[session := old(bySession)[session] - {id}]
    {
      bySession := bySession[session := bySession[session] - {id}];
    }

    method EraseSession(session: nat)
      requires session in bySession
      modifies this`bySession
      ensures bySession == old(bySession) - {session}
    {
      bySession := bySession - {session};
    }
  }

  /** The generators' first token that is not among these is number `i`. */
  predicate FirstNew(generate: nat -> Token, taken: set<Token>, i: nat) {
    generate(i) !in taken && forall j: nat :: j < i ==> generate(j) in taken
  }

  class PlayersToken {
    var tokens: map<Token, Player>
    var idToToken: map<nat, Token>

    constructor ()
      ensures tokens == map[] && idToToken == map[]
    {
      tokens, idToToken := map[], map[];
    }

    function FindPlayerByToken(token: Token): (r: Option<Player>)
      reads this
      ensures r.Some? <==> token in tokens
      ensures r.Some? ==> r.value == tokens[token]
    {
      if token in tokens then Some(tokens[token]) else None
    }

    /** The program's function has no result for an unknown id. */
    function FindTokenByPlayerId(id: nat): (token: Token)
      requires id in idToToken
      reads this
    {
      idToToken[id]
    }

    /** Draws tokens until one is new, and takes that; that a new one comes is assumed of the generators. */
    method AddPlayer(p: Player, generate: nat -> Token, ghost enough: nat) returns (token: Token)
      requires generate(enough) !in tokens
      modifies this
      ensures exists i: nat :: token == generate(i) && FirstNew(generate, old(tokens).Keys, i)
      ensures tokens == Emplace(old(tokens), token, p) && idToToken == Emplace(old(idToToken), p.id, token)
    {
      var i := 0;
      token := generate(i);
      while token in tokens
        invariant i <= enough && token == generate(i) && forall j: nat :: j < i ==> generate(j) in tokens
        decreases enough - i
      {
        i := i + 1;
        token := generate(i);
      }
      assert FirstNew(generate, tokens.Keys, i);
      tokens := tokens[token := p];
      idToToken := Emplace(idToToken, p.id, token);
    }

    /** A restored player keeps its token. */
    method Readmit(p: Player, token: Token)
      modifies this
      ensures tokens == Emplace(old(tokens), token, p) && idToToken == Emplace(old(idToToken), p.id, token)
    {
      idToToken := Emplace(idToToken, p.id, token);
      tokens := Emplace(tokens, token, p);
    }

    method EraseTokenByPlayerId(id: nat)
      requires id in idToToken && idToToken[id] in tokens
      modifies this
      ensures tokens == old(tokens) - {old(idToToken)[id]} && idToToken == old(idToToken) - {id}
    {
      var token := idToToken[id];
      tokens := tokens - {token};
      idToToken := idToToken - {id};
    }
  }

  function ListedOf(sessions: seq<GameSession>): (r: seq<Listed>)
    ensures |r| == |sessions|
    ensures forall k :: 0 <= k < |r| ==> r[k] == Listed(sessions[k].id, sessions[k].info.id)
  {
    seq(|sessions|, k requires 0 <= k < |sessions| => Listed(sessions[k].id, sessions[k].info.id))
  }

  class Application {
    const maps: map<string, MapInfo>
    const randomizeSpawnPoints: bool
    const lootInterval: int
    const limit: nat
    const players: Players
    const playerTokens: PlayersToken
    var sessions: seq<GameSession>
    var table: map<string, map<nat, nat>>
    var nextSession: nat
    /** The state of every session ever opened. */
    ghost var hosted: map<nat, Hosted>
    ghost var dropped: bool

    function Settings(): Config { Config(maps, randomizeSpawnPoints, limit) }

    ghost function Reg(): Registry
      reads this`sessions, this`table, this`nextSession, players, playerTokens
    {
      Registry(players.bySession, players.nextId, playerTokens.tokens, playerTokens.idToToken,
               ListedOf(sessions), table, nextSession)
    }

    ghost function View(): Game
      reads this, players, playerTokens
    {
      Game(Reg(), hosted, dropped)
    }

    ghost predicate Fits(s: GameSession)
      reads this`hosted, s, s.index, s.dogs.Values
    {
      s.Valid() && s.limit == limit && s.id in hosted && hosted[s.id] == Hosted(s.info, s.View())
    }

    /** No two sessions share a dog. */
    ghost predicate Apart()
      reads this`sessions, sessions
    {
      forall s, t :: s in sessions && t in sessions && s != t ==> s.dogs.Values !! t.dogs.Values
    }

    ghost predicate SessionsOk()
      reads this, sessions, set s | s in sessions :: s.index, set s, d | s in sessions && d in s.dogs.Values :: d
    {
      && DistinctIds(ListedOf(sessions)) && Apart()
      && forall s :: s in sessions ==> Fits(s)
    }

    ghost predicate Valid()
      reads this, players, playerTokens
      reads sessions, set s | s in sessions :: s.index, set s, d | s in sessions && d in s.dogs.Values :: d
    {
      Settings().Ok() && SessionsOk() && GameOk(Settings(), View())
    }

    /** Nothing that a session is judged by has changed. */
    twostate lemma FitsStill(s: GameSession)
      requires old(Fits(s)) && unchanged(s) && unchanged(s.index) && unchanged(old(s.dogs.Values))
      requires s.id in hosted && hosted[s.id] == old(hosted)[s.id]
      ensures Fits(s)
    {
      SameView(s);
    }

    twostate lemma SameView(session: GameSession)
      requires unchanged(session) && unchanged(old(session.dogs.Values))
      ensures session.View() == old(session.View())
    {
      assert session.DogStates() == old(session.DogStates());
    }

    /** All is well but for one session. */
    ghost predicate Others(session: GameSession)
      reads this, sessions, set s | s in sessions :: s.index, set s, d | s in sessions && d in s.dogs.Values :: d
    {
      && session in sessions && DistinctIds(ListedOf(sessions)) && Apart()
      && forall s :: s in sessions && s != session ==> Fits(s)
    }

    /** If nothing but this session, its dogs and its loot generator has changed, and its new dogs are nobody
        else's, the others are still well. */
    twostate lemma OthersStill(session: GameSession)
      requires old(SessionsOk()) && session in sessions && unchanged(`sessions) && unchanged(`hosted)
      requires forall s :: s in sessions && s != session ==>
        unchanged(s) && unchanged(s.index) && unchanged(old(s.dogs.Values))
      requires forall d :: d in session.dogs.Values ==> fresh(d) || d in old(session.dogs.Values)
      ensures Others(session)
    {
      forall s | s in sessions && s != session ensures Fits(s) {
        assert old(Fits(s));
        FitsStill(s);
      }
      forall s, t | s in sessions && t in sessions && s != t ensures s.dogs.Values !! t.dogs.Values {
        assert old(s.dogs.Values !! t.dogs.Values);
      }
    }

    /** Nothing that the sessions are judged by has changed. */
    twostate lemma AllStill()
      requires old(SessionsOk()) && unchanged(`sessions) && unchanged(`hosted)
      requires forall s :: s in sessions ==> unchanged(s) && unchanged(s.index) && unchanged(old(s.dogs.Values))
      ensures SessionsOk()
    {
      forall s | s in sessions ensures Fits(s) {
        assert old(Fits(s));
        FitsStill(s);
      }
      forall s, t | s in sessions && t in sessions && s != t ensures s.dogs.Values !! t.dogs.Values {
        assert old(s.dogs.Values !! t.dogs.Values);
      }
    }

    constructor (maps: map<string, MapInfo>, randomizeSpawnPoints: bool, lootInterval: int, limit: nat)
      requires forall m :: m in maps ==> maps[m].id == m && maps[m].roads != []
      ensures Valid() && View() == NO_GAME && sessions == [] && fresh(players) && fresh(playerTokens)
      ensures Settings() == Config(maps, randomizeSpawnPoints, limit)
    {
      this.maps, this.randomizeSpawnPoints := maps, randomizeSpawnPoints;
      this.lootInterval, this.limit := lootInterval, limit;
      players := new Players();
      playerTokens := new PlayersToken();
      sessions, table, nextSession := [], map[], 0;
      hosted, dropped := map[], false;
      new;
      NewGameOk(Settings());
    }

    /* ---- sessions ---- */

    /** The place recorded for any one session of the map. */
    method FindSessionsByMapId(mapId: string) returns (r: Lookup)
      ensures Finds(Reg(), mapId, r)
    {
      if mapId in table && table[mapId] != map[] {
        var sid :| sid in table[mapId];
        r := At(table[mapId][sid]);
      } else {
        r := NotFound;
      }
    }

    /** What both overloads of `AddSession` do with the list and the table. */
    method Record(session: GameSession)
      modifies this`sessions, this`table
      ensures sessions == old(sessions) + [session]
      ensures Reg() == Recorded(old(Reg()), Listed(session.id, session.info.id))
    {
      var place: nat := |sessions|;
      var mapId := session.info.id;
      sessions := sessions + [session];
      if mapId in table {
        table := table[mapId := Emplace(table[mapId], session.id, place)];
      } else {
        var entry: map<nat, nat> := map[session.id := place];
        table := table[mapId := entry];
      }
    }

    twostate lemma OneMoreSession(session: GameSession)
      requires old(SessionsOk()) && sessions == old(sessions) + [session] && session.dogs == map[]
      requires session.Valid() && session.limit == limit
      requires hosted == old(hosted)[session.id := Hosted(session.info, session.View())]
      requires forall s :: s in old(sessions) ==>
        s.id < session.id && unchanged(s) && unchanged(s.index) && unchanged(old(s.dogs.Values))
      ensures SessionsOk()
    {
      forall s | s in old(sessions) ensures Fits(s) {
        assert old(Fits(s));
        FitsStill(s);
      }
      forall s, t | s in sessions && t in sessions && s != t ensures s.dogs.Values !! t.dogs.Values {
        assert s in old(sessions) && t in old(sessions) ==> old(s.dogs.Values !! t.dogs.Values);
      }
    }

    /** A new session under the next id joins the list. */
    method Open(session: GameSession)
      requires SessionsOk() && session.Valid() && session.limit == limit
      requires session.id == nextSession && session.dogs == map[] && session.View() == FRESH
      requires forall s :: s in sessions ==> s.id < nextSession
      modifies this
      ensures SessionsOk() && sessions == old(sessions) + [session]
      ensures View() == Games.Opened(old(View()), session.info)
    {
      Record(session);
      nextSession := nextSession + 1;
      hosted := hosted[session.id := Hosted(session.info, FRESH)];
      SameView(session);
      OneMoreSession(session);
    }

    lemma IdsBelowCounter()
      requires ListedOk(Reg())
      ensures forall s :: s in sessions ==> s.id < nextSession
    {
      forall s | s in sessions ensures s.id < nextSession {
        var k :| 0 <= k < |sessions| && sessions[k] == s;
        assert Reg().listed[k].id == s.id;
      }
    }

    method AddSession(info: MapInfo) returns (session: GameSession)
      requires Valid() && info.id in maps && maps[info.id] == info
      modifies this
      ensures Valid() && fresh(session) && sessions == old(sessions) + [session]
      ensures session.id == old(nextSession) && session.info == info
      ensures View() == Games.Opened(old(View()), info)
    {
      ghost var before := View();
      OpenedOk(Settings(), before, info.id);
      IdsBelowCounter();
      session := new GameSession(nextSession, info, lootInterval, limit);
      AllStill();
      Open(session);
      assert View() == Games.Opened(before, info);
    }

    lemma OtherId(s: GameSession, t: GameSession)
      requires DistinctIds(ListedOf(sessions)) && s in sessions && t in sessions
      ensures s != t ==> s.id != t.id
    {
      var i :| 0 <= i < |sessions| && sessions[i] == s;
      var j :| 0 <= j < |sessions| && sessions[j] == t;
      assert ListedOf(sessions)[i].id == s.id && ListedOf(sessions)[j].id == t.id;
    }

    /** The session has taken a step of its own, to state `s`. */
    ghost method Update(session: GameSession, s: SessionState)
      requires Others(session) && session.Valid() && session.limit == limit && session.View() == s
      requires session.id in hosted && hosted[session.id].info == session.info
      modifies this`hosted
      ensures SessionsOk() && View() == Became(old(View()), session.id, s)
      ensures session.View() == s
    {
      hosted := hosted[session.id := Hosted(session.info, s)];
      SameView(session);
      forall t | t in sessions && t != session ensures Fits(t) {
        OtherId(session, t);
        assert old(Fits(t));
        FitsStill(t);
      }
    }

    /* ---- joining ---- */

    /** The dog of a new player. */
    method AddDog(session: GameSession, name: string, spawn: Vec) returns (dog: nat)
      requires SessionsOk() && session in sessions
      modifies this`hosted, session`dogs, session`nextDog
      ensures SessionsOk() && session.id in old(hosted) && dog == old(hosted)[session.id].state.nextDog
      ensures var h := old(hosted)[session.id];
        hosted == old(hosted)[session.id := h.(state := Joined(h.info, h.state, name, spawn))]
    {
      assert Fits(session);
      var d := session.AddDog(name, spawn);
      dog := d.id;
      OthersStill(session);
      Update(session, session.View());
    }

    /** The part of `Join` after the name check. */
    method Enter(session: GameSession, name: string, spawn: Vec, generate: nat -> Token, ghost enough: nat)
      returns (token: Token, id: nat)
      requires SessionsOk() && session in sessions && generate(enough) !in playerTokens.tokens
      modifies this`hosted, players, playerTokens, session`dogs, session`nextDog
      ensures SessionsOk() && token !in old(playerTokens.tokens) && id == old(players.nextId)
      ensures session.id in old(hosted) && View() == Games.Entered(old(View()), session.id, name, spawn, token)
    {
      var dog := AddDog(session, name, spawn);
      label Added:
      id, token := Admit(dog, session.id, generate, enough);
      AllStill@Added();
    }

    lemma IsOneOf(session: GameSession)
      requires session in sessions
      ensures IsListed(Reg(), session.id)
    {
      var k :| 0 <= k < |sessions| && sessions[k] == session;
      assert Reg().listed[k].id == session.id;
    }

    /** A player and its token, for a dog that is already in the session. */
    method Admit(dog: nat, session: nat, generate: nat -> Token, ghost enough: nat) returns (id: nat, token: Token)
      requires generate(enough) !in playerTokens.tokens
      modifies players, playerTokens
      ensures token !in old(playerTokens.tokens) && id == old(players.nextId)
      ensures Reg() == Enrolled(old(Reg()), session, dog, token)
    {
      var p := players.Add(dog, session);
      token := playerTokens.AddPlayer(p, generate, enough);
      id := p.id;
    }

    /** `Join`: `pick` is the uniform choice of a road, `generate` the two token generators. */
    method Join(session: GameSession, mapId: string, name: string, pick: nat -> nat, phase: real,
                generate: nat -> Token, ghost enough: nat, ghost found: Lookup)
      returns (r: Result<(Token, nat), string>, ghost road: nat)
      requires Valid() && session in sessions && 0.0 <= phase <= 1.0
      requires (forall n :: n > 0 ==> pick(n) < n) && generate(enough) !in playerTokens.tokens
      modifies this`hosted, players, playerTokens, session`dogs, session`nextDog
      ensures Valid() && road == pick(|session.info.roads|)
      ensures var a := JoinAction(mapId, name, r, found, road, phase);
        EnterStep(Settings(), old(View()), session.id, a, View(), OutcomeOf(r))
      ensures r.Ok? ==> r.value.1 == old(players.nextId)
    {
      assert Fits(session);
      ghost var before := View();
      HasRoads(session);
      IsOneOf(session);
      var roads := session.info.roads;
      road := pick(|roads|);
      if name == "" {
        return Err(BAD_NAME), road;
      }
      var spawn := SpawnPoint(roads, randomizeSpawnPoints, pick(|roads|), phase);
      var token, id := Enter(session, name, spawn, generate, enough);
      r := Ok((token, id));
      Entered(before, session.id, JoinAction(mapId, name, r, found, road, phase));
    }

    lemma Entered(before: Game, sid: nat, a: Games.Action)
      requires GameOk(Settings(), before) && IsListed(before.reg, sid) && sid in before.hosted
      requires a.Join? && a.name != "" && a.token !in before.reg.tokens && 0.0 <= a.phase <= 1.0
      requires a.road < |before.hosted[sid].info.roads|
      requires var spawn := SpawnPoint(before.hosted[sid].info.roads, randomizeSpawnPoints, a.road, a.phase);
        View() == Games.Entered(before, sid, a.name, spawn, a.token)
      ensures EnterStep(Settings(), before, sid, a, View(), Ok(a.token)) && GameOk(Settings(), View())
    {
      EnterKeeps(Settings(), before, sid, a, View(), Ok(a.token));
    }

    lemma HasRoads(session: GameSession)
      requires Valid() && session in sessions
      ensures session.info.roads != []
    {
      assert Fits(session) && HostedOk(Settings(), hosted[session.id]);
    }

    ghost function JoinAction(mapId: string, name: string, r: Result<(Token, nat), string>, found: Lookup,
                              road: nat, phase: real): Games.Action
    {
      Games.Action.Join(mapId, name, if r.Ok? then r.value.0 else "", found, road, phase)
    }

    function OutcomeOf(r: Result<(Token, nat), string>): Result<Token, string> {
      match r
      case Ok(v) => Ok(v.0)
      case Err(e) => Err(e)
    }

    /** `JoinGame`. Where the program indexes the list of sessions past its end, `stray` says so, and nothing
        has happened; `LookupRightIffNoneDropped` tells when to expect it. */
    method JoinGame(mapId: string, name: string, pick: nat -> nat, phase: real, generate: nat -> Token,
                    ghost enough: nat)
      returns (r: Result<(Token, nat), string>, stray: bool, ghost found: Lookup, ghost road: nat)
      requires Valid() && 0.0 <= phase <= 1.0
      requires (forall n :: n > 0 ==> pick(n) < n) && generate(enough) !in playerTokens.tokens
      modifies this, players, playerTokens, sessions
      ensures Valid() && Finds(old(Reg()), mapId, found)
      ensures stray <==> found.At? && found.index >= old(|sessions|)
      ensures stray ==> View() == old(View())
      ensures var a := JoinAction(mapId, name, r, found, road, phase);
        !stray ==> Games.JoinStep(Settings(), old(View()), a, View(), OutcomeOf(r))
    {
      var place := FindSessionsByMapId(mapId);
      found, stray := place, false;
      AllStill();
      match place {
        case At(k) =>
          if k >= |sessions| {
            return Err("no such place"), true, found, 0;
          }
          assert Reg().listed[k].id == sessions[k].id;
          r, road := Join(sessions[k], mapId, name, pick, phase, generate, enough, found);
        case NotFound =>
          if mapId in maps {
            var session := AddSession(maps[mapId]);
            r, road := Join(session, mapId, name, pick, phase, generate, enough, found);
          } else {
            r, road := Err(BAD_MAP), 0;
          }
      }
    }

    /* ---- steering and loot ---- */

    lemma SomeSession(sid: nat)
      requires IsListed(Reg(), sid)
      ensures exists s :: s in sessions && s.id == sid
    {
      var k :| 0 <= k < |sessions| && Reg().listed[k].id == sid;
      assert sessions[k] in sessions && sessions[k].id == sid;
    }

    method Turn(session: GameSession, dog: nat, direction: Option<Direction>) returns (r: Result<(), string>)
      requires SessionsOk() && session in sessions
      modifies this`hosted, session.dogs.Values
      ensures SessionsOk() && session.id in old(hosted)
      ensures var h := old(hosted)[session.id];
        match Directed(h.info, h.state, dog, direction)
        case Ok(s) => r.Ok? && View() == Became(old(View()), session.id, s)
        case Err(e) => r == Err(e) && View() == old(View())
    {
      assert Fits(session);
      r := session.SetDogDirection(dog, direction);
      OthersStill(session);
      Update(session, session.View());
    }

    method Steer(session: GameSession, ghost token: Token, p: Player, direction: Option<Direction>)
      requires Valid() && session in sessions && token in playerTokens.tokens && playerTokens.tokens[token] == p
      requires p.session == session.id
      modifies this`hosted, session.dogs.Values
      ensures Valid() && MoveStep(old(View()), token, direction, View(), Ok(()))
    {
      ghost var before := View();
      PlayersHaveDogs(Settings(), before, token);
      var r := Turn(session, p.dog, direction);
      MoveSucceeds(Settings(), before, token, direction, View(), Ok(()));
    }

    lemma SomeSessionOf(token: Token)
      requires Valid() && token in playerTokens.tokens
      ensures exists s :: s in sessions && s.id == playerTokens.tokens[token].session
    {
      PlayersHaveDogs(Settings(), View(), token);
      SomeSession(playerTokens.tokens[token].session);
    }

    /** `MovePlayerUseCase::Move`: an unknown token does nothing, and a known one never fails. The search stands
        for the pointer that the player holds. */
    method MovePlayer(token: Token, direction: Option<Direction>)
      requires Valid()
      modifies this`hosted, set s, d | s in sessions && d in s.dogs.Values :: d
      ensures Valid() && MoveStep(old(View()), token, direction, View(), Ok(()))
    {
      var p := playerTokens.FindPlayerByToken(token);
      if p.Some? {
        SomeSessionOf(token);
        var session :| session in sessions && session.id == p.value.session;
        Steer(session, token, p.value, direction);
      }
    }

    /** The session's own part of the loot generation. */
    method Produce(session: GameSession, delta: int, power: int -> real, roll: real, supply: nat -> Draw)
      returns (ghost draw: real, ghost draws: seq<Draw>)
      requires SessionsOk() && session in sessions && forall i :: DrawOk(session.info, supply(i))
      modifies session`lostObjects, session`nextLost, session.lootGenerator`timeWithoutLoot
      ensures Others(session) && session.Valid()
      ensures draw == Chance(power(old(session.lootGenerator.timeWithoutLoot) + delta), roll)
      ensures Sessions.GenerateStep(session.info, old(session.View()), draw, draws, session.View())
    {
      assert Fits(session);
      draw, draws := session.GenerateLoot(delta, power, roll, supply);
      OthersStill(session);
    }

    /** `GenerateLoot` of a session. */
    method GenerateLoot(session: GameSession, delta: int, power: int -> real, roll: real, supply: nat -> Draw)
      returns (ghost draw: real, ghost draws: seq<Draw>)
      requires Valid() && session in sessions && forall i :: DrawOk(session.info, supply(i))
      modifies this`hosted, session`lostObjects, session`nextLost, session.lootGenerator`timeWithoutLoot
      ensures Valid() && Games.GenerateStep(old(View()), session.id, draw, draws, View())
      ensures draw == Chance(power(old(session.lootGenerator.timeWithoutLoot) + delta), roll)
    {
      ghost var before := View();
      assert Fits(session);
      draw, draws := Produce(session, delta, power, roll, supply);
      Update(session, session.View());
      GenerateKeeps(Settings(), before, session.id, draw, draws, View());
    }

    /* ---- ticking and retirement ---- */

    /** The search for the session and its erasure from the list. */
    method Unlist(sid: nat)
      modifies this`sessions
      ensures ListedOf(sessions) == Unlisted(old(ListedOf(sessions)), sid)
      ensures forall s :: s in sessions ==> s in old(sessions)
    {
      ghost var all := ListedOf(sessions);
      for k := 0 to |sessions|
        invariant sessions == old(sessions) && AbsentFrom(all[..k], sid)
      {
        if sessions[k].id == sid {
          UnlistedAt(all, sid, k);
          sessions := sessions[..k] + sessions[k + 1..];
          assert ListedOf(sessions) == all[..k] + all[k + 1..];
          return;
        }
      }
      assert all[..|all|] == all;
      UnlistedAbsent(all, sid);
    }

    /** The player's entry, and with the last one the session. */
    method ErasePlayerAndSession(sid: nat, id: nat)
      requires sid in players.bySession && id in players.bySession[sid]
      modifies this`sessions, players`bySession
      ensures var left := old(players.bySession)[sid] - {id};
        && players.bySession == LeftPlayers(old(players.bySession), sid, left)
        && ListedOf(sessions) == LeftListed(old(ListedOf(sessions)), sid, left)
      ensures forall s :: s in sessions ==> s in old(sessions)
    {
      ghost var all := players.bySession;
      players.ErasePlayerFromSession(sid, id);
      var left := players.FindPlayersBySessionId(sid).value;
      if |left| == 0 {
        players.EraseSession(sid);
        Unlist(sid);
        assert all[sid := left] - {sid} == all - {sid};
      }
    }

    /** The erasures for one player. */
    method ErasePlayer(sid: nat, id: nat)
      requires EraseOne(Reg(), sid, id).Some?
      modifies this`sessions, players, playerTokens
      ensures EraseOne(old(Reg()), sid, id) == Some(Reg())
      ensures forall s :: s in sessions ==> s in old(sessions)
    {
      ErasePlayerAndSession(sid, id);
      playerTokens.EraseTokenByPlayerId(id);
    }

    /** The loop body of the cleanup, for a player not yet seen. */
    method EraseIfGone(sid: nat, p: Player, dogs: set<nat>, ghost r: Registry, ghost gone: set<nat>)
      requires Consistent(r) && sid in r.players && p.id in r.players[sid] && r.players[sid][p.id] == p
      requires p.id !in gone && Reg() == Without(r, sid, gone)
      modifies this`sessions, players, playerTokens
      ensures Reg() == Without(r, sid, if p.dog in dogs then gone else gone + {p.id})
      ensures forall s :: s in sessions ==> s in old(sessions)
    {
      if p.dog !in dogs {
        EraseNext(r, sid, gone, p.id);
        ErasePlayer(sid, p.id);
      }
    }

    /** The players seen so far whose dog is gone. */
    ghost function SeenGone(r: Registry, sid: nat, dogs: set<nat>, todo: set<nat>): set<nat>
      requires sid in r.players
    {
      Gone(r, sid, dogs) - todo
    }

    lemma SeeOne(r: Registry, sid: nat, dogs: set<nat>, todo: set<nat>, id: nat)
      requires sid in r.players && id in todo && todo <= r.players[sid].Keys
      ensures id !in SeenGone(r, sid, dogs, todo)
      ensures SeenGone(r, sid, dogs, todo - {id}) ==
        if r.players[sid][id].dog in dogs then SeenGone(r, sid, dogs, todo) else SeenGone(r, sid, dogs, todo) + {id}
    {
    }

    /** The handler of the signal that dogs have retired. It walks a copy of the session's players while
        it erases from the containers themselves. */
    method RemoveInactivePlayers(session: GameSession)
      requires Consistent(Reg()) && session.id in players.bySession
      modifies this`sessions, players, playerTokens
      ensures Reg() == Cleaned(old(Reg()), session.id, session.dogs.Keys)
      ensures forall s :: s in sessions ==> s in old(sessions)
    {
      ghost var r := Reg();
      var sid, dogs := session.id, session.dogs.Keys;
      var copy := players.FindPlayersBySessionId(sid).value;
      var todo := copy.Keys;
      WithoutNobody(r, sid);
      assert SeenGone(r, sid, dogs, todo) == {};
      while todo != {}
        invariant todo <= copy.Keys && Reg() == Without(r, sid, SeenGone(r, sid, dogs, todo))
        invariant forall s :: s in sessions ==> s in old(sessions)
        decreases todo
      {
        var id :| id in todo;
        SeeOne(r, sid, dogs, todo, id);
        assert copy[id].id == id;
        EraseIfGone(sid, copy[id], dogs, r, SeenGone(r, sid, dogs, todo));
        todo := todo - {id};
      }
      assert SeenGone(r, sid, dogs, {}) == Gone(r, sid, dogs);
    }

    /** Where a tick stands when the dogs have retired and their players have not been cleaned up. */
    ghost predicate HalfTick(session: GameSession, records: seq<PlayerRecord>, before: Game, s: SessionState)
      reads this, players, playerTokens, session
    {
      && WorldOk(WorldOf(before)) && IsListed(before.reg, session.id) && session.id in before.hosted
      && Reg() == before.reg && hosted == Became(before, session.id, s).hosted && dropped == before.dropped
      && session.dogs.Keys == s.board.dogs.Keys && s.board.dogs.Keys <= before.hosted[session.id].state.board.dogs.Keys
      && (records == [] <==> s.board.dogs.Keys == before.hosted[session.id].state.board.dogs.Keys)
    }

    /** The signals fire if some dog retired. */
    method CleanUp(session: GameSession, records: seq<PlayerRecord>, ghost before: Game, ghost s: SessionState)
      requires HalfTick(session, records, before, s)
      modifies this`sessions, this`dropped, players, playerTokens
      ensures Settled(before, session.id, s, View())
      ensures forall t :: t in sessions ==> t in old(sessions)
    {
      if records != [] {
        var all := before.hosted[session.id].state.board.dogs.Keys;
        LeftAfter(all, s.board.dogs.Keys);
        RetiredHadPlayers(WorldOf(before), session.id, all - s.board.dogs.Keys);
        RemoveInactivePlayers(session);
      }
      dropped := dropped || !IsListed(Reg(), session.id);
    }

    lemma KeysLeft(before: set<nat>, after: set<nat>, gone: seq<nat>)
      requires forall i :: i in after <==> i in before && i !in gone
      requires forall i :: i in gone ==> i in before
      ensures after <= before && (gone == [] <==> after == before)
    {
      assert gone != [] ==> gone[0] in gone;
    }

    /** The session's own part of the tick. */
    method TickSession(session: GameSession, t: int, ghost h: Hosted)
      returns (records: seq<PlayerRecord>, ghost setup: Setup, ghost events: seq<GatheringEvent>)
      requires session.Valid() && h == Hosted(session.info, session.View())
      modifies session`dogs, session`lostObjects, session.dogs.Values
      ensures session.Valid() && session.dogs.Values <= old(session.dogs.Values)
      ensures session.dogs.Keys <= h.state.board.dogs.Keys
      ensures records == [] <==> session.dogs.Keys == h.state.board.dogs.Keys
      ensures Sessions.TickStep(h.info, IndexOf(h.info.roads), session.limit, h.state, t, setup, events, session.View())
      ensures TickRecords(IndexOf(h.info.roads), session.limit, h.state, t, setup, events, records)
    {
      ghost var before, gone := session.dogs.Keys, [];
      assert h.state.board.dogs.Keys == before;
      records, setup, events, gone := session.Tick(t);
      KeysLeft(before, session.dogs.Keys, gone);
    }

    /** The same, with the other sessions in view. */
    method TickAmong(session: GameSession, t: int, ghost h: Hosted)
      returns (records: seq<PlayerRecord>, ghost setup: Setup, ghost events: seq<GatheringEvent>)
      requires SessionsOk() && session in sessions && h == Hosted(session.info, session.View())
      modifies session`dogs, session`lostObjects, session.dogs.Values
      ensures Others(session) && session.Valid() && session.limit == limit
      ensures session.dogs.Keys <= h.state.board.dogs.Keys
      ensures records == [] <==> session.dogs.Keys == h.state.board.dogs.Keys
      ensures Sessions.TickStep(h.info, IndexOf(h.info.roads), limit, h.state, t, setup, events, session.View())
      ensures TickRecords(IndexOf(h.info.roads), limit, h.state, t, setup, events, records)
    {
      assert Fits(session) && session.Valid() && session.limit == limit;
      records, setup, events := TickSession(session, t, h);
      OthersStill(session);
    }

    twostate lemma FewerSessions()
      requires old(SessionsOk()) && ListedOk(Reg()) && unchanged(`hosted)
      requires forall s :: s in sessions ==> s in old(sessions)
      requires forall s :: s in sessions ==> unchanged(s) && unchanged(s.index) && unchanged(old(s.dogs.Values))
      ensures SessionsOk()
    {
      forall s | s in sessions ensures Fits(s) {
        assert old(Fits(s));
        FitsStill(s);
      }
    }

    /** The cleanup, with what it keeps. */
    method Settle(session: GameSession, records: seq<PlayerRecord>, ghost before: Game, ghost s: SessionState)
      requires SessionsOk() && HalfTick(session, records, before, s)
      modifies this`sessions, this`dropped, players, playerTokens
      ensures Settled(before, session.id, s, View())
      ensures ListedOk(Reg()) ==> SessionsOk()
    {
      CleanUp(session, records, before, s);
      if ListedOk(Reg()) {
        FewerSessions();
      }
    }

    /** The session is in state `s` now, and the application has not taken notice yet. */
    ghost predicate Ticked(session: GameSession, records: seq<PlayerRecord>, before: Game, s: SessionState)
      reads this, players, playerTokens
      reads sessions, set s | s in sessions :: s.index, set s, d | s in sessions && d in s.dogs.Values :: d
    {
      && Others(session) && session.Valid() && session.limit == limit && session.View() == s && View() == before
      && WorldOk(WorldOf(before)) && session.id in before.hosted && before.hosted[session.id].info == session.info
      && session.dogs.Keys <= before.hosted[session.id].state.board.dogs.Keys
      && (records == [] <==> session.dogs.Keys == before.hosted[session.id].state.board.dogs.Keys)
    }

    /** The second half of the tick. */
    method Finish(session: GameSession, records: seq<PlayerRecord>, ghost before: Game, ghost s: SessionState)
      requires Ticked(session, records, before, s)
      modifies this`hosted, this`sessions, this`dropped, players, playerTokens
      ensures Settled(before, session.id, s, View())
      ensures ListedOk(Reg()) ==> SessionsOk()
    {
      IsOneOf(session);
      Update(session, s);
      assert s.board.dogs.Keys == session.dogs.Keys;
      Settle(session, records, before, s);
    }

    /** The second half, with what the first half was. */
    method FinishTick(session: GameSession, records: seq<PlayerRecord>, ghost before: Game, ghost s: SessionState,
                      ghost t: int, ghost setup: Setup, ghost events: seq<GatheringEvent>)
      requires Ticked(session, records, before, s)
      requires Sessions.TickStep(session.info, IndexOf(session.info.roads), limit, before.hosted[session.id].state,
                                 t, setup, events, s)
      modifies this`hosted, this`sessions, this`dropped, players, playerTokens
      ensures Games.TickStep(Settings(), before, session.id, t, setup, events, View())
      ensures ListedOk(Reg()) ==> SessionsOk()
    {
      Finish(session, records, before, s);
      TickIs(Settings(), before, session.id, t, setup, events, s, View());
    }

    /** The records are those of a tick of this session. */
    ghost predicate Reports(g: Game, sid: nat, t: int, setup: Setup, events: seq<GatheringEvent>,
                            records: seq<PlayerRecord>) {
      sid in g.hosted
      && TickRecords(IndexOf(g.hosted[sid].info.roads), limit, g.hosted[sid].state, t, setup, events, records)
    }

    method Advance(session: GameSession, t: int)
      returns (records: seq<PlayerRecord>, ghost setup: Setup, ghost events: seq<GatheringEvent>)
      requires SessionsOk() && WorldOk(WorldOf(View())) && session in sessions
      modifies this`hosted, this`sessions, this`dropped, players, playerTokens
      modifies session`dogs, session`lostObjects, session.dogs.Values
      ensures Games.TickStep(Settings(), old(View()), session.id, t, setup, events, View())
      ensures Reports(old(View()), session.id, t, setup, events, records)
      ensures ListedOk(Reg()) ==> SessionsOk()
    {
      ghost var before := View();
      assert Fits(session);
      records, setup, events := TickAmong(session, t, before.hosted[session.id]);
      FinishTick(session, records, before, session.View(), t, setup, events);
    }

    /** One tick of a session together with the two handlers of its signals. */
    method Tick(session: GameSession, t: int)
      returns (records: seq<PlayerRecord>, ghost setup: Setup, ghost events: seq<GatheringEvent>)
      requires Valid() && session in sessions
      modifies this`hosted, this`sessions, this`dropped, players, playerTokens
      modifies session`dogs, session`lostObjects, session.dogs.Values
      ensures Valid()
      ensures Games.TickStep(Settings(), old(View()), session.id, t, setup, events, View())
      ensures Reports(old(View()), session.id, t, setup, events, records)
    {
      ghost var before := View();
      records, setup, events := Advance(session, t);
      Games.TickKeeps(Settings(), before, session.id, t, setup, events, View());
    }

    /* ---- saving ---- */

    /** The record holds the session as it is. */
    ghost predicate SavedAs(s: GameSession, repr: SessionRepr)
      reads this, players, playerTokens, s, s.dogs.Values
    {
      SavedSession(Reg(), map[s.id := s.View().board], Listed(s.id, s.info.id), repr)
    }

    /** Every one of these players has a token, and its dog is in the session. */
    ghost predicate CrewOk(s: GameSession, crew: map<nat, Player>)
      reads players, playerTokens, s
    {
      && s.id in players.bySession && crew == players.bySession[s.id]
      && forall id :: id in crew ==> id in playerTokens.idToToken && crew[id].dog in s.dogs
    }

    ghost predicate ReadyToSave(s: GameSession)
      reads players, playerTokens, s, s.index
    {
      s.Valid() && (s.id in players.bySession ==> CrewOk(s, players.bySession[s.id]))
    }

    lemma IsReady(s: GameSession)
      requires Valid() && s in sessions
      ensures ReadyToSave(s)
    {
      assert Fits(s);
      IsOneOf(s);
      assert ApplicationRuns.SessionOk(WorldOf(View()), s.id);
      if s.id in players.bySession {
        var crew := players.bySession[s.id];
        forall id | id in crew ensures id in playerTokens.idToToken && crew[id].dog in s.dogs {
          assert Registered(Reg(), crew[id]) && HasToken(Reg(), crew[id]);
        }
      }
    }

    /** The players of one session, in the order of the hash map. */
    method SavePlayers(s: GameSession, crew: map<nat, Player>) returns (saved: seq<PlayerRepr>)
      requires CrewOk(s, crew)
      ensures SavedPlayers(Reg(), s.DogStates(), s.id, saved)
    {
      saved := [];
      var todo := crew.Keys;
      ghost var reg, states := Reg(), s.DogStates();
      while todo != {}
        invariant todo <= crew.Keys && IdsOf(saved) == crew.Keys - todo
        invariant SomeSaved(reg, states, s.id, saved)
        decreases todo
      {
        var id :| id in todo;
        var token := playerTokens.FindTokenByPlayerId(id);
        var p := PlayerRepr(id, ReprOfDog(s.dogs[crew[id].dog]), token);
        OneMoreSaved(reg, states, s.id, saved, p);
        saved := saved + [p];
        todo := todo - {id};
      }
      AllSaved(reg, states, s.id, saved);
    }

    method SaveLoot(s: GameSession) returns (saved: seq<LostObject>)
      requires s.Valid()
      ensures SavedLost(s.lostObjects, saved)
    {
      saved := [];
      var todo := s.lostObjects.Keys;
      while todo != {}
        invariant todo <= s.lostObjects.Keys
        invariant forall k :: 0 <= k < |saved| ==>
          saved[k].id in s.lostObjects && s.lostObjects[saved[k].id] == saved[k]
        invariant forall k :: 0 <= k < |saved| ==> saved[k].id !in todo
        invariant forall i, j :: 0 <= i < j < |saved| ==> saved[i].id != saved[j].id
        invariant forall i :: i in s.lostObjects && i !in todo ==> s.lostObjects[i] in saved
        decreases todo
      {
        var i :| i in todo;
        saved := saved + [s.lostObjects[i]];
        todo := todo - {i};
      }
    }

    method SaveSession(s: GameSession, crew: map<nat, Player>) returns (repr: SessionRepr)
      requires s.Valid() && CrewOk(s, crew)
      ensures SavedAs(s, repr)
    {
      var saved := SavePlayers(s, crew);
      var lost := SaveLoot(s);
      repr := SessionRepr(s.id, s.info.id, saved, lost);
      WholeRecord(s, repr);
    }

    lemma WholeRecord(s: GameSession, repr: SessionRepr)
      requires repr.id == s.id && repr.mapId == s.info.id
      requires SavedPlayers(Reg(), s.DogStates(), s.id, repr.players) && SavedLost(s.lostObjects, repr.lost)
      ensures SavedAs(s, repr)
    {
    }

    /** The record of a session, unless the players have no entry for it. */
    method SaveListed(s: GameSession) returns (repr: Option<SessionRepr>)
      requires ReadyToSave(s)
      ensures repr.Some? <==> s.id in players.bySession
      ensures repr.Some? ==> SavedAs(s, repr.value)
    {
      var crew := players.FindPlayersBySessionId(s.id);
      if crew.None? {
        return None;
      }
      var saved := SaveSession(s, crew.value);
      repr := Some(saved);
    }

    method SaveSessions() returns (r: Result<seq<SessionRepr>, string>)
      requires forall s :: s in sessions ==> ReadyToSave(s)
      ensures r.Ok? <==> forall s :: s in sessions ==> s.id in players.bySession
      ensures r.Ok? ==> |r.value| == |sessions| && forall k :: 0 <= k < |sessions| ==> SavedAs(sessions[k], r.value[k])
    {
      var game: seq<SessionRepr> := [];
      for k := 0 to |sessions|
        invariant |game| == k
        invariant forall j :: 0 <= j < k ==> sessions[j].id in players.bySession
        invariant forall j :: 0 <= j < k ==> SavedAs(sessions[j], game[j])
      {
        var repr := SaveListed(sessions[k]);
        if repr.None? {
          return Err("bad optional access");
        }
        ghost var before := game;
        game := game + [repr.value];
        forall j | 0 <= j <= k ensures SavedAs(sessions[j], game[j]) {
          assert j < k ==> game[j] == before[j];
        }
      }
      r := Ok(game);
    }

    /** What `SaveGame` returns is a saved game in the sense of the round-trip theorems. */
    lemma IsSavedGame(game: seq<SessionRepr>, boards: map<nat, Board>)
      requires |game| == |sessions| && forall k :: 0 <= k < |sessions| ==> SavedAs(sessions[k], game[k])
      requires forall s :: s in sessions ==> s.id in boards && boards[s.id] == s.View().board
      ensures SavedGame(Reg(), boards, game)
    {
      forall k | 0 <= k < |game| ensures SavedSession(Reg(), boards, Reg().listed[k], game[k]) {
        assert SavedAs(sessions[k], game[k]) && sessions[k] in sessions;
        assert Reg().listed[k] == Listed(sessions[k].id, sessions[k].info.id);
      }
    }

    /** `SaveGame`, up to the archive. A listed session without players ends it with an exception. */
    method SaveGame() returns (r: Result<seq<SessionRepr>, string>)
      requires Valid()
      ensures r.Ok? <==> Populated(Reg())
      ensures r.Ok? ==> |r.value| == |sessions| && forall k :: 0 <= k < |sessions| ==> SavedAs(sessions[k], r.value[k])
      ensures r.Ok? ==> SavedGame(Reg(), BoardsOf(View()), r.value)
    {
      forall s | s in sessions ensures ReadyToSave(s) {
        IsReady(s);
      }
      PopulatedMeans();
      ListedBoards();
      ghost var reg, boards := Reg(), BoardsOf(View());
      r := SaveSessions();
      if r.Ok? {
        forall s | s in sessions ensures s.id in boards && boards[s.id] == s.View().board {
          SameView(s);
        }
        IsSavedGame(r.value, boards);
      }
    }

    lemma ListedBoards()
      requires SessionsOk()
      ensures forall s :: s in sessions ==> s.id in BoardsOf(View()) && BoardsOf(View())[s.id] == s.View().board
    {
      forall s | s in sessions ensures s.id in BoardsOf(View()) && BoardsOf(View())[s.id] == s.View().board {
        assert Fits(s);
      }
    }

    lemma PopulatedMeans()
      ensures Populated(Reg()) <==> forall s :: s in sessions ==> s.id in players.bySession
    {
      if Populated(Reg()) {
        forall s | s in sessions ensures s.id in players.bySession {
          IsOneOf(s);
        }
      }
      if forall s :: s in sessions ==> s.id in players.bySession {
        forall sid | IsListed(Reg(), sid) ensures sid in Reg().players {
          var k :| 0 <= k < |Reg().listed| && Reg().listed[k].id == sid;
          assert sessions[k].id == sid;
        }
      }
    }

    /* ---- restoring ---- */

    method ReadmitPerson(p: Player, token: Token)
      modifies players, playerTokens
      ensures Reg() == Readmitted(old(Reg()), p, token)
    {
      playerTokens.Readmit(p, token);
      players.Readmit(p);
    }

    method RestoreDogInto(session: GameSession, d: DogRepr) returns (r: Result<nat, string>)
      modifies session`dogs, session`nextDog
      ensures r.Ok? <==> |d.bag| <= d.bagCapacity
      ensures r.Ok? ==> r.value == d.id && session.View() == WithDog(old(session.View()), Rebuilt(d))
      ensures r.Err? ==> r.error == BAG_FULL
    {
      RefillExact(Unpacked(d), d.bag);
      var dog := RestoreDog(d);
      if dog.Err? {
        return Err(dog.error);
      }
      session.AddRestoredDog(dog.value);
      r := Ok(dog.value.id);
    }

    /** One player of a record: its dog, its token, and their places. */
    method RestorePlayer(session: GameSession, p: PlayerRepr) returns (r: Result<(), string>)
      modifies players, playerTokens, session`dogs, session`nextDog
      ensures r.Ok? <==> |p.dog.bag| <= p.dog.bagCapacity
      ensures r.Ok? ==> Reg() == Readmitted(old(Reg()), Player(p.id, session.id, p.dog.id), p.token)
      ensures r.Ok? ==> session.View() == WithDog(old(session.View()), Rebuilt(p.dog))
    {
      var dog := RestoreDogInto(session, p.dog);
      if dog.Err? {
        return Err(dog.error);
      }
      label Restored:
      ReadmitPerson(Player(p.id, session.id, dog.value), p.token);
      SameView@Restored(session);
      r := Ok(());
    }

    /** What the first `k` players of a record leave. */
    ghost predicate PlayersBack(session: GameSession, r0: Registry, repr: SessionRepr, k: nat)
      requires k <= |repr.players|
      reads this, players, playerTokens, session, session.dogs.Values
    {
      && BagsFit(repr.players[..k])
      && Reg() == AllReadmitted(r0, repr.id, repr.players[..k])
      && session.View() == SessionState(Board(DogsBack(repr.players[..k]), map[]), k, 0)
    }

    method RestorePlayers(session: GameSession, repr: SessionRepr) returns (r: Result<(), string>)
      requires session.id == repr.id && session.View() == FRESH
      modifies players, playerTokens, session`dogs, session`nextDog
      ensures r.Ok? <==> BagsFit(repr.players)
      ensures r.Ok? ==> PlayersBack(session, old(Reg()), repr, |repr.players|)
    {
      ghost var r0 := Reg();
      assert DogsBack([]) == map[];
      for k := 0 to |repr.players|
        invariant PlayersBack(session, r0, repr, k)
      {
        var done := RestorePlayer(session, repr.players[k]);
        if done.Err? {
          return Err(done.error);
        }
        NextPlayerBack(r0, repr, k);
      }
      assert repr.players[..|repr.players|] == repr.players;
      r := Ok(());
    }

    lemma NextPlayerBack(r0: Registry, repr: SessionRepr, k: nat)
      requires k < |repr.players|
      ensures var (init, all, p) := (repr.players[..k], repr.players[..k + 1], repr.players[k]);
        && (BagsFit(all) <==> BagsFit(init) && |p.dog.bag| <= p.dog.bagCapacity)
        && AllReadmitted(r0, repr.id, all)
          == Readmitted(AllReadmitted(r0, repr.id, init), Player(p.id, repr.id, p.dog.id), p.token)
        && k !in DogsBack(init) && DogsBack(all) == DogsBack(init)[k := Rebuilt(p.dog)]
    {
      var init, all := repr.players[..k], repr.players[..k + 1];
      assert all[..k] == init && all == init + [repr.players[k]];
      DogsBackSnoc(all);
    }

    method RestoreLoot(session: GameSession, lost: seq<LostObject>)
      requires session.View().board.lost == map[] && session.View().nextLost == 0
      modifies session`lostObjects, session`nextLost
      ensures session.View() == old(session.View()).(
        board := Board(old(session.View().board.dogs), LostBack(lost)), nextLost := |lost|)
    {
      ghost var before := session.View();
      assert LostBack(lost[..0]) == map[];
      for k := 0 to |lost|
        invariant session.View() == before.(board := Board(before.board.dogs, LostBack(lost[..k])), nextLost := k)
      {
        session.AddRestoredObject(lost[k]);
        assert k !in LostBack(lost[..k]) && LostBack(lost[..k + 1]) == LostBack(lost[..k])[k := lost[k]];
      }
      assert lost[..|lost|] == lost;
    }

    /** The session of a record, not yet listed. */
    method RestoreSession(repr: SessionRepr) returns (r: Result<GameSession, string>)
      requires repr.mapId in maps
      modifies players, playerTokens
      ensures r.Ok? <==> BagsFit(repr.players)
      ensures r.Ok? ==> fresh(r.value) && r.value.id == repr.id && r.value.info == maps[repr.mapId]
      ensures r.Ok? ==> r.value.View() == StateBack(repr) && Reg() == AllReadmitted(old(Reg()), repr.id, repr.players)
    {
      var session := new GameSession(repr.id, maps[repr.mapId], lootInterval, limit);
      var done := RestorePlayers(session, repr);
      if done.Err? {
        return Err(done.error);
      }
      assert repr.players[..|repr.players|] == repr.players;
      label Players:
      RestoreLoot(session, repr.lost);
      assert Reg() == old@Players(Reg());
      r := Ok(session);
    }

    /** `AddSession` of a restored session. */
    method AddRestoredSession(session: GameSession)
      modifies this`sessions, this`table, this`nextSession
      ensures sessions == old(sessions) + [session]
      ensures Reg() == Recorded(
        old(Reg()).(nextSession := if session.id >= old(nextSession) then session.id + 1 else old(nextSession)),
        Listed(session.id, session.info.id))
    {
      if session.id >= nextSession {
        nextSession := session.id + 1;
      }
      Record(session);
    }

    /** One record: the session with all it holds, and its place in the list. */
    method RestoreRecord(repr: SessionRepr) returns (r: Result<GameSession, string>)
      requires repr.mapId in maps && maps[repr.mapId].id == repr.mapId
      modifies this`sessions, this`table, this`nextSession, players, playerTokens
      ensures r.Ok? <==> BagsFit(repr.players)
      ensures r.Ok? ==> fresh(r.value) && sessions == old(sessions) + [r.value]
      ensures r.Ok? ==> r.value.View() == StateBack(repr) && Reg() == SessionReadmitted(old(Reg()), repr)
    {
      ghost var r0 := Reg();
      r := RestoreSession(repr);
      if r.Ok? {
        PlayersLeaveTheList(r0, repr.id, repr.players);
        label Built:
        AddRestoredSession(r.value);
        SameView@Built(r.value);
      }
    }

    /** From place `n` on, the list holds what the first `k` records say. */
    ghost predicate ViewsBack(n: nat, game: seq<SessionRepr>, k: nat)
      requires k <= |game|
      reads this, sessions, set s, d | s in sessions && d in s.dogs.Values :: d
    {
      |sessions| == n + k && forall j :: 0 <= j < k ==> sessions[n + j].View() == StateBack(game[j])
    }

    /** The first `k` records are back, `r0` being the registry before. */
    ghost predicate GameBack(r0: Registry, n: nat, game: seq<SessionRepr>, k: nat)
      requires k <= |game|
      reads this, players, playerTokens, sessions, set s, d | s in sessions && d in s.dogs.Values :: d
    {
      && ViewsBack(n, game, k) && Reg() == AllSessions(r0, game[..k])
      && forall j :: 0 <= j < k ==> BagsFit(game[j].players)
    }

    /** The next record. */
    method RestoreNext(ghost r0: Registry, ghost n: nat, game: seq<SessionRepr>, k: nat) returns (r: Result<(), string>)
      requires k < |game| && GameBack(r0, n, game, k)
      requires game[k].mapId in maps && maps[game[k].mapId].id == game[k].mapId
      modifies this`sessions, this`table, this`nextSession, players, playerTokens
      ensures r.Ok? <==> BagsFit(game[k].players)
      ensures r.Ok? ==> GameBack(r0, n, game, k + 1)
    {
      var session := RestoreRecord(game[k]);
      if session.Err? {
        return Err(session.error);
      }
      forall j | 0 <= j < k ensures sessions[n + j].View() == StateBack(game[j]) {
        SameView(sessions[n + j]);
      }
      assert game[..k + 1][..k] == game[..k];
      r := Ok(());
    }

    /** `RestoreGame`, from the archive on: the sessions of the records join the list in order, unless
        the bag of some dog does not fit. */
    method RestoreGame(game: seq<SessionRepr>) returns (r: Result<(), string>)
      requires forall k :: 0 <= k < |game| ==> game[k].mapId in maps && maps[game[k].mapId].id == game[k].mapId
      modifies this`sessions, this`table, this`nextSession, players, playerTokens
      ensures r.Ok? <==> forall k :: 0 <= k < |game| ==> BagsFit(game[k].players)
      ensures r.Ok? ==> Reg() == AllSessions(old(Reg()), game) && ViewsBack(|old(sessions)|, game, |game|)
    {
      ghost var r0, n := Reg(), |sessions|;
      for k := 0 to |game|
        invariant GameBack(r0, n, game, k)
      {
        var done := RestoreNext(r0, n, game, k);
        if done.Err? {
          return Err(done.error);
        }
      }
      assert game[..|game|] == game;
      r := Ok(());
    }

    /* ---- a restart ---- */

    ghost function Views(): (views: seq<SessionState>)
      reads this`sessions, sessions, set s, d | s in sessions && d in s.dogs.Values :: d
      ensures |views| == |sessions| && forall k :: 0 <= k < |views| ==> views[k] == sessions[k].View()
    {
      ViewsOf(sessions)
    }

    lemma ViewsAre(game: seq<SessionRepr>)
      requires ViewsBack(0, game, |game|)
      ensures Views() == StatesBack(game)
    {
      assert forall k :: 0 <= k < |game| ==> sessions[0 + k].View() == StateBack(game[k]);
    }

    /** A new application with the saved game in it. */
    static method Load(c: Config, lootInterval: int, records: seq<SessionRepr>) returns (r: Result<Application, string>)
      requires c.Ok()
      requires forall k :: 0 <= k < |records| ==>
        records[k].mapId in c.maps && c.maps[records[k].mapId].id == records[k].mapId
      ensures r.Ok? <==> forall k :: 0 <= k < |records| ==> BagsFit(records[k].players)
      ensures r.Ok? ==> fresh(r.value) && r.value.Settings() == c
      ensures r.Ok? ==> r.value.Reg() == AllSessions(EMPTY, records) && r.value.Views() == StatesBack(records)
    {
      var app := new Application(c.maps, c.isRandom, lootInterval, c.limit);
      assert app.Reg() == EMPTY;
      var done := app.RestoreGame(records);
      if done.Err? {
        return Err(done.error);
      }
      app.ViewsAre(records);
      r := Ok(app);
    }

    /** The end of one server and the start of the next: what is saved into the archive and restored from it. It
        fails iff some listed session has no players. */
    method Restart() returns (r: Result<Application, string>)
      requires Valid()
      ensures r.Ok? <==> old(Populated(Reg()))
      ensures r.Ok? ==> fresh(r.value) && r.value.Settings() == Settings()
      ensures r.Ok? ==> ComesBack(old(Reg()), old(BoardsOf(View())), r.value.Reg(), r.value.Views())
    {
      ghost var before := View();
      var saved := SaveGame();
      if saved.Err? {
        return Err(saved.error);
      }
      SavedComesBack(Settings(), before, saved.value);
      var archive := GameC().put(saved.value);
      var read := GameC().get(archive);
      r := Load(Settings(), lootInterval, read.value.0);
    }
  }

  ghost function ViewsOf(sessions: seq<GameSession>): (views: seq<SessionState>)
    reads sessions, set s, d | s in sessions && d in s.dogs.Values :: d
    ensures |views| == |sessions| && forall k :: 0 <= k < |views| ==> views[k] == sessions[k].View()
  {
    if sessions == [] then [] else ViewsOf(sessions[..|sessions| - 1]) + [sessions[|sessions| - 1].View()]
  }
}
