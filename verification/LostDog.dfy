/** A run of the server after which only dog 1 is left, so that a restart loses its player the dog. */
module LostDogs {
  import opened Wrappers
  import opened Geometry
  import opened RoadIndices
  import opened Movement
  import opened Pavements
  import opened CollisionDetector
  import opened Dogs
  import opened Gathering
  import opened Sessions
  import opened Registries
  import ApplicationRuns
  import Serialization
  import opened SavedGames
  import opened Renumberings
  import opened Games
  import opened DoubleBags
  import opened TickCuts

  /** The one-road map, and retirement after a second at rest. */
  const YARD := Config(map["field" := FIELD], false, 1)

  /** The second dog on its way. */
  const MOVER := Parked(1).(direction := East, body := Body(ZERO, EASTWARD))

  /** After a second the first dog has stood still for one, the second has walked one cell. */
  const SLEEPER := Parked(0).(
    gatherer := Gatherer(Vec(0.0, -DOG_HEIGHT), ZERO, DOG_WIDTH), inactive := 1000, live := 1000, active := false)

  const WALKER := MOVER.(
    body := Body(Vec(1.0, 0.0), EASTWARD), gatherer := Gatherer(Vec(1.0 + DOG_HEIGHT, 0.0), Vec(1.0, 0.0), DOG_WIDTH),
    live := 1000)

  const STEERED := SessionState(Board(Pair(Parked(0), MOVER), map[]), 2, 0)

  const LEFT := SessionState(Board(map[1 := WALKER], map[]), 2, 0)

  const NO_LOOT := Setup([], [0, 1])

  function HostedIn(s: SessionState): map<nat, Hosted> { map[0 := Hosted(FIELD, s)] }

  /* ---- the session ---- */

  lemma Sleeps(d: DogState, b: Body)
    requires b == d.body && b == Body(ZERO, ZERO) && d == Parked(0)
    ensures Placed(d, b, 1000) == SLEEPER
  {
  }

  lemma SecondPasses(ix: Index, stay: Body)
    requires stay == Body(ZERO, ZERO) && MoveBody(ix, stay, 1000) == stay && Moved(ix, MOVER, 1000) == WALKER
    ensures MovedBoard(ix, STEERED.board, 1000) == Board(Pair(SLEEPER, WALKER), map[])
  {
    Sleeps(Parked(0), stay);
    MovedPair(ix, Parked(0), MOVER, 1000);
  }

  lemma NothingHappens(b: Board)
    requires b == Board(Pair(SLEEPER, WALKER), map[])
    ensures TickEvents(FIELD, b, NO_LOOT, []) && Playable(b, NO_LOOT, [])
  {
    assert ItemsOf(NO_LOOT.things) == [];
    assert OfficesAfter(FIELD, NO_LOOT.things, 0);
    assert NO_LOOT.ids[0] == 0 && NO_LOOT.ids[1] == 1;
  }

  lemma SleeperRetires()
    ensures AfterRetirement(Board(Pair(SLEEPER, WALKER), map[]), 1) == LEFT.board
  {
    var dogs := Pair(SLEEPER, WALKER);
    assert PlayTime(SLEEPER, 1) == Some(1) && PlayTime(WALKER, 1) == None;
    assert Retiring(dogs, 1) == {0};
    assert dogs - {0} == map[1 := WALKER];
  }

  lemma TickIn(ix: Index)
    requires MovedBoard(ix, STEERED.board, 1000) == Board(Pair(SLEEPER, WALKER), map[])
    ensures Sessions.TickStep(FIELD, ix, 1, STEERED, 1000, NO_LOOT, [], LEFT)
  {
    NothingHappens(Board(Pair(SLEEPER, WALKER), map[]));
    SleeperRetires();
  }

  lemma SecondTicks(ix: Index)
    requires ix == IndexOf(FIELD.roads)
    ensures Sessions.TickStep(FIELD, ix, 1, STEERED, 1000, NO_LOOT, [], LEFT)
  {
    FieldIndex();
    WalkStep(MOVER, 0.0, 1000, 1.0);
    StandsStill(ix, Body(ZERO, ZERO), 1000);
    SecondPasses(ix, Body(ZERO, ZERO));
    TickIn(ix);
  }

  lemma Steers()
    ensures Directed(FIELD, TWO, 1, Some(East)) == Ok(STEERED)
  {
    assert Commanded(Parked(1), Some(East), 1.0) == MOVER;
    assert TWO.board.dogs[1 := MOVER] == STEERED.board.dogs;
  }

  /* ---- the server ---- */

  const FIRST := Player(0, 0, 0)

  const SECOND := Player(1, 0, 1)

  const YARD_LIST := [Listed(0, "field")]

  const YARD_TABLE := map["field" := map[0 := 0]]

  const REG_ONE := Registry(
    map[0 := map[0 := FIRST]], 1, map["a" := FIRST], map[0 := "a"], YARD_LIST, YARD_TABLE, 1)

  const REG_TWO := Registry(
    map[0 := map[0 := FIRST, 1 := SECOND]], 2, map["a" := FIRST, "b" := SECOND], map[0 := "a", 1 := "b"], YARD_LIST,
    YARD_TABLE, 1)

  const REG_LEFT := Cleaned(REG_TWO, 0, {1})

  const G_ONE := Game(REG_ONE, HostedIn(ONE), false)

  const G_TWO := Game(REG_TWO, HostedIn(TWO), false)

  const G_STEERED := Game(REG_TWO, HostedIn(STEERED), false)

  const G_LEFT := Game(REG_LEFT, HostedIn(LEFT), !IsListed(REG_LEFT, 0))

  function JoinFirst(): Games.Action { Games.Action.Join("field", "dog", "a", ApplicationRuns.Lookup.NotFound, 0, 0.0) }

  function JoinSecond(): Games.Action { Games.Action.Join("field", "dog", "b", ApplicationRuns.Lookup.At(0), 0, 0.0) }

  function Steer(): Games.Action { Games.Action.Move("b", Some(East)) }

  function OneSecond(): Games.Action { Games.Action.Tick(0, 1000, NO_LOOT, []) }

  lemma SpawnsAtStart()
    ensures SpawnPoint(FIELD.roads, false, 0, 0.0) == ZERO
    ensures Joined(FIELD, FRESH, "dog", ZERO) == ONE && Joined(FIELD, ONE, "dog", ZERO) == TWO
  {
    assert ONE.board.dogs[1 := Parked(1)] == TWO.board.dogs;
  }

  lemma FirstJoins()
    ensures Games.Next(YARD, NO_GAME, JoinFirst(), G_ONE)
  {
    SpawnsAtStart();
    var o := Opened(NO_GAME, FIELD);
    assert o.hosted == map[0 := Hosted(FIELD, FRESH)];
    assert Enrolled(o.reg, 0, 0, "a") == REG_ONE;
    assert Entered(o, 0, "dog", ZERO, "a") == G_ONE;
    assert JoinStep(YARD, NO_GAME, JoinFirst(), G_ONE, Ok("a"));
  }

  lemma SecondJoins()
    ensures Games.Next(YARD, G_ONE, JoinSecond(), G_TWO)
  {
    SpawnsAtStart();
    assert "a" != "b" by {
      assert "a"[0] != "b"[0];
    }
    assert ApplicationRuns.Finds(REG_ONE, "field", ApplicationRuns.Lookup.At(0)) by {
      assert 0 in REG_ONE.table["field"];
    }
    assert Enrolled(REG_ONE, 0, 1, "b") == REG_TWO;
    assert Entered(G_ONE, 0, "dog", ZERO, "b") == G_TWO;
    assert JoinStep(YARD, G_ONE, JoinSecond(), G_TWO, Ok("b"));
  }

  lemma SecondSteers()
    ensures Games.Next(YARD, G_TWO, Steer(), G_STEERED)
  {
    Steers();
    assert REG_TWO.tokens["b"] == SECOND;
    assert Became(G_TWO, 0, STEERED) == G_STEERED;
    assert MoveStep(G_TWO, "b", Some(East), G_STEERED, Ok(()));
  }

  lemma SleeperLeaves()
    ensures Settled(G_STEERED, 0, LEFT, G_LEFT)
  {
    assert IsListed(REG_TWO, 0) by {
      assert REG_TWO.listed[0].id == 0;
    }
    assert 0 in STEERED.board.dogs && LEFT.board.dogs.Keys == {1};
  }

  lemma TickOfGame(c: Config, g: Game, h: Hosted, s: SessionState, r: Game, t: int, setup: Setup,
                   events: seq<GatheringEvent>)
    requires g.hosted == map[0 := h] && Settled(g, 0, s, r)
    requires Sessions.TickStep(h.info, IndexOf(h.info.roads), c.limit, h.state, t, setup, events, s)
    ensures Games.Next(c, g, Games.Action.Tick(0, t, setup, events), r)
  {
    TickIs(c, g, 0, t, setup, events, s, r);
  }

  lemma SecondStays()
    ensures Games.Next(YARD, G_STEERED, OneSecond(), G_LEFT)
  {
    SecondTicks(IndexOf(FIELD.roads));
    SleeperLeaves();
    TickOfGame(YARD, G_STEERED, Hosted(FIELD, STEERED), LEFT, G_LEFT, 1000, NO_LOOT, []);
  }

  lemma GameStep(c: Config, actions: seq<Games.Action>, trace: seq<Game>, i: nat, g: Game, a: Games.Action, r: Game)
    requires i < |actions| && |trace| == |actions| + 1
    requires trace[i] == g && actions[i] == a && trace[i + 1] == r && Games.Next(c, g, a, r)
    ensures Games.StepAt(c, actions, trace, i)
  {
  }

  lemma FourGameSteps(c: Config, actions: seq<Games.Action>, trace: seq<Game>)
    requires |actions| == 4 && |trace| == 5 && trace[0] == NO_GAME
    requires Games.StepAt(c, actions, trace, 0) && Games.StepAt(c, actions, trace, 1)
    requires Games.StepAt(c, actions, trace, 2) && Games.StepAt(c, actions, trace, 3)
    ensures Games.IsRun(c, actions, trace)
  {
    forall i | 0 <= i < 4 ensures Games.StepAt(c, actions, trace, i) {
      assert i == 0 || i == 1 || i == 2 || i == 3;
    }
  }

  lemma GameJoins(actions: seq<Games.Action>, trace: seq<Game>)
    requires |actions| == 4 && |trace| == 5 && actions[0] == JoinFirst() && actions[1] == JoinSecond()
    requires trace[0] == NO_GAME && trace[1] == G_ONE && trace[2] == G_TWO
    ensures Games.StepAt(YARD, actions, trace, 0) && Games.StepAt(YARD, actions, trace, 1)
  {
    FirstJoins();
    SecondJoins();
    GameStep(YARD, actions, trace, 0, NO_GAME, JoinFirst(), G_ONE);
    GameStep(YARD, actions, trace, 1, G_ONE, JoinSecond(), G_TWO);
  }

  lemma GameSteers(actions: seq<Games.Action>, trace: seq<Game>)
    requires |actions| == 4 && |trace| == 5 && actions[2] == Steer() && trace[2] == G_TWO && trace[3] == G_STEERED
    ensures Games.StepAt(YARD, actions, trace, 2)
  {
    SecondSteers();
    GameStep(YARD, actions, trace, 2, G_TWO, Steer(), G_STEERED);
  }

  lemma GameTicks(actions: seq<Games.Action>, trace: seq<Game>)
    requires |actions| == 4 && |trace| == 5 && actions[3] == OneSecond() && trace[3] == G_STEERED && trace[4] == G_LEFT
    ensures Games.StepAt(YARD, actions, trace, 3)
  {
    SecondStays();
    GameStep(YARD, actions, trace, 3, G_STEERED, OneSecond(), G_LEFT);
  }

  function YardActions(): (r: seq<Games.Action>)
    ensures |r| == 4 && r[0] == JoinFirst() && r[1] == JoinSecond() && r[2] == Steer() && r[3] == OneSecond()
  {
    [JoinFirst(), JoinSecond(), Steer(), OneSecond()]
  }

  function YardTrace(): (r: seq<Game>)
    ensures |r| == 5 && r[0] == NO_GAME && r[1] == G_ONE && r[2] == G_TWO && r[3] == G_STEERED && r[4] == G_LEFT
  {
    [NO_GAME, G_ONE, G_TWO, G_STEERED, G_LEFT]
  }

  lemma YardRun(actions: seq<Games.Action>, trace: seq<Game>)
    requires |actions| == 4 && actions[0] == JoinFirst() && actions[1] == JoinSecond()
    requires actions[2] == Steer() && actions[3] == OneSecond()
    requires |trace| == 5 && trace[0] == NO_GAME && trace[1] == G_ONE && trace[2] == G_TWO && trace[3] == G_STEERED
    requires trace[4] == G_LEFT
    ensures Games.IsRun(YARD, actions, trace)
  {
    GameJoins(actions, trace);
    GameSteers(actions, trace);
    GameTicks(actions, trace);
    FourGameSteps(YARD, actions, trace);
  }

  lemma YardIsRun()
    ensures Games.IsRun(YARD, YardActions(), YardTrace())
  {
    YardRun(YardActions(), YardTrace());
  }

  lemma YardListed()
    ensures IsListed(REG_LEFT, 0)
  {
    assert Gone(REG_TWO, 0, {1}) == {0};
    assert 1 in REG_TWO.players[0] - {0};
    assert REG_LEFT.listed == REG_TWO.listed && REG_TWO.listed[0].id == 0;
  }

  lemma LastOk(c: Config, actions: seq<Games.Action>, trace: seq<Game>, g: Game)
    requires c.Ok() && Games.IsRun(c, actions, trace) && |trace| == 5 && trace[4] == g
    ensures GameOk(c, g)
  {
    RunKeeps(c, actions, trace, 4);
  }

  lemma LeftOk()
    ensures GameOk(YARD, G_LEFT)
  {
    YardIsRun();
    LastOk(YARD, YardActions(), YardTrace(), G_LEFT);
  }

  /** What every reachable state has, this one has too. */
  lemma CrewedIn(c: Config, g: Game, reg: Registry, h: Hosted, dogs: map<nat, DogState>)
    requires GameOk(c, g) && g.hosted == map[0 := h] && g.reg == reg && IsListed(reg, 0) && h.state.board.dogs == dogs
    ensures Crewed(reg, dogs, 0)
  {
    var k :| 0 <= k < |reg.listed| && reg.listed[k].id == 0;
    HostedSavable(c, g, k);
    GameSavable(c, g);
    assert BoardsOf(g)[0] == h.state.board;
  }

  lemma OneIsLeft(dogs: map<nat, DogState>)
    requires dogs == map[1 := WALKER]
    ensures dogs.Keys == {1} && dogs[1] == WALKER
  {
  }

  lemma LeftCrewed()
    ensures Crewed(REG_LEFT, LEFT.board.dogs, 0)
  {
    LeftOk();
    YardListed();
    CrewedIn(YARD, G_LEFT, REG_LEFT, Hosted(FIELD, LEFT), LEFT.board.dogs);
  }

  /** Two players join, the second steers its dog, and a second passes: the first dog retires. Whatever order the
      save takes, the second player's dog comes back under number 0; the player's commands fail, and once somebody
      has joined they steer the newcomer. */
  lemma RestartLosesDog(players: seq<Serialization.PlayerRepr>, s: SessionState, name: string, spawn: Vec,
                        direction: Option<Direction>)
    requires SavedPlayers(REG_LEFT, LEFT.board.dogs, 0, players)
    requires s.board.dogs == DogsBack(players) && s.nextDog == |players|
    ensures Games.IsRun(YARD, YardActions(), YardTrace()) && YardTrace()[4] == G_LEFT
    ensures G_LEFT.reg == REG_LEFT && G_LEFT.hosted == map[0 := Hosted(FIELD, LEFT)] && LEFT.board.dogs.Keys == {1}
    ensures Directed(FIELD, s, 1, direction) == Err("Invalid dog id")
    ensures var r := Directed(FIELD, Joined(FIELD, s, name, spawn), 1, direction);
      r.Ok? && r.value.board.dogs
        == map[0 := Reloaded(WALKER), 1 := Commanded(NewDog(1, name, spawn, 3), direction, 1.0)]
  {
    YardIsRun();
    LeftCrewed();
    OneIsLeft(LEFT.board.dogs);
    LostSteering(FIELD, REG_LEFT, LEFT.board.dogs, 0, players, s, direction);
    WrongDog(FIELD, REG_LEFT, LEFT.board.dogs, 0, players, s, name, spawn, direction);
  }
}
