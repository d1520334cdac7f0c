/** The application as a state machine: joins, and ticks of a session followed by the cleanup. */
module ApplicationRuns {
  import opened Wrappers
  import opened Registries

  /** The ids of a session's dogs and its dog counter. */
  datatype Pen = Pen(dogs: set<nat>, next: nat)

  /** `dropped` is a history variable: has some session been dropped from the list? */
  datatype World = World(reg: Registry, pens: map<nat, Pen>, dropped: bool)

  const START := World(EMPTY, map[], false)

  /* ---- finding and adding sessions ---- */

  datatype Lookup = NotFound | At(index: nat)

  /** `FindSessionsByMapId`: the place recorded for any one session of the map. */
  predicate Finds(r: Registry, mapId: string, l: Lookup) {
    match l
    case NotFound => mapId !in r.table || r.table[mapId] == map[]
    case At(k) => mapId in r.table && exists sid :: sid in r.table[mapId] && r.table[mapId][sid] == k
  }

  /** Both overloads of `AddSession` list the session and record its place like this. */
  function Recorded(r: Registry, s: Listed): Registry {
    var place := |r.listed|;
    r.(listed := r.listed + [s],
       table := if s.mapId in r.table then r.table[s.mapId := Emplace(r.table[s.mapId], s.id, place)]
                else r.table[s.mapId := map[s.id := place]])
  }

  function SessionAdded(r: Registry, mapId: string): Registry {
    Recorded(r, Listed(r.nextSession, mapId)).(nextSession := r.nextSession + 1)
  }

  function Opened(w: World, mapId: string): World {
    w.(reg := SessionAdded(w.reg, mapId), pens := w.pens[w.reg.nextSession := Pen({}, 0)])
  }

  /** A join that goes through: a dog, its player and a token. */
  function Entered(w: World, sid: nat, token: Token): World
    requires sid in w.pens
  {
    var pen := w.pens[sid];
    World(Enrolled(w.reg, sid, pen.next, token), w.pens[sid := Pen(pen.dogs + {pen.next}, pen.next + 1)], w.dropped)
  }

  /* ---- steps ---- */

  datatype Action =
    | Join(mapId: string, name: string, token: Token, found: Lookup)
    | Tick(sid: nat, retired: set<nat>)

  const BAD_NAME := "Join game Error, invalid name"
  const BAD_MAP := "Join game Error, invalid map"

  /** `JoinGame`. A place outside the list is undefined behaviour and has no step. */
  ghost predicate JoinStep(maps: set<string>, w: World, a: Action, r: World, outcome: Result<Token, string>)
    requires a.Join?
  {
    && Finds(w.reg, a.mapId, a.found) && (outcome.Ok? ==> a.token !in w.reg.tokens)
    && match a.found
       case At(k) =>
         && k < |w.reg.listed| && w.reg.listed[k].id in w.pens
         && if a.name == "" then r == w && outcome == Err(BAD_NAME)
            else r == Entered(w, w.reg.listed[k].id, a.token) && outcome == Ok(a.token)
       case NotFound =>
         if a.mapId !in maps then r == w && outcome == Err(BAD_MAP)
         else if a.name == "" then r == Opened(w, a.mapId) && outcome == Err(BAD_NAME)
         else r == Entered(Opened(w, a.mapId), w.reg.nextSession, a.token) && outcome == Ok(a.token)
  }

  /** A tick of a listed session: some of its dogs retire, and if any did the players are cleaned up. */
  ghost predicate TickStep(w: World, sid: nat, retired: set<nat>, r: World) {
    && IsListed(w.reg, sid) && sid in w.pens && retired <= w.pens[sid].dogs
    && var left := w.pens[sid].dogs - retired;
      && r.pens == w.pens[sid := Pen(left, w.pens[sid].next)]
      && (if retired == {} then r.reg == w.reg else sid in w.reg.players && r.reg == Cleaned(w.reg, sid, left))
      && r.dropped == (w.dropped || !IsListed(r.reg, sid))
  }

  ghost predicate Next(maps: set<string>, w: World, a: Action, r: World) {
    match a
    case Join(_, _, _, _) => exists outcome :: JoinStep(maps, w, a, r, outcome)
    case Tick(sid, retired) => TickStep(w, sid, retired, r)
  }

  /* ---- what every step keeps ---- */

  predicate PenOk(pen: Pen) { forall d :: d in pen.dogs ==> d < pen.next }

  ghost predicate SessionOk(w: World, sid: nat) {
    sid in w.pens && PenOk(w.pens[sid]) && DogsMatch(PlayersOf(w.reg, sid), w.pens[sid].dogs)
  }

  ghost predicate WorldOk(w: World) {
    Consistent(w.reg) && forall sid :: IsListed(w.reg, sid) ==> SessionOk(w, sid)
  }

  lemma OneMoreListed(r: Registry, mapId: string)
    requires ListedOk(r)
    ensures var o := SessionAdded(r, mapId);
      && ListedOk(o) && r.nextSession !in r.players
      && (forall s :: IsListed(o, s) <==> IsListed(r, s) || s == r.nextSession)
  {
    var o := SessionAdded(r, mapId);
    assert o.listed[|r.listed|].id == r.nextSession;
    forall s ensures IsListed(o, s) <==> IsListed(r, s) || s == r.nextSession {
      if k :| 0 <= k < |r.listed| && r.listed[k].id == s {
        assert o.listed[k].id == s;
      }
    }
  }

  lemma OpenedKeeps(w: World, mapId: string)
    requires WorldOk(w)
    ensures var o := Opened(w, mapId);
      WorldOk(o) && IsListed(o.reg, w.reg.nextSession) && o.reg.tokens == w.reg.tokens
      && (forall s :: IsListed(o.reg, s) <==> IsListed(w.reg, s) || s == w.reg.nextSession)
  {
    OneMoreListed(w.reg, mapId);
    OpenedConsistent(w.reg, mapId);
    forall s | IsListed(w.reg, s) || s == w.reg.nextSession ensures SessionOk(Opened(w, mapId), s) {
      if s == w.reg.nextSession {
        NewSessionOk(w, mapId);
      } else {
        assert SessionOk(w, s);
        SameSessionOk(w, Opened(w, mapId), s);
      }
    }
  }

  lemma NewSessionOk(w: World, mapId: string)
    requires w.reg.nextSession !in w.reg.players
    ensures SessionOk(Opened(w, mapId), w.reg.nextSession)
  {
    assert PlayersOf(Opened(w, mapId).reg, w.reg.nextSession) == map[];
  }

  lemma OpenedConsistent(r: Registry, mapId: string)
    requires Consistent(r)
    ensures Consistent(SessionAdded(r, mapId))
  {
    var o := SessionAdded(r, mapId);
    OneMoreListed(r, mapId);
    SameTokens(r, o);
    assert PlayersOk(o);
  }

  lemma EnteredKeeps(w: World, sid: nat, token: Token)
    requires WorldOk(w) && IsListed(w.reg, sid) && token !in w.reg.tokens
    ensures WorldOk(Entered(w, sid, token)) && sid in Entered(w, sid, token).reg.players
  {
    assert SessionOk(w, sid);
    var pen, e := w.pens[sid], Entered(w, sid, token);
    EnrolledKeeps(w.reg, sid, pen.next, token, pen.dogs);
    forall s | IsListed(e.reg, s) ensures SessionOk(e, s) {
      SameList(w.reg, e.reg, s);
      OthersEntered(w, sid, token, s);
    }
  }

  lemma OthersEntered(w: World, sid: nat, token: Token, s: nat)
    requires SessionOk(w, sid) && SessionOk(w, s)
    requires var (pen, e) := (w.pens[sid], Entered(w, sid, token));
      && DogsMatch(PlayersOf(e.reg, sid), pen.dogs + {pen.next})
      && forall s :: s != sid ==> PlayersOf(e.reg, s) == PlayersOf(w.reg, s)
    ensures SessionOk(Entered(w, sid, token), s)
  {
    if s != sid {
      SameSessionOk(w, Entered(w, sid, token), s);
    }
  }

  lemma SameList(r: Registry, s: Registry, sid: nat)
    requires s.listed == r.listed && IsListed(s, sid)
    ensures IsListed(r, sid)
  {
  }

  lemma SameSessionOk(w: World, e: World, s: nat)
    requires SessionOk(w, s) && s in e.pens && e.pens[s] == w.pens[s] && PlayersOf(e.reg, s) == PlayersOf(w.reg, s)
    ensures SessionOk(e, s)
  {
  }

  /** The step's condition that the session has players is no restriction: its retired dogs had owners. */
  lemma RetiredHadPlayers(w: World, sid: nat, retired: set<nat>)
    requires WorldOk(w) && IsListed(w.reg, sid)
    requires sid in w.pens && retired <= w.pens[sid].dogs && retired != {}
    ensures sid in w.reg.players
  {
    assert SessionOk(w, sid);
    var d :| d in retired;
    var id :| id in PlayersOf(w.reg, sid) && PlayersOf(w.reg, sid)[id].dog == d;
  }

  lemma TickKeeps(w: World, sid: nat, retired: set<nat>, r: World)
    requires WorldOk(w) && TickStep(w, sid, retired, r)
    ensures WorldOk(r)
  {
    assert SessionOk(w, sid);
    var left := w.pens[sid].dogs - retired;
    if retired == {} {
      assert left == w.pens[sid].dogs;
      assert r.pens == w.pens;
    } else {
      CleanedKeeps(w.reg, sid, w.pens[sid].dogs, left);
      UnlistedExact(w.reg.listed, sid);
    }
    forall s | IsListed(r.reg, s) ensures SessionOk(r, s) {
      ListedStays(w, sid, retired, r, s);
      assert SessionOk(w, s);
    }
  }

  lemma ListedStays(w: World, sid: nat, retired: set<nat>, r: World, s: nat)
    requires ListedOk(w.reg) && TickStep(w, sid, retired, r) && IsListed(r.reg, s)
    ensures IsListed(w.reg, s)
  {
    UnlistedExact(w.reg.listed, sid);
    var k :| 0 <= k < |r.reg.listed| && r.reg.listed[k].id == s;
    assert r.reg.listed[k] in w.reg.listed;
  }

  lemma NextKeeps(maps: set<string>, w: World, a: Action, r: World)
    requires WorldOk(w) && Next(maps, w, a, r)
    ensures WorldOk(r)
  {
    match a
    case Join(mapId, name, token, found) =>
      match found {
        case At(k) =>
          if name != "" {
            assert IsListed(w.reg, w.reg.listed[k].id);
            EnteredKeeps(w, w.reg.listed[k].id, token);
          }
        case NotFound =>
          if mapId in maps {
            OpenedKeeps(w, mapId);
            if name != "" {
              EnteredKeeps(Opened(w, mapId), w.reg.nextSession, token);
            }
          }
      }
    case Tick(sid, retired) => TickKeeps(w, sid, retired, r);
  }

  /* ---- whole runs ---- */

  /** `trace[i]` is the state before action `i`. */
  ghost predicate IsRun(maps: set<string>, actions: seq<Action>, trace: seq<World>) {
    && |trace| == |actions| + 1 && trace[0] == START
    && forall i {:trigger StepAt(maps, actions, trace, i)} :: 0 <= i < |actions| ==> StepAt(maps, actions, trace, i)
  }

  ghost predicate StepAt(maps: set<string>, actions: seq<Action>, trace: seq<World>, i: int) {
    0 <= i < |actions| && i + 1 < |trace| && Next(maps, trace[i], actions[i], trace[i + 1])
  }

  /** In every reachable state tokens and players are in bijection, ids are below their counters, and
      the players of each listed session match its dogs one to one. */
  lemma {:induction false} RunConsistent(maps: set<string>, actions: seq<Action>, trace: seq<World>, i: nat)
    requires IsRun(maps, actions, trace) && i < |trace|
    ensures WorldOk(trace[i])
  {
    if i > 0 {
      RunConsistent(maps, actions, trace, i - 1);
      assert StepAt(maps, actions, trace, i - 1);
      NextKeeps(maps, trace[i - 1], actions[i - 1], trace[i]);
    }
  }

  /* ---- do all listed sessions have players? ---- */

  ghost predicate Populated(r: Registry) { forall sid :: IsListed(r, sid) ==> sid in r.players }

  /** A join that would open a session but has no name leaves the new session without players. */
  predicate OpensEmpty(maps: set<string>, a: Action) {
    a.Join? && a.name == "" && a.found.NotFound? && a.mapId in maps
  }

  lemma EnteredPopulated(w: World, sid: nat, token: Token)
    requires WorldOk(w) && IsListed(w.reg, sid) && token !in w.reg.tokens
    requires forall s :: IsListed(w.reg, s) ==> s == sid || s in w.reg.players
    ensures Populated(Entered(w, sid, token).reg)
  {
    var e := Entered(w, sid, token);
    forall s | IsListed(e.reg, s) ensures s in e.reg.players {
      SameList(w.reg, e.reg, s);
    }
  }

  lemma TickPopulated(w: World, sid: nat, retired: set<nat>, r: World)
    requires WorldOk(w) && Populated(w.reg) && TickStep(w, sid, retired, r)
    ensures Populated(r.reg)
  {
    if retired != {} {
      var left := w.pens[sid].dogs - retired;
      CleanedSessions(w.reg, sid, left);
      forall s | IsListed(r.reg, s) ensures s in r.reg.players {
        var k :| 0 <= k < |r.reg.listed| && r.reg.listed[k].id == s;
        assert r.reg.listed[k] in w.reg.listed;
        assert IsListed(w.reg, s);
      }
    }
  }

  /** One step keeps every listed session populated iff it is not such a join. */
  lemma PopulatedIff(maps: set<string>, w: World, a: Action, r: World)
    requires WorldOk(w) && Populated(w.reg) && Next(maps, w, a, r)
    ensures Populated(r.reg) <==> !OpensEmpty(maps, a)
  {
    match a
    case Join(mapId, name, token, found) =>
      match found {
        case At(k) =>
          if name != "" {
            assert IsListed(w.reg, w.reg.listed[k].id);
            EnteredPopulated(w, w.reg.listed[k].id, token);
          }
        case NotFound =>
          if mapId in maps {
            OpenedKeeps(w, mapId);
            if name != "" {
              EnteredPopulated(Opened(w, mapId), w.reg.nextSession, token);
            } else {
              OneMoreListed(w.reg, mapId);
              assert IsListed(r.reg, w.reg.nextSession) && w.reg.nextSession !in r.reg.players;
            }
          }
      }
    case Tick(sid, retired) => TickPopulated(w, sid, retired, r);
  }

  /** While no such join happens, every listed session has players; the web layer rejects empty names
      before they get here. */
  lemma {:induction false} RunPopulated(maps: set<string>, actions: seq<Action>, trace: seq<World>, i: nat)
    requires IsRun(maps, actions, trace) && i < |trace|
    requires forall k :: 0 <= k < i ==> !OpensEmpty(maps, actions[k])
    ensures Populated(trace[i].reg)
  {
    if i > 0 {
      RunPopulated(maps, actions, trace, i - 1);
      RunConsistent(maps, actions, trace, i - 1);
      assert StepAt(maps, actions, trace, i - 1);
      PopulatedIff(maps, trace[i - 1], actions[i - 1], trace[i]);
    }
  }

  /* ---- is the table of sessions right? ---- */

  predicate Served(r: Registry, mapId: string) { exists k :: 0 <= k < |r.listed| && r.listed[k].mapId == mapId }

  /** Whatever the lookup for the map finds is right: a listed session of the map, or none if there is none. */
  ghost predicate RightFor(r: Registry, mapId: string) {
    && (Finds(r, mapId, NotFound) ==> !Served(r, mapId))
    && forall k: nat :: Finds(r, mapId, At(k)) ==> k < |r.listed| && r.listed[k].mapId == mapId
  }

  /** Each place in the table holds the session it was recorded for. */
  predicate PlacesHold(r: Registry) {
    forall m, sid :: m in r.table && sid in r.table[m] ==>
      r.table[m][sid] < |r.listed| && r.listed[r.table[m][sid]] == Listed(sid, m)
  }

  predicate DistinctMaps(listed: seq<Listed>) {
    forall i, j :: 0 <= i < j < |listed| ==> listed[i].mapId != listed[j].mapId
  }

  ghost predicate TableOk(w: World) {
    && (forall m :: m in w.reg.table ==> w.reg.table[m] != map[])
    && (forall k :: 0 <= k < |w.reg.listed| ==> w.reg.listed[k].mapId in w.reg.table)
    && DistinctMaps(w.reg.listed)
    && (!w.dropped ==> PlacesHold(w.reg))
    && (w.dropped ==> exists m :: m in w.reg.table && !Served(w.reg, m))
  }

  lemma AddedTable(w: World, mapId: string)
    requires TableOk(w) && Finds(w.reg, mapId, NotFound)
    ensures TableOk(Opened(w, mapId))
  {
    var r, o := w.reg, Opened(w, mapId).reg;
    assert mapId !in r.table;
    assert r.nextSession in o.table[mapId];
    if w.dropped {
      var m :| m in r.table && !Served(r, m);
      assert m in o.table && !Served(o, m);
    }
  }

  lemma UnlistedMaps(listed: seq<Listed>, k: nat)
    requires k < |listed| && DistinctMaps(listed)
    ensures var u := listed[..k] + listed[k + 1..];
      DistinctMaps(u) && forall i :: 0 <= i < |u| ==> u[i] in listed && u[i].mapId != listed[k].mapId
  {
    var u := listed[..k] + listed[k + 1..];
    assert forall i :: 0 <= i < |u| ==> u[i] == listed[if i < k then i else i + 1];
  }

  lemma {:induction false} DroppedTable(w: World, sid: nat, r: World)
    requires TableOk(w) && ListedOk(w.reg) && IsListed(w.reg, sid)
    requires r.reg.table == w.reg.table && r.reg.listed == Unlisted(w.reg.listed, sid) && r.dropped
    ensures TableOk(r)
  {
    var k :| 0 <= k < |w.reg.listed| && w.reg.listed[k].id == sid;
    UnlistedAt(w.reg.listed, sid, k);
    UnlistedMaps(w.reg.listed, k);
    NoLongerServed(w, r, w.reg.listed[k].mapId);
  }

  lemma NoLongerServed(w: World, r: World, mapId: string)
    requires TableOk(w) && mapId in w.reg.table && r.reg.table == w.reg.table && r.dropped
    requires DistinctMaps(r.reg.listed)
    requires forall i :: 0 <= i < |r.reg.listed| ==> r.reg.listed[i] in w.reg.listed && r.reg.listed[i].mapId != mapId
    ensures TableOk(r)
  {
    assert !Served(r.reg, mapId);
  }

  lemma SameTable(w: World, r: World)
    requires TableOk(w) && r.reg.table == w.reg.table && r.reg.listed == w.reg.listed && r.dropped == w.dropped
    ensures TableOk(r)
  {
    if w.dropped {
      var m :| m in w.reg.table && !Served(w.reg, m);
      assert !Served(r.reg, m);
    }
  }

  lemma NextTable(maps: set<string>, w: World, a: Action, r: World)
    requires WorldOk(w) && TableOk(w) && Next(maps, w, a, r)
    ensures TableOk(r)
  {
    match a
    case Join(mapId, name, token, found) =>
      if found.NotFound? && mapId in maps {
        AddedTable(w, mapId);
        SameTable(Opened(w, mapId), r);
      } else {
        SameTable(w, r);
      }
    case Tick(sid, retired) => TickTable(w, sid, retired, r);
  }

  lemma TickTable(w: World, sid: nat, retired: set<nat>, r: World)
    requires WorldOk(w) && TableOk(w) && TickStep(w, sid, retired, r)
    ensures TableOk(r)
  {
    TickList(w, sid, retired, r);
    if IsListed(r.reg, sid) {
      SameTable(w, r);
    } else {
      DroppedTable(w, sid, r);
    }
  }

  /** A tick leaves the list as it is, or takes the session off it. */
  lemma {:induction false} TickList(w: World, sid: nat, retired: set<nat>, r: World)
    requires ListedOk(w.reg) && TickStep(w, sid, retired, r)
    ensures r.reg.table == w.reg.table
    ensures r.reg.listed == if IsListed(r.reg, sid) then w.reg.listed else Unlisted(w.reg.listed, sid)
  {
    UnlistedExact(w.reg.listed, sid);
    if k :| 0 <= k < |r.reg.listed| && r.reg.listed[k].id == sid {
      assert r.reg.listed[k] !in Unlisted(w.reg.listed, sid);
    }
  }

  lemma {:induction false} RunTable(maps: set<string>, actions: seq<Action>, trace: seq<World>, i: nat)
    requires IsRun(maps, actions, trace) && i < |trace|
    ensures TableOk(trace[i])
  {
    if i > 0 {
      RunTable(maps, actions, trace, i - 1);
      RunConsistent(maps, actions, trace, i - 1);
      assert StepAt(maps, actions, trace, i - 1);
      NextTable(maps, trace[i - 1], actions[i - 1], trace[i]);
    }
  }

  /** Step `k` takes a session off the list. */
  ghost predicate Drops(trace: seq<World>, k: int) {
    0 <= k && k + 1 < |trace| && exists sid :: IsListed(trace[k].reg, sid) && !IsListed(trace[k + 1].reg, sid)
  }

  lemma DropsIff(maps: set<string>, w: World, a: Action, r: World)
    requires WorldOk(w) && Next(maps, w, a, r)
    ensures r.dropped <==> w.dropped || exists sid :: IsListed(w.reg, sid) && !IsListed(r.reg, sid)
  {
    match a
    case Join(mapId, name, token, found) =>
      if found.NotFound? && mapId in maps {
        OneMoreListed(w.reg, mapId);
        assert r.reg.listed == SessionAdded(w.reg, mapId).listed;
        forall sid | IsListed(w.reg, sid) ensures IsListed(r.reg, sid) {
          SameList(r.reg, SessionAdded(w.reg, mapId), sid);
        }
      } else {
        forall sid | IsListed(w.reg, sid) ensures IsListed(r.reg, sid) {
          SameList(r.reg, w.reg, sid);
        }
      }
    case Tick(sid, retired) =>
      TickList(w, sid, retired, r);
      if IsListed(r.reg, sid) {
        forall s | IsListed(w.reg, s) ensures IsListed(r.reg, s) {
          SameList(r.reg, w.reg, s);
        }
      }
  }

  lemma DropsAt(maps: set<string>, actions: seq<Action>, trace: seq<World>, i: nat)
    requires IsRun(maps, actions, trace) && i < |actions|
    ensures trace[i + 1].dropped <==> trace[i].dropped || Drops(trace, i)
  {
    RunConsistent(maps, actions, trace, i);
    assert StepAt(maps, actions, trace, i);
    DropsIff(maps, trace[i], actions[i], trace[i + 1]);
  }

  lemma {:induction false} DroppedIff(maps: set<string>, actions: seq<Action>, trace: seq<World>, i: nat)
    requires IsRun(maps, actions, trace) && i < |trace|
    ensures trace[i].dropped <==> exists k :: 0 <= k < i && Drops(trace, k)
  {
    if i > 0 {
      DroppedIff(maps, actions, trace, i - 1);
      DropsAt(maps, actions, trace, i - 1);
    }
  }

  /** The table of places is not updated when a session is dropped. So the lookup is right for all maps
      exactly as long as no session has been dropped. */
  lemma LookupRightIffNoneDropped(maps: set<string>, actions: seq<Action>, trace: seq<World>, i: nat)
    requires IsRun(maps, actions, trace) && i < |trace|
    ensures (forall m :: RightFor(trace[i].reg, m)) <==> !exists k :: 0 <= k < i && Drops(trace, k)
  {
    DroppedIff(maps, actions, trace, i);
    RunTable(maps, actions, trace, i);
    TableRightIff(trace[i]);
  }

  lemma TableRightIff(w: World)
    requires TableOk(w)
    ensures (forall m :: RightFor(w.reg, m)) <==> !w.dropped
  {
    var r := w.reg;
    if w.dropped {
      var m :| m in r.table && !Served(r, m);
      var sid :| sid in r.table[m];
      assert Finds(r, m, At(r.table[m][sid]));
      assert !RightFor(r, m);
    }
  }

  /** A shortest such run: the only player of the only session retires, and the next join on the map
      is sent to a place outside the empty list. */
  lemma StaleLookup(mapId: string, name: string, token: Token) returns (actions: seq<Action>, trace: seq<World>)
    requires name != ""
    ensures IsRun({mapId}, actions, trace) && |trace| == 3
    ensures trace[2].reg.listed == [] && Finds(trace[2].reg, mapId, At(0))
  {
    var joined := Entered(Opened(START, mapId), 0, token);
    var cleaned := World(Cleaned(joined.reg, 0, {}), joined.pens[0 := Pen({}, 1)], true);
    actions, trace := [Join(mapId, name, token, NotFound), Tick(0, {0})], [START, joined, cleaned];
    assert JoinStep({mapId}, START, actions[0], joined, Ok(token));
    assert joined.reg.listed == [Listed(0, mapId)] && joined.pens[0].dogs == {0};
    assert joined.reg.players[0] == map[0 := Player(0, 0, 0)];
    assert Gone(joined.reg, 0, {}) == {0};
    assert joined.reg.players[0] - {0} == map[];
    assert IsListed(joined.reg, 0) && !IsListed(cleaned.reg, 0);
    assert TickStep(joined, 0, {0}, cleaned);
    assert StepAt({mapId}, actions, trace, 0) && StepAt({mapId}, actions, trace, 1);
    assert 0 in cleaned.reg.table[mapId];
  }

  /** No shorter run will do: before the second action nothing is dropped. */
  lemma {:induction false} StaleNeedsTwo(maps: set<string>, actions: seq<Action>, trace: seq<World>, i: nat,
                                         mapId: string)
    requires IsRun(maps, actions, trace) && i < |trace| && !RightFor(trace[i].reg, mapId)
    ensures i >= 2
  {
    LookupRightIffNoneDropped(maps, actions, trace, i);
    var k :| 0 <= k < i && Drops(trace, k);
  }

  /** A join without a name on a map without a session lists a session nobody plays in. */
  lemma NamelessJoin(mapId: string, token: Token) returns (r: World)
    ensures JoinStep({mapId}, START, Join(mapId, "", token, NotFound), r, Err(BAD_NAME))
    ensures IsListed(r.reg, 0) && r.reg.players == map[]
  {
    r := Opened(START, mapId);
    assert r.reg.listed[0].id == 0;
  }
}
