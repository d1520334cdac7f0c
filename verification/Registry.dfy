/** Players, tokens and sessions: containers that must agree with each other. */
module Registries {
  import opened Wrappers

  type Token = string

  /** A player, with the ids of its session and of its dog for the two pointers it holds. */
  datatype Player = Player(id: nat, session: nat, dog: nat)

  datatype Listed = Listed(id: nat, mapId: string)

  /** The containers of `Players`, of `PlayersToken` and of the application. */
  datatype Registry = Registry(
    players: map<nat, map<nat, Player>>, nextPlayer: nat,
    tokens: map<Token, Player>, tokenOf: map<nat, Token>,
    listed: seq<Listed>, table: map<string, map<nat, nat>>, nextSession: nat)

  const EMPTY := Registry(map[], 0, map[], map[], [], map[], 0)

  function PlayersOf(r: Registry, sid: nat): map<nat, Player> { if sid in r.players then r.players[sid] else map[] }

  /** Both overloads of `Players::Add` insert like this. */
  function Inserted(players: map<nat, map<nat, Player>>, p: Player): map<nat, map<nat, Player>> {
    players[p.session := Emplace(if p.session in players then players[p.session] else map[], p.id, p)]
  }

  function Added(r: Registry, p: Player): Registry { r.(players := Inserted(r.players, p)) }

  function WithToken(r: Registry, p: Player, token: Token): Registry {
    r.(tokens := Emplace(r.tokens, token, p), tokenOf := Emplace(r.tokenOf, p.id, token))
  }

  /** A new player with its token, as `Join` adds it. */
  function Enrolled(r: Registry, sid: nat, dog: nat, token: Token): Registry {
    var p := Player(r.nextPlayer, sid, dog);
    WithToken(Added(r, p).(nextPlayer := r.nextPlayer + 1), p, token)
  }

  /** A player that comes back with its own id, as a restore adds it. */
  function Readmitted(r: Registry, p: Player, token: Token): Registry {
    var s := WithToken(r, p, token);
    Added(s, p).(nextPlayer := if p.id >= r.nextPlayer then p.id + 1 else r.nextPlayer)
  }

  /* ---- consistency ---- */

  predicate Registered(r: Registry, p: Player) {
    p.session in r.players && p.id in r.players[p.session] && r.players[p.session][p.id] == p
  }

  /** The token leads to a registered player, whose id leads back. */
  predicate TokenOk(r: Registry, t: Token)
    requires t in r.tokens
  {
    r.tokens[t].id in r.tokenOf && r.tokenOf[r.tokens[t].id] == t && Registered(r, r.tokens[t])
  }

  /** The id leads to a token that leads back. */
  predicate IdOk(r: Registry, id: nat)
    requires id in r.tokenOf
  {
    r.tokenOf[id] in r.tokens && r.tokens[r.tokenOf[id]].id == id
  }

  predicate HasToken(r: Registry, p: Player) {
    p.id in r.tokenOf && r.tokenOf[p.id] in r.tokens && r.tokens[r.tokenOf[p.id]] == p
  }

  /** The two token maps are inverse to each other and cover exactly the registered players. */
  ghost predicate TokensMatch(r: Registry) {
    && (forall t :: t in r.tokens ==> TokenOk(r, t))
    && (forall id :: id in r.tokenOf ==> IdOk(r, id))
    && (forall p :: Registered(r, p) ==> HasToken(r, p))
  }

  /** Every player under its session and its id, ids below the counter, no empty entry. */
  ghost predicate PlayersOk(r: Registry) {
    && (forall s, id :: s in r.players && id in r.players[s] ==>
          r.players[s][id].id == id && r.players[s][id].session == s && id < r.nextPlayer)
    && (forall s :: s in r.players ==> r.players[s] != map[])
  }

  predicate IsListed(r: Registry, sid: nat) { exists k :: 0 <= k < |r.listed| && r.listed[k].id == sid }

  predicate DistinctIds(listed: seq<Listed>) { forall i, j :: 0 <= i < j < |listed| ==> listed[i].id != listed[j].id }

  predicate ListedOk(r: Registry) {
    && DistinctIds(r.listed)
    && (forall i :: 0 <= i < |r.listed| ==> r.listed[i].id < r.nextSession)
    && (forall s :: s in r.players ==> IsListed(r, s))
  }

  ghost predicate Consistent(r: Registry) { TokensMatch(r) && PlayersOk(r) && ListedOk(r) }

  /** Every dog has a player, and no two of the players share one. */
  ghost predicate Owners(crew: map<nat, Player>, dogs: set<nat>) {
    && (forall d :: d in dogs ==> exists id :: id in crew && crew[id].dog == d)
    && (forall i, j :: i in crew && j in crew && i != j ==> crew[i].dog != crew[j].dog)
  }

  /** The players of a session match its dogs one to one. */
  ghost predicate DogsMatch(crew: map<nat, Player>, dogs: set<nat>) {
    Owners(crew, dogs) && forall id :: id in crew ==> crew[id].dog in dogs
  }

  lemma NextIdIsFresh(r: Registry)
    requires Consistent(r)
    ensures r.nextPlayer !in r.tokenOf
    ensures forall s :: s in r.players ==> r.nextPlayer !in r.players[s]
  {
    forall id | id in r.tokenOf ensures id < r.nextPlayer {
      assert Registered(r, r.tokens[r.tokenOf[id]]);
    }
  }

  /** A player with an id and a token that nobody has. */
  ghost predicate Newcomer(r: Registry, p: Player, token: Token) {
    p.id !in r.tokenOf && token !in r.tokens && forall s :: s in r.players ==> p.id !in r.players[s]
  }

  lemma AdmittedTokens(r: Registry, p: Player, token: Token)
    requires TokensMatch(r) && Newcomer(r, p, token)
    ensures TokensMatch(WithToken(Added(r, p), p, token))
  {
    var e := WithToken(Added(r, p), p, token);
    assert Registered(e, p);
    forall t | t in e.tokens ensures TokenOk(e, t) {
      if t != token {
        assert TokenOk(r, t);
      }
    }
    forall id | id in e.tokenOf ensures IdOk(e, id) {
      if id != p.id {
        assert IdOk(r, id);
      }
    }
    forall q | Registered(e, q) ensures HasToken(e, q) {
      if q != p {
        assert Registered(r, q) && HasToken(r, q);
      }
    }
  }

  lemma SameTokens(r: Registry, s: Registry)
    requires TokensMatch(r) && s.players == r.players && s.tokens == r.tokens && s.tokenOf == r.tokenOf
    ensures TokensMatch(s)
  {
    forall t | t in s.tokens ensures TokenOk(s, t) {
      assert TokenOk(r, t);
    }
    forall id | id in s.tokenOf ensures IdOk(s, id) {
      assert IdOk(r, id);
    }
    forall p | Registered(s, p) ensures HasToken(s, p) {
      assert Registered(r, p);
    }
  }

  lemma AdmittedPlayers(r: Registry, p: Player, next: nat)
    requires PlayersOk(r) && r.nextPlayer <= next && p.id < next
    requires forall s :: s in r.players ==> p.id !in r.players[s]
    ensures PlayersOk(Added(r, p).(nextPlayer := next))
  {
    assert Emplace(PlayersOf(r, p.session), p.id, p) != map[];
  }

  lemma AdmittedDogs(crew: map<nat, Player>, p: Player, dogs: set<nat>)
    requires DogsMatch(crew, dogs) && p.dog !in dogs && p.id !in crew
    ensures DogsMatch(crew[p.id := p], dogs + {p.dog})
  {
    var after := crew[p.id := p];
    forall d | d in dogs + {p.dog} ensures exists id :: id in after && after[id].dog == d {
      if d == p.dog {
        assert after[p.id].dog == d;
      } else {
        var id :| id in crew && crew[id].dog == d;
        assert after[id].dog == d;
      }
    }
  }

  /** Whoever is added, all agrees again. */
  lemma AdmittedKeeps(r: Registry, p: Player, token: Token, next: nat)
    requires Consistent(r) && IsListed(r, p.session) && Newcomer(r, p, token) && r.nextPlayer <= next && p.id < next
    ensures Consistent(WithToken(Added(r, p), p, token).(nextPlayer := next))
  {
    AdmittedTokens(r, p, token);
    AdmittedPlayers(r, p, next);
    var e := WithToken(Added(r, p), p, token).(nextPlayer := next);
    SameTokens(WithToken(Added(r, p), p, token), e);
    assert PlayersOk(e) && ListedOk(e);
  }

  lemma EnrolledKeeps(r: Registry, sid: nat, dog: nat, token: Token, dogs: set<nat>)
    requires Consistent(r) && IsListed(r, sid) && token !in r.tokens
    requires DogsMatch(PlayersOf(r, sid), dogs) && dog !in dogs
    ensures var e := Enrolled(r, sid, dog, token);
      && Consistent(e) && DogsMatch(PlayersOf(e, sid), dogs + {dog})
      && e.tokens == r.tokens[token := Player(r.nextPlayer, sid, dog)]
      && (forall s :: s != sid ==> PlayersOf(e, s) == PlayersOf(r, s))
  {
    var p := Player(r.nextPlayer, sid, dog);
    NextIdIsFresh(r);
    EnrolledIsAdmitted(r, p, token);
    AdmittedKeeps(r, p, token, r.nextPlayer + 1);
    AdmittedDogs(PlayersOf(r, sid), p, dogs);
  }

  lemma EnrolledIsAdmitted(r: Registry, p: Player, token: Token)
    requires p.id == r.nextPlayer && Newcomer(r, p, token)
    ensures var e := Enrolled(r, p.session, p.dog, token);
      && e == WithToken(Added(r, p), p, token).(nextPlayer := r.nextPlayer + 1)
      && PlayersOf(e, p.session) == PlayersOf(r, p.session)[p.id := p]
      && e.tokens == r.tokens[token := p]
      && (forall s :: s != p.session ==> PlayersOf(e, s) == PlayersOf(r, s))
  {
  }

  /* ---- removal ---- */

  /** `sessions_.erase` of the first session with the id. */
  function Unlisted(listed: seq<Listed>, sid: nat): seq<Listed> {
    if listed == [] then []
    else if listed[0].id == sid then listed[1..]
    else [listed[0]] + Unlisted(listed[1..], sid)
  }

  /** The session's entry after some of its players left: the last one takes the entry along. */
  function LeftPlayers(players: map<nat, map<nat, Player>>, sid: nat, left: map<nat, Player>): map<nat, map<nat,
                       Player>> {
    if left == map[] then players - {sid} else players[sid := left]
  }

  function LeftListed(listed: seq<Listed>, sid: nat, left: map<nat, Player>): seq<Listed> {
    if left == map[] then Unlisted(listed, sid) else listed
  }

  /** The erasures for one player, in the order of the loop body; nothing if a find would miss. */
  function EraseOne(r: Registry, sid: nat, id: nat): Option<Registry> {
    if sid !in r.players || id !in r.players[sid] || id !in r.tokenOf || r.tokenOf[id] !in r.tokens then None
    else
      var left := r.players[sid] - {id};
      Some(r.(
        players := LeftPlayers(r.players, sid, left), listed := LeftListed(r.listed, sid, left),
        tokens := r.tokens - {r.tokenOf[id]}, tokenOf := r.tokenOf - {id}))
  }

  /** The loop of `RemoveInactivePlayers` over the copy of the session's players, in the given order. */
  function EraseLoop(r: Registry, sid: nat, copy: map<nat, Player>, order: seq<nat>, dogs: set<nat>): Option<Registry>
    requires forall id :: id in order ==> id in copy
  {
    if order == [] then Some(r)
    else
      var (init, id) := (order[..|order| - 1], order[|order| - 1]);
      assert id in order;
      match EraseLoop(r, sid, copy, init, dogs)
      case None => None
      case Some(s) => if copy[id].dog in dogs then Some(s) else EraseOne(s, sid, id)
  }

  function TokensOf(r: Registry, gone: set<nat>): set<Token> { set id | id in gone && id in r.tokenOf :: r.tokenOf[id] }

  /** The registry without these players of the session. */
  function Without(r: Registry, sid: nat, gone: set<nat>): Registry
    requires sid in r.players
  {
    var left := r.players[sid] - gone;
    r.(
      players := LeftPlayers(r.players, sid, left), listed := LeftListed(r.listed, sid, left),
      tokens := r.tokens - TokensOf(r, gone), tokenOf := r.tokenOf - gone)
  }

  function Gone(r: Registry, sid: nat, dogs: set<nat>): set<nat>
    requires sid in r.players
  {
    set id | id in r.players[sid] && r.players[sid][id].dog !in dogs
  }

  /** What `RemoveInactivePlayers` should leave. */
  function Cleaned(r: Registry, sid: nat, dogs: set<nat>): Registry
    requires sid in r.players
  {
    Without(r, sid, Gone(r, sid, dogs))
  }

  lemma WithoutNobody(r: Registry, sid: nat)
    requires Consistent(r) && sid in r.players
    ensures Without(r, sid, {}) == r
  {
    assert r.players[sid] - {} == r.players[sid];
    assert r.players[sid := r.players[sid]] == r.players;
    assert TokensOf(r, {}) == {};
    assert r.tokens - {} == r.tokens && r.tokenOf - {} == r.tokenOf;
  }

  lemma LeftAgain(players: map<nat, map<nat, Player>>, listed: seq<Listed>, sid: nat, left: map<nat, Player>,
                  rest: map<nat, Player>)
    requires left != map[]
    ensures LeftPlayers(LeftPlayers(players, sid, left), sid, rest) == LeftPlayers(players, sid, rest)
    ensures LeftListed(LeftListed(listed, sid, left), sid, rest) == LeftListed(listed, sid, rest)
  {
    assert players[sid := left] - {sid} == players - {sid};
    assert players[sid := left][sid := rest] == players[sid := rest];
  }

  lemma TokensWithout(r: Registry, gone: set<nat>, id: nat)
    requires TokensMatch(r) && id in r.tokenOf && id !in gone
    ensures r.tokenOf[id] in r.tokens - TokensOf(r, gone)
    ensures r.tokens - TokensOf(r, gone) - {r.tokenOf[id]} == r.tokens - TokensOf(r, gone + {id})
    ensures r.tokenOf - gone - {id} == r.tokenOf - (gone + {id})
  {
    assert IdOk(r, id);
    forall other | other in gone && other in r.tokenOf ensures r.tokenOf[other] != r.tokenOf[id] {
      assert IdOk(r, other);
    }
    assert TokensOf(r, gone + {id}) == TokensOf(r, gone) + {r.tokenOf[id]};
  }

  /** One more erasure: nothing it looks up is missing, because the entry of the session goes only with
      the last of its players. */
  lemma EraseNext(r: Registry, sid: nat, gone: set<nat>, id: nat)
    requires TokensMatch(r) && PlayersOk(r) && sid in r.players
    requires id in r.players[sid] && id !in gone
    ensures EraseOne(Without(r, sid, gone), sid, id) == Some(Without(r, sid, gone + {id}))
  {
    var left := r.players[sid] - gone;
    assert id in left;
    LeftAgain(r.players, r.listed, sid, left, left - {id});
    assert left - {id} == r.players[sid] - (gone + {id});
    assert Registered(r, r.players[sid][id]);
    TokensWithout(r, gone, id);
  }

  predicate NoRepeats(order: seq<nat>) { forall i, j :: 0 <= i < j < |order| ==> order[i] != order[j] }

  /** The players of the order that are to go. */
  function GoneIn(gone: set<nat>, order: seq<nat>): set<nat> { set id | id in order && id in gone }

  lemma GoneSnoc(gone: set<nat>, order: seq<nat>)
    requires order != [] && NoRepeats(order)
    ensures var (init, last) := (order[..|order| - 1], order[|order| - 1]);
      NoRepeats(init) && last !in init
      && GoneIn(gone, order) == if last in gone then GoneIn(gone, init) + {last} else GoneIn(gone, init)
  {
    var (init, last) := (order[..|order| - 1], order[|order| - 1]);
    assert order == init + [last];
  }

  lemma {:induction false} EraseLoopPart(r: Registry, sid: nat, order: seq<nat>, dogs: set<nat>)
    requires Consistent(r) && sid in r.players && NoRepeats(order)
    requires forall id :: id in order ==> id in r.players[sid]
    ensures EraseLoop(r, sid, r.players[sid], order, dogs) == Some(Without(r, sid, GoneIn(Gone(r, sid, dogs), order)))
  {
    var gone := Gone(r, sid, dogs);
    if order == [] {
      WithoutNobody(r, sid);
      assert GoneIn(gone, []) == {};
    } else {
      var (init, last) := (order[..|order| - 1], order[|order| - 1]);
      GoneSnoc(gone, order);
      EraseLoopPart(r, sid, init, dogs);
      if last in gone {
        EraseNext(r, sid, GoneIn(gone, init), last);
      }
    }
  }

  /** Whatever order the hash map is walked in, the loop meets no missing entry and removes exactly the
      players whose dog is gone. */
  lemma {:induction false} CleanupIsExact(r: Registry, sid: nat, order: seq<nat>, dogs: set<nat>)
    requires Consistent(r) && sid in r.players && NoRepeats(order)
    requires forall id :: id in order <==> id in r.players[sid]
    ensures EraseLoop(r, sid, r.players[sid], order, dogs) == Some(Cleaned(r, sid, dogs))
  {
    EraseLoopPart(r, sid, order, dogs);
    assert GoneIn(Gone(r, sid, dogs), order) == Gone(r, sid, dogs);
  }

  predicate AbsentFrom(listed: seq<Listed>, sid: nat) { forall i :: 0 <= i < |listed| ==> listed[i].id != sid }

  lemma {:induction false} UnlistedAt(listed: seq<Listed>, sid: nat, k: nat)
    requires k < |listed| && listed[k].id == sid && AbsentFrom(listed[..k], sid)
    ensures Unlisted(listed, sid) == listed[..k] + listed[k + 1..]
  {
    if k > 0 {
      assert listed[..k][0] == listed[0];
      assert listed[1..][..k - 1] == listed[..k][1..];
      UnlistedAt(listed[1..], sid, k - 1);
      assert [listed[0]] + (listed[1..][..k - 1] + listed[1..][k..]) == listed[..k] + listed[k + 1..];
    }
  }

  lemma {:induction false} UnlistedAbsent(listed: seq<Listed>, sid: nat)
    requires AbsentFrom(listed, sid)
    ensures Unlisted(listed, sid) == listed
  {
    if listed != [] {
      UnlistedAbsent(listed[1..], sid);
    }
  }

  lemma DistinctWithout(listed: seq<Listed>, k: nat)
    requires k < |listed| && DistinctIds(listed)
    ensures var u := listed[..k] + listed[k + 1..];
      DistinctIds(u) && forall x :: x in u <==> x in listed && x.id != listed[k].id
  {
    var u := listed[..k] + listed[k + 1..];
    assert forall i :: 0 <= i < |u| ==> u[i] == listed[if i < k then i else i + 1];
    assert listed == listed[..k] + [listed[k]] + listed[k + 1..];
  }

  /** Exactly the session with the id leaves the list; the order of the others stays. */
  lemma {:induction false} UnlistedExact(listed: seq<Listed>, sid: nat)
    requires DistinctIds(listed)
    ensures DistinctIds(Unlisted(listed, sid))
    ensures forall x :: x in Unlisted(listed, sid) <==> x in listed && x.id != sid
  {
    if k :| 0 <= k < |listed| && listed[k].id == sid {
      UnlistedAt(listed, sid, k);
      DistinctWithout(listed, k);
    } else {
      UnlistedAbsent(listed, sid);
    }
  }

  /** Who is left without the given players of a session. */
  lemma WhoIsLeft(r: Registry, sid: nat, gone: set<nat>)
    requires sid in r.players
    ensures forall p ::
      Registered(Without(r, sid, gone), p) <==> Registered(r, p) && (p.session != sid || p.id !in gone)
  {
    var left := r.players[sid] - gone;
    forall p ensures Registered(Without(r, sid, gone), p) <==> Registered(r, p) && (p.session != sid || p.id !in gone) {
      if p.session == sid && p.id in left {
        assert left != map[];
      }
    }
  }

  /** Which tokens are left: those of the players who are. */
  lemma WhichTokensAreLeft(r: Registry, gone: set<nat>)
    requires TokensMatch(r)
    ensures forall t :: t in r.tokens ==> (t in TokensOf(r, gone) <==> r.tokens[t].id in gone)
  {
    forall t | t in r.tokens ensures t in TokensOf(r, gone) <==> r.tokens[t].id in gone {
      if id :| id in gone && id in r.tokenOf && r.tokenOf[id] == t {
        assert r.tokens[t].id == id;
      }
    }
  }

  /** A player's token leads back to it, and to no player of another session. */
  lemma SameSession(r: Registry, sid: nat, gone: set<nat>, p: Player)
    requires TokensMatch(r) && PlayersOk(r) && sid in r.players && gone <= r.players[sid].Keys
    requires Registered(r, p) && p.id in gone
    ensures p.session == sid
  {
    assert Registered(r, r.players[sid][p.id]);
  }

  lemma KeptPlayer(r: Registry, sid: nat, gone: set<nat>, p: Player)
    requires TokensMatch(r) && PlayersOk(r) && sid in r.players && gone <= r.players[sid].Keys
    requires Registered(r, p) && (p.session != sid || p.id !in gone)
    ensures p.id in r.tokenOf && p.id !in gone
    ensures r.tokenOf[p.id] in r.tokens && r.tokenOf[p.id] !in TokensOf(r, gone) && r.tokens[r.tokenOf[p.id]] == p
  {
    WhichTokensAreLeft(r, gone);
    if p.id in gone {
      SameSession(r, sid, gone, p);
    }
  }

  lemma WithoutTokens(r: Registry, sid: nat, gone: set<nat>)
    requires TokensMatch(r) && PlayersOk(r) && sid in r.players && gone <= r.players[sid].Keys
    ensures TokensMatch(Without(r, sid, gone))
  {
    var w := Without(r, sid, gone);
    WhoIsLeft(r, sid, gone);
    WhichTokensAreLeft(r, gone);
    forall t | t in w.tokens ensures TokenOk(w, t) {
      assert TokenOk(r, t);
    }
    forall id | id in w.tokenOf ensures IdOk(w, id) {
      assert IdOk(r, id);
    }
    forall p | Registered(w, p) ensures HasToken(w, p) {
      KeptPlayer(r, sid, gone, p);
    }
  }

  lemma WithoutListed(r: Registry, sid: nat, gone: set<nat>)
    requires ListedOk(r) && sid in r.players
    ensures ListedOk(Without(r, sid, gone))
  {
    var w := Without(r, sid, gone);
    UnlistedExact(r.listed, sid);
    forall i | 0 <= i < |w.listed| ensures w.listed[i].id < w.nextSession {
      assert w.listed[i] in r.listed;
    }
    forall s | s in w.players ensures IsListed(w, s) {
      var k :| 0 <= k < |r.listed| && r.listed[k].id == s;
      assert r.listed[k] in w.listed;
    }
  }

  lemma WithoutPlayers(r: Registry, sid: nat, gone: set<nat>)
    requires PlayersOk(r) && sid in r.players
    ensures PlayersOk(Without(r, sid, gone))
  {
  }

  lemma WithoutDogs(crew: map<nat, Player>, dogs: set<nat>, left: set<nat>)
    requires DogsMatch(crew, dogs) && left <= dogs
    ensures DogsMatch(crew - (set id | id in crew && crew[id].dog !in left), left)
  {
    var rest := crew - (set id | id in crew && crew[id].dog !in left);
    forall d | d in left ensures exists id :: id in rest && rest[id].dog == d {
      var id :| id in crew && crew[id].dog == d;
      assert id in rest;
    }
  }

  lemma WithoutConsistent(r: Registry, sid: nat, gone: set<nat>)
    requires Consistent(r) && sid in r.players && gone <= r.players[sid].Keys
    ensures Consistent(Without(r, sid, gone))
  {
    WithoutTokens(r, sid, gone);
    WithoutPlayers(r, sid, gone);
    WithoutListed(r, sid, gone);
  }

  lemma LeftOf(r: Registry, sid: nat, gone: set<nat>)
    requires sid in r.players
    ensures PlayersOf(Without(r, sid, gone), sid) == r.players[sid] - gone
    ensures forall s :: s != sid ==> PlayersOf(Without(r, sid, gone), s) == PlayersOf(r, s)
  {
  }

  /** The cleanup leaves everything in agreement with the dogs that are left. */
  lemma CleanedKeeps(r: Registry, sid: nat, dogs: set<nat>, left: set<nat>)
    requires Consistent(r) && sid in r.players && DogsMatch(PlayersOf(r, sid), dogs) && left <= dogs
    ensures Consistent(Cleaned(r, sid, left)) && DogsMatch(PlayersOf(Cleaned(r, sid, left), sid), left)
    ensures forall s :: s != sid ==> PlayersOf(Cleaned(r, sid, left), s) == PlayersOf(r, s)
  {
    var gone := Gone(r, sid, left);
    WithoutConsistent(r, sid, gone);
    LeftOf(r, sid, gone);
    WithoutDogs(r.players[sid], dogs, left);
  }

  /** Some player of the session still has its dog. */
  predicate SomeoneStays(r: Registry, sid: nat, dogs: set<nat>) {
    exists id :: id in PlayersOf(r, sid) && PlayersOf(r, sid)[id].dog in dogs
  }

  /** The cleanup removes exactly the session's players whose dog is gone. */
  lemma CleanedPlayers(r: Registry, sid: nat, dogs: set<nat>)
    requires Consistent(r) && sid in r.players
    ensures forall p ::
      Registered(Cleaned(r, sid, dogs), p) <==> Registered(r, p) && (p.session != sid || p.dog in dogs)
  {
    WhoIsLeft(r, sid, Gone(r, sid, dogs));
    GoneMeansDogless(r, sid, dogs);
  }

  /** It removes exactly their tokens. */
  lemma CleanedTokens(r: Registry, sid: nat, dogs: set<nat>)
    requires Consistent(r) && sid in r.players
    ensures var c := Cleaned(r, sid, dogs);
      && (forall t :: t in c.tokens <==> t in r.tokens && (r.tokens[t].session != sid || r.tokens[t].dog in dogs))
      && (forall t :: t in c.tokens ==> c.tokens[t] == r.tokens[t])
  {
    WhichTokensAreLeft(r, Gone(r, sid, dogs));
    GoneMeansDogless(r, sid, dogs);
  }

  /** It drops the session, from the list and from the players, iff no player stays; and the counters,
      the table and the other sessions are as before. */
  lemma CleanedSessions(r: Registry, sid: nat, dogs: set<nat>)
    requires ListedOk(r) && sid in r.players
    ensures var c := Cleaned(r, sid, dogs);
      && (forall x :: x in c.listed <==> x in r.listed && (x.id != sid || SomeoneStays(r, sid, dogs)))
      && (sid in c.players <==> SomeoneStays(r, sid, dogs))
      && (forall s :: s != sid ==> (s in c.players <==> s in r.players) && PlayersOf(c, s) == PlayersOf(r, s))
      && c.nextPlayer == r.nextPlayer && c.nextSession == r.nextSession && c.table == r.table
  {
    UnlistedExact(r.listed, sid);
    StayersAreLeft(r, sid, dogs);
  }

  lemma StayersAreLeft(r: Registry, sid: nat, dogs: set<nat>)
    requires sid in r.players
    ensures r.players[sid] - Gone(r, sid, dogs) != map[] <==> SomeoneStays(r, sid, dogs)
  {
    var left := r.players[sid] - Gone(r, sid, dogs);
    if SomeoneStays(r, sid, dogs) {
      var id :| id in r.players[sid] && r.players[sid][id].dog in dogs;
      assert id in left;
    } else {
      forall id | id in r.players[sid] ensures id !in left {
        assert id in PlayersOf(r, sid);
      }
    }
  }

  lemma GoneMeansDogless(r: Registry, sid: nat, dogs: set<nat>)
    requires Consistent(r) && sid in r.players
    ensures forall p :: Registered(r, p) ==> (p.id in Gone(r, sid, dogs) <==> p.session == sid && p.dog !in dogs)
    ensures forall t :: t in r.tokens ==> Registered(r, r.tokens[t])
  {
    forall p | Registered(r, p) ensures p.id in Gone(r, sid, dogs) <==> p.session == sid && p.dog !in dogs {
      if p.id in Gone(r, sid, dogs) {
        SameSession(r, sid, Gone(r, sid, dogs), p);
      }
    }
    forall t | t in r.tokens ensures Registered(r, r.tokens[t]) {
      assert TokenOk(r, t);
    }
  }
}