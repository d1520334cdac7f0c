/** The text archive of a saved game. One description of a record serves both directions, as the
    `serialize` templates do. */
module Serialization {
  import opened Wrappers
  import opened Geometry
  import opened Movement
  import opened Dogs
  import opened Gathering

  /** One primitive value of the archive. */
  datatype Datum = Num(n: int) | Real(r: real) | Text(s: string)

  type Stream = seq<Datum>

  /** A value and the rest of the stream, or a value of the wrong kind. */
  type Read<T> = Option<(T, Stream)>

  /** How a type is written, and how it is read. */
  datatype Codec<!T> = Codec(put: T -> Stream, get: Stream -> Read<T>)

  /** What was written is read back, whatever follows it; and nothing else is accepted. */
  ghost predicate Exact<T(!new)>(c: Codec<T>) {
    && (forall x: T, rest: Stream :: c.get(c.put(x) + rest) == Some((x, rest)))
    && (forall s: Stream :: c.get(s).Some? ==> s == c.put(c.get(s).value.0) + c.get(s).value.1)
  }

  /* ---- primitives ---- */

  function NumC(): Codec<int> {
    Codec((n: int) => [Num(n)], (s: Stream) => if s != [] && s[0].Num? then Some((s[0].n, s[1..])) else None)
  }

  function NatC(): Codec<nat> {
    Codec((n: nat) => [Num(n)],
          (s: Stream) => if s != [] && s[0].Num? && s[0].n >= 0 then Some((s[0].n, s[1..])) else None)
  }

  function ScoreC(): Codec<Score> {
    Codec((n: Score) => [Num(n)],
          (s: Stream) => if s != [] && s[0].Num? && 0 <= s[0].n < SCORE_LIMIT then Some((s[0].n, s[1..])) else None)
  }

  function RealC(): Codec<real> {
    Codec((r: real) => [Real(r)], (s: Stream) => if s != [] && s[0].Real? then Some((s[0].r, s[1..])) else None)
  }

  function TextC(): Codec<string> {
    Codec((t: string) => [Text(t)], (s: Stream) => if s != [] && s[0].Text? then Some((s[0].s, s[1..])) else None)
  }

  /** The value of the enumerator. */
  function Code(d: Direction): int {
    match d
    case North => 'U' as int
    case East => 'R' as int
    case West => 'L' as int
    case South => 'D' as int
    case Stop => 'D' as int + 1
  }

  function Decode(n: int): (r: Option<Direction>)
    ensures forall d :: r == Some(d) <==> n == Code(d)
  {
    if n == Code(North) then Some(North)
    else if n == Code(East) then Some(East)
    else if n == Code(West) then Some(West)
    else if n == Code(South) then Some(South)
    else if n == Code(Stop) then Some(Stop)
    else None
  }

  /** A direction is archived as the letter of the action that asks for it. */
  lemma ArchivedAsAsked(action: MoveAction)
    ensures match MoveActionToDirection(action)
      case Ok(Some(d)) => Code(d) == Letter(action)
      case Ok(None) => action == Halt
      case Err(_) => action == Invalid
    ensures forall d :: d != Stop ==>
      exists asked :: MoveActionToDirection(asked) == Ok(Some(d)) && Decode(Letter(asked)) == Some(d)
  {
    assert MoveActionToDirection(MoveUp) == Ok(Some(North)) && MoveActionToDirection(MoveDown) == Ok(Some(South));
    assert MoveActionToDirection(MoveLeft) == Ok(Some(West)) && MoveActionToDirection(MoveRight) == Ok(Some(East));
    forall d | d != Stop
      ensures exists asked :: MoveActionToDirection(asked) == Ok(Some(d)) && Decode(Letter(asked)) == Some(d)
    {
      var asked := match d case North => MoveUp case South => MoveDown case West => MoveLeft case _ => MoveRight;
      assert MoveActionToDirection(asked) == Ok(Some(d)) && Decode(Letter(asked)) == Some(d);
    }
  }

  function DirectionC(): Codec<Direction> {
    Codec((d: Direction) => [Num(Code(d))],
          (s: Stream) =>
            if s != [] && s[0].Num? && Decode(s[0].n).Some? then Some((Decode(s[0].n).value, s[1..])) else None)
  }

  lemma NumExact()
    ensures Exact(NumC())
  {
  }

  lemma NatExact()
    ensures Exact(NatC())
  {
  }

  lemma ScoreExact()
    ensures Exact(ScoreC())
  {
  }

  lemma RealExact()
    ensures Exact(RealC())
  {
  }

  lemma TextExact()
    ensures Exact(TextC())
  {
  }

  lemma DirectionExact()
    ensures Exact(DirectionC())
  {
  }

  /* ---- combinations ---- */

  lemma Regroup<X>(a: seq<X>, b: seq<X>, c: seq<X>)
    ensures a + (b + c) == a + b + c
  {
  }

  lemma Regroup4<X>(a: seq<X>, b: seq<X>, c: seq<X>, d: seq<X>)
    ensures a + (b + (c + d)) == a + b + c + d
  {
  }

  /** Two fields in order. */
  function Pair<T, U>(a: Codec<T>, b: Codec<U>): Codec<(T, U)> {
    Codec((p: (T, U)) => a.put(p.0) + b.put(p.1),
          (s: Stream) =>
            match a.get(s)
            case None => None
            case Some((x, s1)) =>
              match b.get(s1)
              case None => None
              case Some((y, s2)) => Some(((x, y), s2)))
  }

  lemma PairExact<T(!new), U(!new)>(a: Codec<T>, b: Codec<U>)
    requires Exact(a) && Exact(b)
    ensures Exact(Pair(a, b))
  {
    var c := Pair(a, b);
    forall p: (T, U), rest: Stream ensures c.get(c.put(p) + rest) == Some((p, rest)) {
      assert a.put(p.0) + b.put(p.1) + rest == a.put(p.0) + (b.put(p.1) + rest);
    }
    forall s: Stream | c.get(s).Some? ensures s == c.put(c.get(s).value.0) + c.get(s).value.1 {
      var (x, s1) := a.get(s).value;
      var (y, s2) := b.get(s1).value;
      assert a.put(x) + (b.put(y) + s2) == a.put(x) + b.put(y) + s2;
    }
  }

  /** A record as its fields. */
  function Fields<T, U>(c: Codec<T>, build: T -> U, take: U -> T): Codec<U> {
    Codec((u: U) => c.put(take(u)),
          (s: Stream) =>
            match c.get(s)
            case None => None
            case Some((x, rest)) => Some((build(x), rest)))
  }

  lemma FieldsExact<T(!new), U(!new)>(c: Codec<T>, build: T -> U, take: U -> T)
    requires Exact(c) && (forall x :: take(build(x)) == x) && (forall u :: build(take(u)) == u)
    ensures Exact(Fields(c, build, take))
  {
    var f := Fields(c, build, take);
    forall u: U, rest: Stream ensures f.get(f.put(u) + rest) == Some((u, rest)) {
    }
    forall s: Stream | f.get(s).Some? ensures s == f.put(f.get(s).value.0) + f.get(s).value.1 {
    }
  }

  function PutAll<T>(c: Codec<T>, xs: seq<T>): Stream {
    if xs == [] then [] else c.put(xs[0]) + PutAll(c, xs[1..])
  }

  function GetAll<T>(c: Codec<T>, n: nat, s: Stream): Read<seq<T>> {
    if n == 0 then Some(([], s))
    else
      match c.get(s)
      case None => None
      case Some((x, s1)) =>
        match GetAll(c, n - 1, s1)
        case None => None
        case Some((xs, s2)) => Some(([x] + xs, s2))
  }

  /** A vector: its length, then its elements. */
  function VectorC<T>(c: Codec<T>): Codec<seq<T>> {
    Codec((xs: seq<T>) => [Num(|xs|)] + PutAll(c, xs),
          (s: Stream) => if s != [] && s[0].Num? && s[0].n >= 0 then GetAll(c, s[0].n, s[1..]) else None)
  }

  lemma {:induction false} ReadsAll<T(!new)>(c: Codec<T>, xs: seq<T>, rest: Stream)
    requires Exact(c)
    ensures GetAll(c, |xs|, PutAll(c, xs) + rest) == Some((xs, rest))
  {
    if xs == [] {
      assert PutAll(c, xs) + rest == rest;
    } else {
      assert PutAll(c, xs) + rest == c.put(xs[0]) + (PutAll(c, xs[1..]) + rest);
      ReadsAll(c, xs[1..], rest);
      assert [xs[0]] + xs[1..] == xs;
    }
  }

  lemma {:induction false} AcceptsAll<T(!new)>(c: Codec<T>, n: nat, s: Stream)
    requires Exact(c) && GetAll(c, n, s).Some?
    ensures var (xs, rest) := GetAll(c, n, s).value; |xs| == n && s == PutAll(c, xs) + rest
    decreases n
  {
    if n > 0 {
      var (x, s1) := c.get(s).value;
      AcceptsAll(c, n - 1, s1);
      var (xs, s2) := GetAll(c, n - 1, s1).value;
      assert ([x] + xs)[1..] == xs;
      assert c.put(x) + (PutAll(c, xs) + s2) == c.put(x) + PutAll(c, xs) + s2;
    }
  }

  lemma ReadsVector<T(!new)>(c: Codec<T>, xs: seq<T>, rest: Stream)
    requires Exact(c)
    ensures VectorC(c).get(VectorC(c).put(xs) + rest) == Some((xs, rest))
  {
    ReadsAll(c, xs, rest);
    var s := [Num(|xs|)] + PutAll(c, xs) + rest;
    assert s[0] == Num(|xs|) && s[1..] == PutAll(c, xs) + rest;
  }

  lemma AcceptsVector<T(!new)>(c: Codec<T>, s: Stream)
    requires Exact(c) && VectorC(c).get(s).Some?
    ensures var (xs, rest) := VectorC(c).get(s).value; s == VectorC(c).put(xs) + rest
  {
    var n: nat := s[0].n;
    AcceptsAll(c, n, s[1..]);
    var (xs, rest) := GetAll(c, n, s[1..]).value;
    assert s == [s[0]] + s[1..];
    Regroup([s[0]], PutAll(c, xs), rest);
  }

  lemma VectorExact<T(!new)>(c: Codec<T>)
    requires Exact(c)
    ensures Exact(VectorC(c))
  {
    var v := VectorC(c);
    forall xs: seq<T>, rest: Stream ensures v.get(v.put(xs) + rest) == Some((xs, rest)) {
      ReadsVector(c, xs, rest);
    }
    forall s: Stream | v.get(s).Some? ensures s == v.put(v.get(s).value.0) + v.get(s).value.1 {
      AcceptsVector(c, s);
    }
  }

  /* ---- the records ---- */

  datatype DogRepr = DogRepr(
    id: nat, name: string, pos: Vec, bagCapacity: nat, speed: Vec, direction: Direction, score: Score,
    bag: seq<FoundObject>)

  datatype PlayerRepr = PlayerRepr(id: nat, dog: DogRepr, token: string)

  datatype SessionRepr = SessionRepr(id: nat, mapId: string, players: seq<PlayerRepr>, lost: seq<LostObject>)

  function MakeVec(f: (real, real)): Vec { Vec(f.0, f.1) }

  function TakeVec(v: Vec): (real, real) { (v.x, v.y) }

  function VecC(): Codec<Vec> { Fields(Pair(RealC(), RealC()), MakeVec, TakeVec) }

  function MakeFound(f: (nat, (nat, int))): FoundObject { FoundObject(f.0, f.1.0, f.1.1) }

  function TakeFound(o: FoundObject): (nat, (nat, int)) { (o.id, (o.kind, o.value)) }

  function FoundC(): Codec<FoundObject> { Fields(Pair(NatC(), Pair(NatC(), NumC())), MakeFound, TakeFound) }

  type DogFields = (nat, (string, (Vec, (nat, (Vec, (Direction, (Score, seq<FoundObject>)))))))

  function MakeDog(f: DogFields): DogRepr {
    var (id, (name, (pos, (bagCapacity, (speed, (direction, (score, bag))))))) := f;
    DogRepr(id, name, pos, bagCapacity, speed, direction, score, bag)
  }

  function TakeDog(d: DogRepr): DogFields {
    (d.id, (d.name, (d.pos, (d.bagCapacity, (d.speed, (d.direction, (d.score, d.bag)))))))
  }

  type DogTailFields = (nat, (Vec, (Direction, (Score, seq<FoundObject>))))

  function TailC(): Codec<DogTailFields> {
    Pair(NatC(), Pair(VecC(), Pair(DirectionC(), Pair(ScoreC(), VectorC(FoundC())))))
  }

  function DogFieldsC(): Codec<DogFields> { Pair(NatC(), Pair(TextC(), Pair(VecC(), TailC()))) }

  function DogC(): Codec<DogRepr> { Fields(DogFieldsC(), MakeDog, TakeDog) }

  function MakeLost(f: (nat, (nat, (Vec, int)))): LostObject { LostObject(f.0, f.1.0, f.1.1.0, f.1.1.1) }

  function TakeLost(o: LostObject): (nat, (nat, (Vec, int))) { (o.id, (o.kind, (o.position, o.value))) }

  function LostC(): Codec<LostObject> { Fields(Pair(NatC(), Pair(NatC(), Pair(VecC(), NumC()))), MakeLost, TakeLost) }

  function MakePlayer(f: (nat, (DogRepr, string))): PlayerRepr { PlayerRepr(f.0, f.1.0, f.1.1) }

  function TakePlayer(p: PlayerRepr): (nat, (DogRepr, string)) { (p.id, (p.dog, p.token)) }

  function PlayerC(): Codec<PlayerRepr> { Fields(Pair(NatC(), Pair(DogC(), TextC())), MakePlayer, TakePlayer) }

  type SessionFields = (nat, (string, (seq<PlayerRepr>, seq<LostObject>)))

  function MakeSession(f: SessionFields): SessionRepr { SessionRepr(f.0, f.1.0, f.1.1.0, f.1.1.1) }

  function TakeSession(s: SessionRepr): SessionFields { (s.id, (s.mapId, (s.players, s.lost))) }

  function SessionC(): Codec<SessionRepr> {
    Fields(Pair(NatC(), Pair(TextC(), Pair(VectorC(PlayerC()), VectorC(LostC())))), MakeSession, TakeSession)
  }

  /** What the program writes and reads whole: the vector of all sessions. */
  function GameC(): Codec<seq<SessionRepr>> { VectorC(SessionC()) }

  lemma VecExact()
    ensures Exact(VecC())
  {
    RealExact();
    PairExact(RealC(), RealC());
    FieldsExact(Pair(RealC(), RealC()), MakeVec, TakeVec);
  }

  lemma FoundExact()
    ensures Exact(FoundC())
  {
    NatExact();
    NumExact();
    PairExact(NatC(), NumC());
    PairExact(NatC(), Pair(NatC(), NumC()));
    FieldsExact(Pair(NatC(), Pair(NatC(), NumC())), MakeFound, TakeFound);
  }

  lemma DogExact()
    ensures Exact(DogC())
  {
    var tail1 := Pair(ScoreC(), VectorC(FoundC()));
    var tail2 := Pair(DirectionC(), tail1);
    var tail3 := Pair(VecC(), tail2);
    var tail4 := Pair(NatC(), tail3);
    var tail5 := Pair(VecC(), tail4);
    var tail6 := Pair(TextC(), tail5);
    FoundExact();
    VectorExact(FoundC());
    ScoreExact();
    PairExact(ScoreC(), VectorC(FoundC()));
    DirectionExact();
    PairExact(DirectionC(), tail1);
    VecExact();
    PairExact(VecC(), tail2);
    NatExact();
    PairExact(NatC(), tail3);
    PairExact(VecC(), tail4);
    TextExact();
    PairExact(TextC(), tail5);
    PairExact(NatC(), tail6);
    FieldsExact(DogFieldsC(), MakeDog, TakeDog);
  }

  lemma LostExact()
    ensures Exact(LostC())
  {
    NatExact();
    NumExact();
    VecExact();
    PairExact(VecC(), NumC());
    PairExact(NatC(), Pair(VecC(), NumC()));
    PairExact(NatC(), Pair(NatC(), Pair(VecC(), NumC())));
    FieldsExact(Pair(NatC(), Pair(NatC(), Pair(VecC(), NumC()))), MakeLost, TakeLost);
  }

  lemma PlayerExact()
    ensures Exact(PlayerC())
  {
    NatExact();
    DogExact();
    TextExact();
    PairExact(DogC(), TextC());
    PairExact(NatC(), Pair(DogC(), TextC()));
    FieldsExact(Pair(NatC(), Pair(DogC(), TextC())), MakePlayer, TakePlayer);
  }

  lemma SessionExact()
    ensures Exact(SessionC())
  {
    PlayerExact();
    LostExact();
    VectorExact(PlayerC());
    VectorExact(LostC());
    NatExact();
    TextExact();
    var vectors := Pair(VectorC(PlayerC()), VectorC(LostC()));
    PairExact(VectorC(PlayerC()), VectorC(LostC()));
    PairExact(TextC(), vectors);
    PairExact(NatC(), Pair(TextC(), vectors));
    FieldsExact(Pair(NatC(), Pair(TextC(), vectors)), MakeSession, TakeSession);
  }

  /** A saved game is read back as it was written, whatever follows it in the stream, and the reader
      accepts no stream that the writer would not produce. */
  lemma GameRoundTrip(game: seq<SessionRepr>, s: Stream, rest: Stream)
    ensures GameC().get(s) == Some((game, rest)) <==> s == GameC().put(game) + rest
  {
    SessionExact();
    VectorExact(SessionC());
    if s == GameC().put(game) + rest {
      assert GameC().get(GameC().put(game) + rest) == Some((game, rest));
    }
  }

  /* ---- the layout ---- */

  lemma PairPut<T, U>(a: Codec<T>, b: Codec<U>, x: T, y: U, first: Stream, second: Stream)
    requires a.put(x) == first && b.put(y) == second
    ensures Pair(a, b).put((x, y)) == first + second
  {
  }

  lemma FieldsPut<T, U>(c: Codec<T>, build: T -> U, take: U -> T, u: U)
    ensures Fields(c, build, take).put(u) == c.put(take(u))
  {
  }

  /** One more number in front. */
  lemma NumFirst<U>(b: Codec<U>, n: nat, y: U, second: Stream)
    requires b.put(y) == second
    ensures Pair(NatC(), b).put((n, y)) == [Num(n)] + second
  {
    PairPut(NatC(), b, n, y, [Num(n)], second);
  }

  lemma TextFirst<U>(b: Codec<U>, t: string, y: U, second: Stream)
    requires b.put(y) == second
    ensures Pair(TextC(), b).put((t, y)) == [Text(t)] + second
  {
    PairPut(TextC(), b, t, y, [Text(t)], second);
  }

  lemma VecFirst<U>(b: Codec<U>, v: Vec, y: U, second: Stream)
    requires b.put(y) == second
    ensures Pair(VecC(), b).put((v, y)) == [Real(v.x), Real(v.y)] + second
  {
    PairPut(RealC(), RealC(), v.x, v.y, [Real(v.x)], [Real(v.y)]);
    assert VecC().put(v) == Pair(RealC(), RealC()).put(TakeVec(v));
    PairPut(VecC(), b, v, y, [Real(v.x), Real(v.y)], second);
  }

  lemma {:induction false} VectorPut<T>(c: Codec<T>, xs: seq<T>)
    ensures VectorC(c).put(xs) == [Num(|xs|)] + PutAll(c, xs)
  {
  }

  lemma ItemLayout(o: FoundObject)
    ensures FoundC().put(o) == [Num(o.id), Num(o.kind), Num(o.value)]
  {
    NumFirst(NumC(), o.kind, o.value, [Num(o.value)]);
    NumFirst(Pair(NatC(), NumC()), o.id, (o.kind, o.value), [Num(o.kind), Num(o.value)]);
    assert FoundC().put(o) == Pair(NatC(), Pair(NatC(), NumC())).put(TakeFound(o));
  }

  lemma LostLayout(l: LostObject)
    ensures LostC().put(l) == [Num(l.id), Num(l.kind), Real(l.position.x), Real(l.position.y), Num(l.value)]
  {
    var tail1 := Pair(VecC(), NumC());
    var tail2 := Pair(NatC(), tail1);
    var s1 := [Real(l.position.x), Real(l.position.y), Num(l.value)];
    VecFirst(NumC(), l.position, l.value, [Num(l.value)]);
    assert [Real(l.position.x), Real(l.position.y)] + [Num(l.value)] == s1;
    NumFirst(tail1, l.kind, (l.position, l.value), s1);
    NumFirst(tail2, l.id, (l.kind, (l.position, l.value)), [Num(l.kind)] + s1);
    FieldsPut(Pair(NatC(), tail2), MakeLost, TakeLost, l);
  }

  function TailFields(d: DogRepr): DogTailFields {
    (d.bagCapacity, (d.speed, (d.direction, (d.score, d.bag))))
  }

  function TailStream(d: DogRepr): Stream {
    [Num(d.bagCapacity), Real(d.speed.x), Real(d.speed.y), Num(Code(d.direction)), Num(d.score), Num(|d.bag|)]
    + PutAll(FoundC(), d.bag)
  }

  lemma FlatTail(d: DogRepr)
    ensures [Num(d.bagCapacity)] + ([Real(d.speed.x), Real(d.speed.y)]
      + ([Num(Code(d.direction))] + ([Num(d.score)] + ([Num(|d.bag|)] + PutAll(FoundC(), d.bag))))) == TailStream(d)
  {
    var items := PutAll(FoundC(), d.bag);
    Regroup4([Num(Code(d.direction))], [Num(d.score)], [Num(|d.bag|)], items);
    var middle := [Num(Code(d.direction)), Num(d.score), Num(|d.bag|)];
    assert [Num(Code(d.direction))] + [Num(d.score)] + [Num(|d.bag|)] == middle;
    Regroup4([Num(d.bagCapacity)], [Real(d.speed.x), Real(d.speed.y)], middle, items);
  }

  lemma DogTail(d: DogRepr)
    ensures TailC().put(TailFields(d)) == TailStream(d)
  {
    var items := [Num(|d.bag|)] + PutAll(FoundC(), d.bag);
    var tail1 := Pair(ScoreC(), VectorC(FoundC()));
    var tail2 := Pair(DirectionC(), tail1);
    VectorPut(FoundC(), d.bag);
    PairPut(ScoreC(), VectorC(FoundC()), d.score, d.bag, [Num(d.score)], items);
    PairPut(DirectionC(), tail1, d.direction, (d.score, d.bag), [Num(Code(d.direction))], [Num(d.score)] + items);
    var s2 := [Num(Code(d.direction))] + ([Num(d.score)] + items);
    VecFirst(tail2, d.speed, (d.direction, (d.score, d.bag)), s2);
    NumFirst(Pair(VecC(), tail2), d.bagCapacity, (d.speed, (d.direction, (d.score, d.bag))),
      [Real(d.speed.x), Real(d.speed.y)] + s2);
    FlatTail(d);
  }

  lemma DogHead(d: DogRepr, tail: Stream)
    requires TailC().put(TailFields(d)) == tail
    ensures DogFieldsC().put(TakeDog(d)) == [Num(d.id)] + ([Text(d.name)] + ([Real(d.pos.x), Real(d.pos.y)] + tail))
  {
    var tail5 := Pair(VecC(), TailC());
    VecFirst(TailC(), d.pos, TailFields(d), tail);
    TextFirst(tail5, d.name, (d.pos, TailFields(d)), [Real(d.pos.x), Real(d.pos.y)] + tail);
    NumFirst(Pair(TextC(), tail5), d.id, (d.name, (d.pos, TailFields(d))),
      [Text(d.name)] + ([Real(d.pos.x), Real(d.pos.y)] + tail));
    assert TakeDog(d) == (d.id, (d.name, (d.pos, TailFields(d))));
  }

  lemma FlatHead(d: DogRepr, tail: Stream)
    ensures [Num(d.id)] + ([Text(d.name)] + ([Real(d.pos.x), Real(d.pos.y)] + tail))
      == [Num(d.id), Text(d.name), Real(d.pos.x), Real(d.pos.y)] + tail
  {
    Regroup4([Num(d.id)], [Text(d.name)], [Real(d.pos.x), Real(d.pos.y)], tail);
  }

  /** The fields of a dog, in the order of the archive. */
  lemma DogLayout(d: DogRepr)
    ensures DogC().put(d) == [Num(d.id), Text(d.name), Real(d.pos.x), Real(d.pos.y)] + TailStream(d)
  {
    DogTail(d);
    DogHead(d, TailStream(d));
    FlatHead(d, TailStream(d));
    FieldsPut(DogFieldsC(), MakeDog, TakeDog, d);
  }

  lemma PlayerLayout(p: PlayerRepr)
    ensures PlayerC().put(p) == [Num(p.id)] + (DogC().put(p.dog) + [Text(p.token)])
  {
    PairPut(DogC(), TextC(), p.dog, p.token, DogC().put(p.dog), [Text(p.token)]);
    NumFirst(Pair(DogC(), TextC()), p.id, (p.dog, p.token), DogC().put(p.dog) + [Text(p.token)]);
    assert PlayerC().put(p) == Pair(NatC(), Pair(DogC(), TextC())).put(TakePlayer(p));
  }

  function PlayersStream(s: SessionRepr): Stream { [Num(|s.players|)] + PutAll(PlayerC(), s.players) }

  function LostStream(s: SessionRepr): Stream { [Num(|s.lost|)] + PutAll(LostC(), s.lost) }

  lemma VectorsLayout(s: SessionRepr)
    ensures Pair(VectorC(PlayerC()), VectorC(LostC())).put((s.players, s.lost)) == PlayersStream(s) + LostStream(s)
  {
    VectorPut(PlayerC(), s.players);
    VectorPut(LostC(), s.lost);
    PairPut(VectorC(PlayerC()), VectorC(LostC()), s.players, s.lost, PlayersStream(s), LostStream(s));
  }

  lemma HeadLayout<T>(c: Codec<T>, id: nat, mapId: string, x: T, tail: Stream)
    requires c.put(x) == tail
    ensures Pair(NatC(), Pair(TextC(), c)).put((id, (mapId, x))) == [Num(id), Text(mapId)] + tail
  {
    TextFirst(c, mapId, x, tail);
    NumFirst(Pair(TextC(), c), id, (mapId, x), [Text(mapId)] + tail);
    Regroup([Num(id)], [Text(mapId)], tail);
  }

  lemma SessionLayout(s: SessionRepr)
    ensures SessionC().put(s) == [Num(s.id), Text(s.mapId)]
      + (([Num(|s.players|)] + PutAll(PlayerC(), s.players)) + ([Num(|s.lost|)] + PutAll(LostC(), s.lost)))
  {
    var vectors := Pair(VectorC(PlayerC()), VectorC(LostC()));
    VectorsLayout(s);
    HeadLayout(vectors, s.id, s.mapId, (s.players, s.lost), PlayersStream(s) + LostStream(s));
    FieldsPut(Pair(NatC(), Pair(TextC(), vectors)), MakeSession, TakeSession, s);
  }
}
