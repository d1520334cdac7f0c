/** When the order of two events of one dog at the same time matters. */
module Ties {
  import opened Wrappers
  import opened Geometry
  import opened CollisionDetector
  import opened Dogs
  import opened Gathering

  /* ---- two things ---- */

  /** When a dog may meet two things in either order: two offices; or two objects it has no room for, or that look
      the same in the bag; or an object and an office, if it cannot carry anything. */
  predicate Commute(d: DogState, a: Thing, b: Thing) {
    match (a, b)
    case (Base(_), Base(_)) => true
    case (Loot(o), Loot(p)) => Full(d) || Found(o) == Found(p)
    case _ => d.bagCapacity == 0
  }

  lemma MeetsCommuteIff(d: DogState, a: Thing, b: Thing)
    ensures Meet(Meet(d, a), b) == Meet(Meet(d, b), a) <==> Commute(d, a, b)
  {
    match (a, b)
    case (Base(_), Base(_)) =>
    case (Loot(o), Loot(p)) =>
      LootThenLoot(d, o, p);
    case (Loot(o), Base(_)) =>
      assert Meet(Meet(d, a), b).bag == [];
    case (Base(_), Loot(o)) =>
      assert Meet(Meet(d, b), a).bag == [];
  }

  lemma LootThenLoot(d: DogState, o: LostObject, p: LostObject)
    ensures Bagged(Bagged(d, Found(o)), Found(p)) == Bagged(Bagged(d, Found(p)), Found(o))
      <==> Full(d) || Found(o) == Found(p)
  {
    var n := |d.bag|;
    if !Full(d) {
      assert Bagged(Bagged(d, Found(o)), Found(p)).bag[n] == Found(o);
      assert Bagged(Bagged(d, Found(p)), Found(o)).bag[n] == Found(p);
    }
  }

  /* ---- what follows them ---- */

  predicate AllLoot(things: seq<Thing>) { forall i :: 0 <= i < |things| ==> things[i].Loot? }

  predicate HasOffice(things: seq<Thing>) { exists i :: 0 <= i < |things| && things[i].Base? }

  predicate NoneIs(things: seq<Thing>, oid: nat)
    requires AllLoot(things)
  {
    forall i :: 0 <= i < |things| ==> things[i].loot.id != oid
  }

  predicate AllDifferent(things: seq<Thing>)
    requires AllLoot(things)
  {
    forall i, j :: 0 <= i < j < |things| ==> things[i].loot.id != things[j].loot.id
  }

  /** The loot before the first office. */
  function UpToOffice(things: seq<Thing>): (r: seq<Thing>)
    ensures AllLoot(r) && |r| <= |things| && r == things[..|r|]
    ensures HasOffice(things) <==> |r| < |things|
    ensures HasOffice(things) ==> things[|r|].Base?
  {
    if things == [] || things[0].Base? then []
    else
      var r := UpToOffice(things[1..]);
      assert things == [things[0]] + things[1..];
      assert [things[0]] + things[1..][..|r|] == things[..|r| + 1];
      [things[0]] + r
  }

  function Room(d: DogState): nat { if Full(d) then 0 else d.bagCapacity - |d.bag| }

  /** What fits into the bag. */
  function Fitting(things: seq<Thing>, room: nat): seq<Thing> { things[..Min(|things|, room)] }

  function LootsOf(things: seq<Thing>): (r: seq<LostObject>)
    requires AllLoot(things)
    ensures |r| == |things| && forall i :: 0 <= i < |r| ==> Loot(r[i]) == things[i]
  {
    seq(|things|, i requires 0 <= i < |things| => things[i].loot)
  }

  function FoundsOf(objects: seq<LostObject>): (r: seq<FoundObject>)
    ensures |r| == |objects| && forall i :: 0 <= i < |r| ==> r[i] == Found(objects[i])
  {
    seq(|objects|, i requires 0 <= i < |objects| => Found(objects[i]))
  }

  lemma {:induction false} MeetAllConcat(d: DogState, u: seq<Thing>, v: seq<Thing>)
    ensures MeetAll(d, u + v) == MeetAll(MeetAll(d, u), v)
    ensures Accepted(d, u + v) == Accepted(d, u) + Accepted(MeetAll(d, u), v)
  {
    if v == [] {
      assert u + v == u;
    } else {
      var init, t := v[..|v| - 1], v[|v| - 1];
      assert (u + v)[..|u + v| - 1] == u + init && (u + v)[|u + v| - 1] == t;
      MeetAllConcat(d, u, init);
    }
  }

  /** Without an office, the bag takes what fits. */
  lemma {:induction false} MeetLoot(d: DogState, things: seq<Thing>)
    requires AllLoot(things)
    ensures MeetAll(d, things) == d.(bag := d.bag + FoundsOf(LootsOf(Fitting(things, Room(d)))))
    ensures Accepted(d, things) == LootsOf(Fitting(things, Room(d)))
  {
    if things == [] {
      assert d.(bag := d.bag + []) == d;
    } else {
      var init, t := things[..|things| - 1], things[|things| - 1];
      MeetLoot(d, init);
      if |init| < Room(d) {
        assert Fitting(things, Room(d)) == Fitting(init, Room(d)) + [t];
        assert FoundsOf(LootsOf(Fitting(things, Room(d))))
          == FoundsOf(LootsOf(Fitting(init, Room(d)))) + [Found(t.loot)];
      } else {
        assert Fitting(things, Room(d)) == Fitting(init, Room(d));
      }
    }
  }

  /** Things met change the bag and the score only. */
  lemma {:induction false} MeetAllKeepsDog(d: DogState, things: seq<Thing>)
    ensures MeetAll(d, things).(bag := d.bag, score := d.score) == d
  {
    if things != [] {
      MeetAllKeepsDog(d, things[..|things| - 1]);
    }
  }

  lemma OneApart(d: DogState, score: Score, t: Thing)
    ensures var (p, q) := (Meet(d, t), Meet(d.(score := score), t));
      && q == p.(score := q.score) && (p.score == q.score <==> d.score == score)
      && (Accepts(d, t) <==> Accepts(d.(score := score), t))
  {
    if t.Base? {
      WrapSame(d.score + BagValue(d.bag), score + BagValue(d.bag));
      WrapSame(d.score, score);
    }
  }

  /** Two dogs that differ in score only go on to differ in score only, and accept the same. */
  lemma {:induction false} ScoresStayApart(d: DogState, score: Score, things: seq<Thing>)
    ensures var (p, q) := (MeetAll(d, things), MeetAll(d.(score := score), things));
      && q == p.(score := q.score) && (p.score == q.score <==> d.score == score)
    ensures Accepted(d, things) == Accepted(d.(score := score), things)
  {
    if things != [] {
      var init := things[..|things| - 1];
      ScoresStayApart(d, score, init);
      OneApart(MeetAll(d, init), MeetAll(d.(score := score), init).score, things[|things| - 1]);
    }
  }

  /** A difference that the unsigned score cannot show. */
  predicate Unseen(v: int) { v % SCORE_LIMIT == 0 }

  lemma WrapSame(a: int, b: int)
    ensures Wrap(a) == Wrap(b) <==> (a - b) % SCORE_LIMIT == 0
  {
    var p, q := a / SCORE_LIMIT, b / SCORE_LIMIT;
    assert a == p * SCORE_LIMIT + Wrap(a) && b == q * SCORE_LIMIT + Wrap(b);
    WrapShift(Wrap(a) - Wrap(b), p - q);
  }

  /* ---- one dog ---- */

  /** The object that the dog accepts only if it meets `a` before `b`: of two objects the first, if there is room
      for one; else the last object that fits into the emptied bag, if it fills up before the next office; and with
      a full bag the object that comes after the office. */
  function OnlyIfFirst(d: DogState, a: Thing, b: Thing, own: seq<Thing>): Option<LostObject> {
    if Commute(d, a, b) then None
    else
      match (a, b)
      case (Loot(o), Loot(_)) => if Room(d) == 1 then Some(o) else None
      case (Loot(_), Base(_)) =>
        if 0 < d.bagCapacity <= |UpToOffice(own)| then Some(LootsOf(UpToOffice(own))[d.bagCapacity - 1]) else None
      case (Base(_), Loot(o)) => if Full(d) then Some(o) else None
      case _ => None
  }

  function ValueIn(o: Option<LostObject>): int { if o.Some? then o.value.value else 0 }

  predicate IsId(o: Option<LostObject>, oid: nat) { o.Some? && o.value.id == oid }

  predicate HasId(objects: seq<LostObject>, oid: nat) { exists o :: o in objects && o.id == oid }

  /** The two lists differ in one object on each side at most. */
  ghost predicate DifferIn(p: seq<LostObject>, q: seq<LostObject>, first: Option<LostObject>,
                           second: Option<LostObject>) {
    && ValueOf(p) - ValueOf(q) == ValueIn(first) - ValueIn(second)
    && (forall oid :: HasId(p, oid) && !HasId(q, oid) <==> IsId(first, oid))
    && (forall oid :: HasId(q, oid) && !HasId(p, oid) <==> IsId(second, oid))
  }

  lemma {:induction false} ValueOfConcat(p: seq<LostObject>, q: seq<LostObject>)
    ensures ValueOf(p + q) == ValueOf(p) + ValueOf(q)
  {
    if q == [] {
      assert p + q == p;
    } else {
      var init := q[..|q| - 1];
      assert (p + q)[..|p + q| - 1] == p + init;
      ValueOfConcat(p, init);
    }
  }

  lemma IdsConcat(p: seq<LostObject>, q: seq<LostObject>)
    ensures forall oid :: HasId(p + q, oid) <==> HasId(p, oid) || HasId(q, oid)
  {
    forall oid ensures HasId(p + q, oid) <==> HasId(p, oid) || HasId(q, oid) {
      if o :| o in p + q && o.id == oid {
        assert o in p || o in q;
      }
      if o :| o in p && o.id == oid {
        assert o in p + q;
      }
      if o :| o in q && o.id == oid {
        assert o in p + q;
      }
    }
  }

  /** What the two orders accept, up to the next office. */
  function AcceptedUpTo(d: DogState, a: Thing, b: Thing, pre: seq<Thing>): seq<LostObject> {
    Accepted(d, [a, b]) + Accepted(Meet(Meet(d, a), b), pre)
  }

  lemma {:induction false} MeetTwo(d: DogState, a: Thing, b: Thing)
    ensures MeetAll(d, [a, b]) == Meet(Meet(d, a), b)
    ensures Accepted(d, [a, b])
      == (if Accepts(d, a) then [a.loot] else []) + (if Accepts(Meet(d, a), b) then [b.loot] else [])
  {
    assert [a, b][..1] == [a] && [a][..0] == [];
    assert MeetAll(d, []) == d && MeetAll(d, [a]) == Meet(d, a);
    assert Accepted(d, [a]) == if Accepts(d, a) then [a.loot] else [];
  }

  lemma SameBut(p: seq<LostObject>, q: seq<LostObject>, rest: seq<LostObject>, first: Option<LostObject>,
                second: Option<LostObject>)
    requires DifferIn(p, q, first, second)
    requires forall oid :: IsId(first, oid) || IsId(second, oid) ==> !HasId(rest, oid)
    ensures DifferIn(p + rest, q + rest, first, second)
  {
    ValueOfConcat(p, rest);
    ValueOfConcat(q, rest);
    IdsConcat(p, rest);
    IdsConcat(q, rest);
  }

  lemma OneId(o: LostObject)
    ensures ValueOf([o]) == o.value && forall oid :: HasId([o], oid) <==> o.id == oid
  {
    assert [o][..0] == [] && o in [o];
  }

  lemma TwoIds(o: LostObject, p: LostObject)
    ensures ValueOf([o, p]) == o.value + p.value && forall oid :: HasId([o, p], oid) <==> o.id == oid || p.id == oid
  {
    OneId(o);
    OneId(p);
    assert [o, p] == [o] + [p];
    ValueOfConcat([o], [p]);
    IdsConcat([o], [p]);
  }

  /** Two objects: they go into the bag in the one or the other order, or only the first of them does. */
  lemma TwoObjects(d: DogState, o: LostObject, p: LostObject, pre: seq<Thing>)
    requires !Full(d) && o.id != p.id && AllLoot(pre)
    requires NoneIs(pre, o.id) && NoneIs(pre, p.id)
    ensures DifferIn(AcceptedUpTo(d, Loot(o), Loot(p), pre), AcceptedUpTo(d, Loot(p), Loot(o), pre),
      if Room(d) == 1 then Some(o) else None, if Room(d) == 1 then Some(p) else None)
  {
    var x, y := Meet(Meet(d, Loot(o)), Loot(p)), Meet(Meet(d, Loot(p)), Loot(o));
    MeetTwo(d, Loot(o), Loot(p));
    MeetTwo(d, Loot(p), Loot(o));
    MeetLoot(x, pre);
    MeetLoot(y, pre);
    assert Room(x) == Room(y);
    var rest := LootsOf(Fitting(pre, Room(x)));
    OneId(o);
    OneId(p);
    TwoIds(o, p);
    TwoIds(p, o);
    if Room(d) == 1 {
      assert rest == [];
      assert AcceptedUpTo(d, Loot(o), Loot(p), pre) == [o] && AcceptedUpTo(d, Loot(p), Loot(o), pre) == [p];
    } else {
      assert AcceptedUpTo(d, Loot(o), Loot(p), pre) == [o, p] + rest;
      assert AcceptedUpTo(d, Loot(p), Loot(o), pre) == [p, o] + rest;
      SameBut([o, p], [p, o], rest, None, None);
    }
  }

  /** The list is the common part and at most one object more. */
  ghost predicate Extends(p: seq<LostObject>, common: seq<LostObject>, more: Option<LostObject>) {
    && ValueOf(p) == ValueOf(common) + ValueIn(more)
    && forall oid :: HasId(p, oid) <==> HasId(common, oid) || IsId(more, oid)
  }

  lemma WithOneMore(common: seq<LostObject>, o: LostObject)
    ensures Extends(common, common, None)
    ensures Extends(common + [o], common, Some(o)) && Extends([o] + common, common, Some(o))
  {
    OneId(o);
    ValueOfConcat(common, [o]);
    ValueOfConcat([o], common);
    IdsConcat(common, [o]);
    IdsConcat([o], common);
  }

  lemma ExtendedDiffer(p: seq<LostObject>, q: seq<LostObject>, common: seq<LostObject>, first: Option<LostObject>,
                       second: Option<LostObject>)
    requires Extends(p, common, first) && Extends(q, common, second)
    requires forall oid :: HasId(common, oid) ==> !IsId(first, oid) && !IsId(second, oid)
    requires first.Some? && second.Some? ==> first.value.id != second.value.id
    ensures DifferIn(p, q, first, second)
  {
  }

  lemma LootThenOffice(d: DogState, o: LostObject, base: Thing, pre: seq<Thing>)
    requires d.bagCapacity > 0 && AllLoot(pre) && base.Base?
    ensures AcceptedUpTo(d, Loot(o), base, pre) == (if Full(d) then [] else [o]) + LootsOf(Fitting(pre, d.bagCapacity))
  {
    var x := Meet(Meet(d, Loot(o)), base);
    MeetTwo(d, Loot(o), base);
    MeetLoot(x, pre);
    assert x.bag == [] && Room(x) == d.bagCapacity;
    assert Accepted(d, [Loot(o), base]) == if Full(d) then [] else [o];
  }

  lemma OfficeThenLoot(d: DogState, o: LostObject, base: Thing, pre: seq<Thing>)
    requires d.bagCapacity > 0 && AllLoot(pre) && base.Base?
    ensures AcceptedUpTo(d, base, Loot(o), pre) == [o] + LootsOf(Fitting(pre, d.bagCapacity - 1))
  {
    var y := Meet(Meet(d, base), Loot(o));
    MeetTwo(d, base, Loot(o));
    MeetLoot(y, pre);
    assert y.bag == [Found(o)] && Room(y) == d.bagCapacity - 1;
    assert Accepted(d, [base, Loot(o)]) == [o];
  }

  /** An object and an office: before the office the object goes out with the bag, after it it stays. */
  lemma ObjectAndOffice(d: DogState, o: LostObject, base: Thing, pre: seq<Thing>)
    requires d.bagCapacity > 0 && AllLoot(pre) && base.Base?
    requires NoneIs(pre, o.id) && AllDifferent(pre)
    ensures DifferIn(AcceptedUpTo(d, Loot(o), base, pre), AcceptedUpTo(d, base, Loot(o), pre),
      if d.bagCapacity <= |pre| then Some(LootsOf(pre)[d.bagCapacity - 1]) else None,
      if Full(d) then Some(o) else None)
  {
    var c := d.bagCapacity;
    LootThenOffice(d, o, base, pre);
    OfficeThenLoot(d, o, base, pre);
    FittingOneMore(pre, c);
    FirstOrLast(o, LootsOf(Fitting(pre, c - 1)), LootsOf(Fitting(pre, c)),
      if c <= |pre| then Some(LootsOf(pre)[c - 1]) else None, Full(d));
  }

  lemma FittingOneMore(pre: seq<Thing>, c: nat)
    requires c > 0 && AllLoot(pre)
    ensures LootsOf(Fitting(pre, c))
      == LootsOf(Fitting(pre, c - 1)) + (if c <= |pre| then [LootsOf(pre)[c - 1]] else [])
  {
  }

  lemma FirstOrLast(o: LostObject, less: seq<LostObject>, more: seq<LostObject>, last: Option<LostObject>, full: bool)
    requires more == if last.Some? then less + [last.value] else less
    requires forall i :: 0 <= i < |less| ==> less[i].id != o.id && (last.Some? ==> less[i].id != last.value.id)
    requires last.Some? ==> last.value.id != o.id
    ensures DifferIn((if full then [] else [o]) + more, [o] + less, last, if full then Some(o) else None)
  {
    var common := if full then less else [o] + less;
    assert [] + more == more && ([o] + less) + [o] == [o] + (less + [o]);
    WithOneMore(less, o);
    WithOneMore(common, o);
    if last.Some? {
      WithOneMore(common, last.value);
      assert [o] + (less + [last.value]) == ([o] + less) + [last.value];
    }
    assert forall oid :: HasId(common, oid) ==> !IsId(last, oid);
    ExtendedDiffer((if full then [] else [o]) + more, [o] + less, common, last, if full then Some(o) else None);
  }

  lemma {:induction false} DistinctBefore(a: Thing, b: Thing, own: seq<Thing>)
    requires LootDistinct([a, b] + own)
    ensures a.Loot? && b.Loot? ==> a.loot.id != b.loot.id
    ensures a.Loot? ==> NoneIs(UpToOffice(own), a.loot.id)
    ensures b.Loot? ==> NoneIs(UpToOffice(own), b.loot.id)
    ensures AllDifferent(UpToOffice(own))
  {
    var all, pre := [a, b] + own, UpToOffice(own);
    assert all[0] == a && all[1] == b;
    assert forall i :: 0 <= i < |pre| ==> all[i + 2] == pre[i];
  }

  lemma {:induction false} ObjectFirstDiffers(d: DogState, a: Thing, b: Thing, own: seq<Thing>)
    requires d.bagCapacity > 0 && a.Loot? && b.Base? && LootDistinct([a, b] + own)
    ensures DifferIn(AcceptedUpTo(d, a, b, UpToOffice(own)), AcceptedUpTo(d, b, a, UpToOffice(own)),
      OnlyIfFirst(d, a, b, own), OnlyIfFirst(d, b, a, own))
  {
    DistinctBefore(a, b, own);
    ObjectAndOffice(d, a.loot, b, UpToOffice(own));
  }

  lemma SwappedDiffer(p: seq<LostObject>, q: seq<LostObject>, first: Option<LostObject>, second: Option<LostObject>)
    requires DifferIn(p, q, first, second)
    ensures DifferIn(q, p, second, first)
  {
  }

  lemma SwappedDistinct(a: Thing, b: Thing, own: seq<Thing>)
    requires LootDistinct([a, b] + own)
    ensures LootDistinct([b, a] + own)
  {
    var (p, q) := ([a, b] + own, [b, a] + own);
    assert q[0] == p[1] && q[1] == p[0] && forall i :: 2 <= i < |p| ==> q[i] == p[i];
  }

  /** Up to the next office, what the two orders accept differs in these objects only. */
  lemma {:induction false} TieDiffers(d: DogState, a: Thing, b: Thing, own: seq<Thing>)
    requires !Commute(d, a, b) && LootDistinct([a, b] + own)
    ensures DifferIn(AcceptedUpTo(d, a, b, UpToOffice(own)), AcceptedUpTo(d, b, a, UpToOffice(own)),
      OnlyIfFirst(d, a, b, own), OnlyIfFirst(d, b, a, own))
  {
    var pre := UpToOffice(own);
    if a.Loot? && b.Loot? {
      DistinctBefore(a, b, own);
      TwoObjects(d, a.loot, b.loot, pre);
    } else if a.Loot? {
      ObjectFirstDiffers(d, a, b, own);
    } else {
      SwappedDistinct(a, b, own);
      ObjectFirstDiffers(d, b, a, own);
      SwappedDiffer(AcceptedUpTo(d, b, a, pre), AcceptedUpTo(d, a, b, pre),
        OnlyIfFirst(d, b, a, own), OnlyIfFirst(d, a, b, own));
    }
  }

  /** After the office the two dogs have empty bags, and the same score iff what they accepted has the same value. */
  lemma AtTheOffice(d: DogState, p: seq<Thing>, q: seq<Thing>, office: Thing, v: int)
    returns (x: DogState, y: DogState)
    requires office.Base? && v == ValueOf(Accepted(d, p)) - ValueOf(Accepted(d, q))
    ensures x == MeetAll(d, p + [office]) && y == MeetAll(d, q + [office]) && y == x.(score := y.score)
    ensures Accepted(d, p + [office]) == Accepted(d, p) && Accepted(d, q + [office]) == Accepted(d, q)
    ensures x.score == y.score <==> Unseen(v)
  {
    x, y := MeetAll(d, p + [office]), MeetAll(d, q + [office]);
    FramesAtTheOffice(d, p, q, office);
    ScoresAtTheOffice(d, p, q, office, x.score, y.score, v);
  }

  lemma {:induction false} ScoresAtTheOffice(d: DogState, p: seq<Thing>, q: seq<Thing>, office: Thing, x: Score,
                                             y: Score, v: int)
    requires office.Base? && x == MeetAll(d, p + [office]).score && y == MeetAll(d, q + [office]).score
    requires v == ValueOf(Accepted(d, p)) - ValueOf(Accepted(d, q))
    ensures x == y <==> Unseen(v)
  {
    var s := ScoreAt(d, p, office);
    var t := ScoreAt(d, q, office);
    ScoresAgree(x, y, v, s, t);
  }

  lemma {:induction false} FramesAtTheOffice(d: DogState, p: seq<Thing>, q: seq<Thing>, office: Thing)
    requires office.Base?
    ensures var (x, y) := (MeetAll(d, p + [office]), MeetAll(d, q + [office])); y == x.(score := y.score)
    ensures Accepted(d, p + [office]) == Accepted(d, p) && Accepted(d, q + [office]) == Accepted(d, q)
  {
    EmptyAfter(d, p, office);
    EmptyAfter(d, q, office);
    MeetAllKeepsDog(d, p + [office]);
    MeetAllKeepsDog(d, q + [office]);
    SameFrame(d, MeetAll(d, p + [office]), MeetAll(d, q + [office]));
  }

  lemma ScoreAt(d: DogState, p: seq<Thing>, office: Thing) returns (s: int)
    requires office.Base?
    ensures Ledger(d) + ValueOf(Accepted(d, p)) == MeetAll(d, p + [office]).score + s * SCORE_LIMIT
  {
    EmptyAfter(d, p, office);
    s := LedgerGrows(d, p + [office]);
  }

  lemma {:induction false} EmptyAfter(d: DogState, p: seq<Thing>, office: Thing)
    requires office.Base?
    ensures MeetAll(d, p + [office]).bag == [] && Ledger(MeetAll(d, p + [office])) == MeetAll(d, p + [office]).score
    ensures Accepted(d, p + [office]) == Accepted(d, p)
  {
    assert (p + [office])[..|p|] == p;
  }

  lemma SameFrame(d: DogState, x: DogState, y: DogState)
    requires x.(bag := d.bag, score := d.score) == d && y.(bag := d.bag, score := d.score) == d && x.bag == y.bag
    ensures y == x.(score := y.score)
  {
  }

  lemma ScoresAgree(x: Score, y: Score, v: int, s: int, t: int)
    requires v == (x - y) + (s - t) * SCORE_LIMIT
    ensures x == y <==> Unseen(v)
  {
    WrapSame(x, y);
    WrapShift(x - y, s - t);
  }

  /** The whole way up to the office. */
  lemma {:induction false} UpToIs(d: DogState, a: Thing, b: Thing, pre: seq<Thing>)
    ensures Accepted(d, [a, b] + pre) == AcceptedUpTo(d, a, b, pre)
    ensures MeetAll(d, [a, b] + pre) == MeetAll(Meet(Meet(d, a), b), pre)
  {
    MeetTwo(d, a, b);
    MeetAllConcat(d, [a, b], pre);
  }

  lemma OfficeSplit(own: seq<Thing>) returns (pre: seq<Thing>, office: Thing, post: seq<Thing>)
    requires HasOffice(own)
    ensures pre == UpToOffice(own) && office.Base? && own == (pre + [office]) + post && post == own[|pre| + 1..]
  {
    pre := UpToOffice(own);
    office, post := own[|pre|], own[|pre| + 1..];
  }

  ghost predicate LootIn(things: seq<Thing>, oid: nat) { exists o :: Loot(o) in things && o.id == oid }

  lemma {:induction false} AcceptedAreIn(d: DogState, things: seq<Thing>)
    ensures forall oid :: HasId(Accepted(d, things), oid) ==> LootIn(things, oid)
  {
    AcceptedWereMet(d, things);
  }

  /** Two ways to one office: the dog ends the same iff it has brought the same value, and accepts the same
      afterwards. */
  lemma TwoWays(d: DogState, p: seq<Thing>, q: seq<Thing>, office: Thing, post: seq<Thing>,
                whole: seq<Thing>, swapped: seq<Thing>, v: int)
    returns (rest: seq<LostObject>)
    requires v == ValueOf(Accepted(d, p)) - ValueOf(Accepted(d, q))
    requires office.Base? && whole == (p + [office]) + post && swapped == (q + [office]) + post
    ensures MeetAll(d, whole) == MeetAll(d, swapped) <==> Unseen(v)
    ensures Accepted(d, whole) == Accepted(d, p) + rest && Accepted(d, swapped) == Accepted(d, q) + rest
    ensures forall oid :: HasId(rest, oid) ==> LootIn(post, oid)
  {
    MeetAllConcat(d, p + [office], post);
    MeetAllConcat(d, q + [office], post);
    var x, y := AtTheOffice(d, p, q, office, v);
    ScoresStayApart(x, y.score, post);
    rest := Accepted(x, post);
    AcceptedAreIn(x, post);
  }

  /** Without one: the bags stay different, unless the order did not matter at once. */
  lemma {:induction false} TieWithoutOffice(d: DogState, a: Thing, b: Thing, own: seq<Thing>)
    requires !HasOffice(own) && !Commute(d, a, b) && LootDistinct([a, b] + own)
    ensures MeetAll(d, [a, b] + own) != MeetAll(d, [b, a] + own)
  {
    UpToIs(d, a, b, own);
    UpToIs(d, b, a, own);
    DistinctBefore(a, b, own);
    assert UpToOffice(own) == own;
    BagsStayDifferent(d, a, b, own);
  }

  lemma {:induction false} BagsStayDifferent(d: DogState, a: Thing, b: Thing, own: seq<Thing>)
    requires !Commute(d, a, b) && AllLoot(own)
    requires (a.Loot? ==> NoneIs(own, a.loot.id)) && (b.Loot? ==> NoneIs(own, b.loot.id))
    ensures MeetAll(Meet(Meet(d, a), b), own).bag != MeetAll(Meet(Meet(d, b), a), own).bag
  {
    var x, y := Meet(Meet(d, a), b), Meet(Meet(d, b), a);
    MeetLoot(x, own);
    MeetLoot(y, own);
    var (s, t) := (FoundsOf(LootsOf(Fitting(own, Room(x)))), FoundsOf(LootsOf(Fitting(own, Room(y)))));
    if a.Loot? && b.Loot? {
      var n := |d.bag|;
      assert (x.bag + s)[n] == Found(a.loot) && (y.bag + t)[n] == Found(b.loot);
    } else if a.Loot? {
      OfficeLeavesDifferent(x, y, a.loot, own);
    } else {
      OfficeLeavesDifferent(y, x, b.loot, own);
    }
  }

  lemma OfficeLeavesDifferent(x: DogState, y: DogState, o: LostObject, own: seq<Thing>)
    requires AllLoot(own) && x.bag == [] && y.bag == [Found(o)] && NoneIs(own, o.id)
    ensures x.bag + FoundsOf(LootsOf(Fitting(own, Room(x)))) != y.bag + FoundsOf(LootsOf(Fitting(own, Room(y))))
  {
    var (s, t) := (FoundsOf(LootsOf(Fitting(own, Room(x)))), FoundsOf(LootsOf(Fitting(own, Room(y)))));
    assert x.bag + s == s && (y.bag + t)[0] == Found(o);
    if s != [] {
      assert s[0].id == own[0].loot.id;
    }
  }

  /** The objects that only one of the two orders takes have the same value, as far as `unsigned` can tell. */
  predicate SameWorth(d: DogState, a: Thing, b: Thing, own: seq<Thing>) {
    Unseen(ValueIn(OnlyIfFirst(d, a, b, own)) - ValueIn(OnlyIfFirst(d, b, a, own)))
  }

  lemma {:induction false} StillDiffer(p: seq<LostObject>, q: seq<LostObject>, rest: seq<LostObject>,
                                       whole: seq<LostObject>, swapped: seq<LostObject>, first: Option<LostObject>,
                                       second: Option<LostObject>)
    requires DifferIn(p, q, first, second) && whole == p + rest && swapped == q + rest
    requires forall oid :: HasId(rest, oid) ==> !IsId(first, oid) && !IsId(second, oid)
    ensures DifferIn(whole, swapped, first, second) && ValueOf(p) - ValueOf(q) == ValueIn(first) - ValueIn(second)
  {
    SameBut(p, q, rest, first, second);
  }

  lemma Joined(h: seq<Thing>, own: seq<Thing>, pre: seq<Thing>, office: Thing, post: seq<Thing>)
    requires own == (pre + [office]) + post
    ensures h + own == ((h + pre) + [office]) + post
  {
  }

  /** The same over the whole list of what the dog meets. */
  lemma WaysOver(d: DogState, h: seq<Thing>, k: seq<Thing>, own: seq<Thing>, pre: seq<Thing>, office: Thing,
                 post: seq<Thing>, v: int)
    returns (rest: seq<LostObject>)
    requires office.Base? && own == (pre + [office]) + post
    requires v == ValueOf(Accepted(d, h + pre)) - ValueOf(Accepted(d, k + pre))
    ensures MeetAll(d, h + own) == MeetAll(d, k + own) <==> Unseen(v)
    ensures Accepted(d, h + own) == Accepted(d, h + pre) + rest && Accepted(d, k + own) == Accepted(d, k + pre) + rest
    ensures forall oid :: HasId(rest, oid) ==> LootIn(post, oid)
  {
    Joined(h, own, pre, office, post);
    Joined(k, own, pre, office, post);
    rest := TwoWays(d, h + pre, k + pre, office, post, h + own, k + own, v);
  }

  lemma {:induction false} TieDiffersSoFar(d: DogState, a: Thing, b: Thing, own: seq<Thing>)
    requires !Commute(d, a, b) && LootDistinct([a, b] + own)
    ensures DifferIn(Accepted(d, [a, b] + UpToOffice(own)), Accepted(d, [b, a] + UpToOffice(own)),
      OnlyIfFirst(d, a, b, own), OnlyIfFirst(d, b, a, own))
  {
    TieDiffers(d, a, b, own);
    UpToIs(d, a, b, UpToOffice(own));
    UpToIs(d, b, a, UpToOffice(own));
  }

  lemma {:induction false} WorthSoFar(d: DogState, a: Thing, b: Thing, own: seq<Thing>) returns (v: int)
    requires !Commute(d, a, b) && LootDistinct([a, b] + own)
    ensures v == ValueOf(Accepted(d, [a, b] + UpToOffice(own))) - ValueOf(Accepted(d, [b, a] + UpToOffice(own)))
    ensures v == ValueIn(OnlyIfFirst(d, a, b, own)) - ValueIn(OnlyIfFirst(d, b, a, own))
  {
    TieDiffersSoFar(d, a, b, own);
    v := ValueIn(OnlyIfFirst(d, a, b, own)) - ValueIn(OnlyIfFirst(d, b, a, own));
  }

  lemma {:induction false} TieEnds(d: DogState, a: Thing, b: Thing, own: seq<Thing>)
    requires !Commute(d, a, b) && LootDistinct([a, b] + own) && HasOffice(own)
    ensures MeetAll(d, [a, b] + own) == MeetAll(d, [b, a] + own) <==> SameWorth(d, a, b, own)
  {
    var pre, office, post := OfficeSplit(own);
    var v := WorthSoFar(d, a, b, own);
    var rest := WaysOver(d, [a, b], [b, a], own, pre, office, post, v);
  }

  lemma {:induction false} AcceptedWithOffice(d: DogState, a: Thing, b: Thing, own: seq<Thing>)
    requires !Commute(d, a, b) && LootDistinct([a, b] + own) && HasOffice(own)
    ensures DifferIn(Accepted(d, [a, b] + own), Accepted(d, [b, a] + own),
      OnlyIfFirst(d, a, b, own), OnlyIfFirst(d, b, a, own))
  {
    var pre, office, post := OfficeSplit(own);
    var p, q := Accepted(d, [a, b] + pre), Accepted(d, [b, a] + pre);
    var first, second := OnlyIfFirst(d, a, b, own), OnlyIfFirst(d, b, a, own);
    TieDiffersSoFar(d, a, b, own);
    NotAgain(d, a, b, own, pre, post);
    var v := WorthSoFar(d, a, b, own);
    var rest := WaysOver(d, [a, b], [b, a], own, pre, office, post, v);
    StillDiffer(p, q, rest, Accepted(d, [a, b] + own), Accepted(d, [b, a] + own), first, second);
  }

  /** The lists of what is accepted, whole. */
  lemma {:induction false} TieAccepted(d: DogState, a: Thing, b: Thing, own: seq<Thing>)
    requires !Commute(d, a, b) && LootDistinct([a, b] + own)
    ensures DifferIn(Accepted(d, [a, b] + own), Accepted(d, [b, a] + own),
      OnlyIfFirst(d, a, b, own), OnlyIfFirst(d, b, a, own))
  {
    if HasOffice(own) {
      AcceptedWithOffice(d, a, b, own);
    } else {
      TieDiffersSoFar(d, a, b, own);
      assert UpToOffice(own) == own;
    }
  }

  lemma {:induction false} OnlyIfFirstIsMet(d: DogState, a: Thing, b: Thing, own: seq<Thing>)
    ensures var o := OnlyIfFirst(d, a, b, own);
      o.Some? ==> Loot(o.value) == a || Loot(o.value) == b || Loot(o.value) in UpToOffice(own)
  {
  }

  lemma {:induction false} NotAgain(d: DogState, a: Thing, b: Thing, own: seq<Thing>, pre: seq<Thing>, post: seq<Thing>)
    requires LootDistinct([a, b] + own) && pre == UpToOffice(own) && HasOffice(own) && post == own[|pre| + 1..]
    ensures forall oid :: LootIn(post, oid) ==>
      !IsId(OnlyIfFirst(d, a, b, own), oid) && !IsId(OnlyIfFirst(d, b, a, own), oid)
  {
    OnlyIfFirstIsMet(d, a, b, own);
    OnlyIfFirstIsMet(d, b, a, own);
    forall t, o | (t == a || t == b || t in pre) && t.Loot? && Loot(o) in post ensures t.loot.id != o.id {
      MetOnce(a, b, own, |pre|, t, o);
    }
  }

  lemma MetOnce(a: Thing, b: Thing, own: seq<Thing>, n: nat, t: Thing, o: LostObject)
    requires LootDistinct([a, b] + own) && n < |own| && Loot(o) in own[n + 1..] && t.Loot?
    requires t == a || t == b || t in own[..n]
    ensures t.loot.id != o.id
  {
    var all := [a, b] + own;
    var j :| 0 <= j < |own[n + 1..]| && own[n + 1..][j] == Loot(o);
    assert all[n + 3 + j] == Loot(o) && all[0] == a && all[1] == b;
    if t in own[..n] {
      var i :| 0 <= i < n && own[..n][i] == t;
      assert all[i + 2] == t;
    }
  }

  lemma {:induction false} CommutingTie(d: DogState, a: Thing, b: Thing, own: seq<Thing>)
    requires Commute(d, a, b) && LootDistinct([a, b] + own)
    ensures MeetAll(d, [a, b] + own) == MeetAll(d, [b, a] + own)
    ensures Accepted(d, [a, b] + own) == Accepted(d, [b, a] + own)
  {
    MeetsCommuteIff(d, a, b);
    MeetTwo(d, a, b);
    MeetTwo(d, b, a);
    MeetAllConcat(d, [a, b], own);
    MeetAllConcat(d, [b, a], own);
    DistinctBefore(a, b, own);
    assert Accepted(d, [a, b]) == Accepted(d, [b, a]) == [];
  }

  /** A tie of one dog, whatever it meets afterwards: it ends the same iff the two things commute, or an office
      follows and the order makes no difference to the value; and each order takes at most one object that the
      other does not. */
  lemma {:induction false} DogTie(d: DogState, a: Thing, b: Thing, own: seq<Thing>)
    requires LootDistinct([a, b] + own)
    ensures MeetAll(d, [a, b] + own) == MeetAll(d, [b, a] + own)
      <==> Commute(d, a, b) || (HasOffice(own) && SameWorth(d, a, b, own))
    ensures forall oid ::
      PickedBy(d, [a, b] + own, oid) && !PickedBy(d, [b, a] + own, oid) <==> IsId(OnlyIfFirst(d, a, b, own), oid)
    ensures forall oid ::
      PickedBy(d, [b, a] + own, oid) && !PickedBy(d, [a, b] + own, oid) <==> IsId(OnlyIfFirst(d, b, a, own), oid)
  {
    if Commute(d, a, b) {
      CommutingTie(d, a, b, own);
    } else {
      TieAccepted(d, a, b, own);
      if HasOffice(own) {
        TieEnds(d, a, b, own);
      } else {
        TieWithoutOffice(d, a, b, own);
      }
    }
    IdsArePicked(d, [a, b] + own);
    IdsArePicked(d, [b, a] + own);
  }

  lemma {:induction false} IdsArePicked(d: DogState, things: seq<Thing>)
    ensures forall oid :: PickedBy(d, things, oid) <==> HasId(Accepted(d, things), oid)
  {
  }

  /* ---- the whole board ---- */

  lemma {:induction false} OwnConcat(s: Setup, p: seq<GatheringEvent>, q: seq<GatheringEvent>, id: nat)
    requires s.Fits(p + q) && s.Fits(p) && s.Fits(q)
    ensures Own(s, p + q, id) == Own(s, p, id) + Own(s, q, id)
  {
    if q == [] {
      assert p + q == p;
    } else {
      var init := q[..|q| - 1];
      assert (p + q)[..|p + q| - 1] == p + init && (p + q)[|p + q| - 1] == q[|q| - 1];
      assert s.Fits(init) && s.Fits(p + init);
      OwnConcat(s, p, init, id);
    }
  }

  lemma {:induction false} OwnOfTwo(s: Setup, e: GatheringEvent, f: GatheringEvent, id: nat)
    requires s.Fits([e, f])
    ensures e.item < |s.things| && f.item < |s.things| && e.gatherer < |s.ids| && f.gatherer < |s.ids|
    ensures Own(s, [e, f], id) == (if s.Dog(e) == id then [s.things[e.item]] else [])
      + (if s.Dog(f) == id then [s.things[f.item]] else [])
  {
    assert e in [e, f] && f in [e, f];
    assert [e, f][..1] == [e] && [e][..0] == [];
    assert Own(s, [e], id) == if s.Dog(e) == id then [s.things[e.item]] else [];
  }

  lemma FitsParts(s: Setup, init: seq<GatheringEvent>, e: GatheringEvent, f: GatheringEvent, rest: seq<GatheringEvent>)
    requires s.Fits(init + [e, f] + rest)
    ensures s.Fits(init) && s.Fits([e, f]) && s.Fits([f, e]) && s.Fits(rest)
    ensures s.Fits(init + [e, f]) && s.Fits(init + [f, e]) && s.Fits(init + [f, e] + rest)
  {
    assert forall x :: x in init || x in [e, f] || x in rest ==> x in init + [e, f] + rest;
    assert forall x :: x in [f, e] ==> x in [e, f];
  }

  /** What a dog meets in a list with two events of one dog in the middle. */
  lemma {:induction false} OwnAround(s: Setup, init: seq<GatheringEvent>, e: GatheringEvent, f: GatheringEvent,
                                     rest: seq<GatheringEvent>, id: nat)
    requires s.Fits(init + [e, f] + rest) && s.Fits([e, f]) && s.Dog(e) == s.Dog(f)
    ensures s.Fits(init) && s.Fits(rest) && e.item < |s.things| && f.item < |s.things|
    ensures Own(s, init + [e, f] + rest, id)
      == Own(s, init, id) + (if s.Dog(e) == id then [s.things[e.item], s.things[f.item]] else []) + Own(s, rest, id)
  {
    FitsParts(s, init, e, f, rest);
    OwnConcat(s, init + [e, f], rest, id);
    OwnConcat(s, init, [e, f], id);
    OwnOfTwo(s, e, f, id);
  }

  /** Some other dog takes the object. */
  ghost predicate TakenAnyway(b: Board, s: Setup, events: seq<GatheringEvent>, me: nat, o: Option<LostObject>)
    requires s.Fits(events)
  {
    o.Some? ==> exists id :: id != me && Picked(b, s, events, id, o.value.id)
  }

  /** A tie in its surroundings: the dog before it, the two things, and what the dog meets afterwards. */
  datatype Tie = Tie(d: DogState, a: Thing, b: Thing, own: seq<Thing>) {
    function First(): Option<LostObject> { OnlyIfFirst(d, a, b, own) }

    function Second(): Option<LostObject> { OnlyIfFirst(d, b, a, own) }

    predicate Harmless() { Commute(d, a, b) || (HasOffice(own) && SameWorth(d, a, b, own)) }

    function Straight(): seq<Thing> { [a, b] + own }

    function Swapped(): seq<Thing> { [b, a] + own }
  }

  /** The tie of two events in a list. */
  function TieOf(b: Board, s: Setup, init: seq<GatheringEvent>, e: GatheringEvent, f: GatheringEvent,
                 rest: seq<GatheringEvent>): Tie
    requires s.Fits(init) && s.Fits([e, f]) && s.Fits(rest) && e.gatherer < |s.ids| && s.Dog(e) in b.dogs
    requires e.item < |s.things| && f.item < |s.things|
  {
    Tie(MeetAll(b.dogs[s.Dog(e)], Own(s, init, s.Dog(e))), s.things[e.item], s.things[f.item], Own(s, rest, s.Dog(e)))
  }

  lemma SuffixDistinct(p: seq<Thing>, q: seq<Thing>)
    requires LootDistinct(p + q)
    ensures LootDistinct(q) && forall t, u :: t in p && u in q && t.Loot? && u.Loot? ==> t.loot.id != u.loot.id
  {
    var all := p + q;
    assert forall i :: 0 <= i < |q| ==> all[|p| + i] == q[i];
    forall t, u | t in p && u in q && t.Loot? && u.Loot? ensures t.loot.id != u.loot.id {
      var i :| 0 <= i < |p| && p[i] == t;
      var j :| 0 <= j < |q| && q[j] == u;
      assert all[i] == t && all[|p| + j] == u;
    }
  }

  /** What the dog of the tie does in the whole list. */
  lemma {:induction false} DogAround(d0: DogState, before: seq<Thing>, tie: Tie)
    requires tie.d == MeetAll(d0, before) && LootDistinct(before + tie.Straight())
    ensures MeetAll(d0, before + tie.Straight()) == MeetAll(d0, before + tie.Swapped()) <==> tie.Harmless()
    ensures forall oid :: (
      PickedBy(d0, before + tie.Straight(), oid) && !PickedBy(d0, before + tie.Swapped(), oid) <==>
        IsId(tie.First(), oid))
    ensures forall oid :: (
      PickedBy(d0, before + tie.Swapped(), oid) && !PickedBy(d0, before + tie.Straight(), oid) <==>
        IsId(tie.Second(), oid))
  {
    SuffixDistinct(before, tie.Straight());
    MeetAllConcat(d0, before, tie.Straight());
    MeetAllConcat(d0, before, tie.Swapped());
    DogTie(tie.d, tie.a, tie.b, tie.own);
    PickedConcat(d0, before, tie.Straight());
    PickedConcat(d0, before, tie.Swapped());
    NotBefore(d0, before, tie);
  }

  lemma {:induction false} PickedConcat(d: DogState, p: seq<Thing>, q: seq<Thing>)
    ensures forall oid :: PickedBy(d, p + q, oid) <==> PickedBy(d, p, oid) || PickedBy(MeetAll(d, p), q, oid)
  {
    MeetAllConcat(d, p, q);
    IdsConcat(Accepted(d, p), Accepted(MeetAll(d, p), q));
    IdsArePicked(d, p + q);
    IdsArePicked(d, p);
    IdsArePicked(MeetAll(d, p), q);
  }

  /** The objects of the tie were not met before it. */
  lemma NotBefore(d0: DogState, before: seq<Thing>, tie: Tie)
    requires LootDistinct(before + tie.Straight())
    ensures forall oid :: IsId(tie.First(), oid) || IsId(tie.Second(), oid) ==> !PickedBy(d0, before, oid)
  {
    SuffixDistinct(before, tie.Straight());
    OnlyIfFirstIsMet(tie.d, tie.a, tie.b, tie.own);
    OnlyIfFirstIsMet(tie.d, tie.b, tie.a, tie.own);
    AcceptedWereMet(d0, before);
    assert tie.Straight()[0] == tie.a && tie.Straight()[1] == tie.b;
    assert forall t :: t in UpToOffice(tie.own) ==> t in tie.own && t in tie.Straight();
  }

  /** How the two lists look to a dog: the dog of the tie meets the two things in the one or the other order, the
      other dogs notice nothing. */
  lemma {:induction false} TieSeen(b: Board, s: Setup, init: seq<GatheringEvent>, e: GatheringEvent, f: GatheringEvent,
                                   rest: seq<GatheringEvent>, id: nat)
    requires s.Fits(init + [e, f] + rest) && s.Fits([e, f]) && s.Dog(e) == s.Dog(f) && s.Dog(e) in b.dogs
    ensures s.Fits(init) && s.Fits(rest) && s.Fits(init + [f, e] + rest) && e.item < |s.things| && f.item < |s.things|
    ensures id != s.Dog(e) ==> Own(s, init + [e, f] + rest, id) == Own(s, init + [f, e] + rest, id)
    ensures id == s.Dog(e) ==>
      Own(s, init + [e, f] + rest, id) == Own(s, init, id) + TieOf(b, s, init, e, f, rest).Straight()
    ensures id == s.Dog(e) ==>
      Own(s, init + [f, e] + rest, id) == Own(s, init, id) + TieOf(b, s, init, e, f, rest).Swapped()
  {
    FitsParts(s, init, e, f, rest);
    OwnAround(s, init, e, f, rest, id);
    OwnAround(s, init, f, e, rest, id);
    if id == s.Dog(e) {
      var (before, t, u, own) := (Own(s, init, id), s.things[e.item], s.things[f.item], Own(s, rest, id));
      assert before + [t, u] + own == before + ([t, u] + own) && before + [u, t] + own == before + ([u, t] + own);
    }
  }

  lemma {:induction false} SameLost(b: Board, s: Setup, p: seq<GatheringEvent>, q: seq<GatheringEvent>)
    requires Playable(b, s, p) && Playable(b, s, q)
    ensures Play(b, s, p).lost == Play(b, s, q).lost
      <==> forall oid :: oid in b.lost ==> (LeftAlone(b, s, p, oid) <==> LeftAlone(b, s, q, oid))
  {
    FactorsByDog(b, s, p);
    FactorsByDog(b, s, q);
    var (l, m) := (Play(b, s, p).lost, Play(b, s, q).lost);
    if forall oid :: oid in b.lost ==> (LeftAlone(b, s, p, oid) <==> LeftAlone(b, s, q, oid)) {
      assert forall oid :: oid in l <==> oid in m;
    }
  }

  /** The dogs: only the one of the tie may end differently. */
  lemma {:induction false} SameDogs(b: Board, s: Setup, p: seq<GatheringEvent>, q: seq<GatheringEvent>, me: nat)
    requires Playable(b, s, p) && Playable(b, s, q) && me in b.dogs
    requires forall id :: id in b.dogs && id != me ==> Own(s, p, id) == Own(s, q, id)
    ensures Play(b, s, p).dogs == Play(b, s, q).dogs
      <==> MeetAll(b.dogs[me], Own(s, p, me)) == MeetAll(b.dogs[me], Own(s, q, me))
  {
    FactorsByDog(b, s, p);
    FactorsByDog(b, s, q);
    var (x, y) := (Play(b, s, p).dogs, Play(b, s, q).dogs);
    if x[me] == y[me] {
      assert forall id :: id in b.dogs ==> x[id] == y[id];
    }
  }

  /** The map: the objects that only one order takes must be taken by others anyway. */
  lemma {:induction false} TieLost(b: Board, s: Setup, p: seq<GatheringEvent>, q: seq<GatheringEvent>, me: nat,
                                   first: Option<LostObject>, second: Option<LostObject>)
    requires Playable(b, s, p) && Playable(b, s, q) && me in b.dogs
    requires forall id :: id in b.dogs && id != me ==> Own(s, p, id) == Own(s, q, id)
    requires forall oid :: (Picked(b, s, p, me, oid) && !Picked(b, s, q, me, oid) <==> IsId(first, oid))
    requires forall oid :: (Picked(b, s, q, me, oid) && !Picked(b, s, p, me, oid) <==> IsId(second, oid))
    requires (first.Some? ==> first.value.id in b.lost) && (second.Some? ==> second.value.id in b.lost)
    ensures Play(b, s, p).lost == Play(b, s, q).lost
      <==> TakenAnyway(b, s, p, me, first) && TakenAnyway(b, s, p, me, second)
  {
    SameLost(b, s, p, q);
    forall id, oid | id in b.dogs && id != me ensures Picked(b, s, p, id, oid) <==> Picked(b, s, q, id, oid) {
    }
    forall oid ensures (LeftAlone(b, s, p, oid) <==> LeftAlone(b, s, q, oid)) <==>
      (IsId(first, oid) ==> TakenAnyway(b, s, p, me, first)) && (IsId(second, oid) ==> TakenAnyway(b, s, p, me, second))
    {
      LeftAloneBut(b, s, p, q, me, oid, first, second);
    }
  }

  lemma LeftAloneBut(b: Board, s: Setup, p: seq<GatheringEvent>, q: seq<GatheringEvent>, me: nat, oid: nat,
                     first: Option<LostObject>, second: Option<LostObject>)
    requires s.Fits(p) && s.Fits(q) && me in b.dogs
    requires forall id :: id in b.dogs && id != me ==> (Picked(b, s, p, id, oid) <==> Picked(b, s, q, id, oid))
    requires Picked(b, s, p, me, oid) && !Picked(b, s, q, me, oid) <==> IsId(first, oid)
    requires Picked(b, s, q, me, oid) && !Picked(b, s, p, me, oid) <==> IsId(second, oid)
    ensures (LeftAlone(b, s, p, oid) <==> LeftAlone(b, s, q, oid)) <==>
      (IsId(first, oid) ==> TakenAnyway(b, s, p, me, first)) && (IsId(second, oid) ==> TakenAnyway(b, s, p, me, second))
  {
  }

  /** Two events of one dog, next to each other among any others: the board is the same in either order iff the two
      things commute, or an office follows, the objects that only one order takes have the same value, and other
      dogs take them anyway. */
  lemma {:induction false} TieIsImmaterialIff(b: Board, s: Setup, init: seq<GatheringEvent>, e: GatheringEvent,
                                              f: GatheringEvent, rest: seq<GatheringEvent>)
    requires Playable(b, s, init + [e, f] + rest) && SetupOk(b, s) && PairsDistinct(init + [e, f] + rest)
    requires s.Fits([e, f]) && s.Dog(e) == s.Dog(f)
    ensures s.Fits(init) && s.Fits(rest) && Playable(b, s, init + [f, e] + rest) && s.Dog(e) in b.dogs
    ensures e.item < |s.things| && f.item < |s.things|
    ensures var (all, tie, me) := (init + [e, f] + rest, TieOf(b, s, init, e, f, rest), s.Dog(e));
      Play(b, s, all) == Play(b, s, init + [f, e] + rest) <==>
        tie.Harmless() && TakenAnyway(b, s, all, me, tie.First()) && TakenAnyway(b, s, all, me, tie.Second())
  {
    var (all, swapped, me) := (init + [e, f] + rest, init + [f, e] + rest, s.Dog(e));
    TieSeen(b, s, init, e, f, rest, me);
    forall id | id in b.dogs && id != me ensures Own(s, all, id) == Own(s, swapped, id) {
      TieSeen(b, s, init, e, f, rest, id);
    }
    var tie := TieOf(b, s, init, e, f, rest);
    OwnLootDistinct(b, s, all, me);
    DogAround(b.dogs[me], Own(s, init, me), tie);
    SameDogs(b, s, all, swapped, me);
    TieOnMap(b, s, all, me, Own(s, init, me), tie);
    TieLost(b, s, all, swapped, me, tie.First(), tie.Second());
  }

  lemma {:induction false} TieOnMap(b: Board, s: Setup, all: seq<GatheringEvent>, me: nat, before: seq<Thing>, tie: Tie)
    requires SetupOk(b, s) && s.Fits(all) && Own(s, all, me) == before + tie.Straight()
    requires forall t :: t in Own(s, all, me) ==> t in s.things
    ensures tie.First().Some? ==> tie.First().value.id in b.lost
    ensures tie.Second().Some? ==> tie.Second().value.id in b.lost
  {
    OnlyIfFirstIsMet(tie.d, tie.a, tie.b, tie.own);
    OnlyIfFirstIsMet(tie.d, tie.b, tie.a, tie.own);
    assert tie.Straight()[0] == tie.a && tie.Straight()[1] == tie.b;
    assert forall t :: t in tie.own ==> t in tie.Straight();
    assert forall t :: t in tie.Straight() ==> t in Own(s, all, me);
  }
}
