/** Which items lie on the way of which gatherers, and in what order they are met. */
module CollisionDetector {
  import opened Wrappers
  import opened Geometry
  import opened Sorting

  datatype Item = Item(position: Vec, width: real)

  datatype Gatherer = Gatherer(start: Vec, end: Vec, width: real)

  datatype CollectionResult = CollectionResult(sqDistance: real, projRatio: real) {
    predicate IsCollected(radius: real) { 0.0 <= projRatio <= 1.0 && sqDistance <= radius * radius }
  }

  datatype GatheringEvent = GatheringEvent(item: nat, gatherer: nat, sqDistance: real, time: real)

  function Minus(a: Vec, b: Vec): Vec { Vec(a.x - b.x, a.y - b.y) }

  function Dot(u: Vec, v: Vec): real { Times(u.x, v.x) + Times(u.y, v.y) }

  lemma LengthPositive(v: Vec)
    requires v != ZERO
    ensures Dot(v, v) > 0.0
  {
  }

  /** `uu` minus the square of the projection. */
  function OffLine(uu: real, uv: real, vv: real): real
    requires vv > 0.0
  {
    uu - uv * uv / vv
  }

  /** `TryCollectPoint`: moving from `a` to `b` past `c`. The program asserts that `a` and `b` differ. */
  function TryCollectPoint(a: Vec, b: Vec, c: Vec): CollectionResult
    requires a != b
  {
    var u, v := Minus(c, a), Minus(b, a);
    LengthPositive(v);
    CollectionResult(OffLine(Dot(u, u), Dot(u, v), Dot(v, v)), Dot(u, v) / Dot(v, v))
  }

  /** The point at ratio `t` of the line through `a` and `b`. */
  function Along(a: Vec, b: Vec, t: real): Vec { Vec(a.x + t * (b.x - a.x), a.y + t * (b.y - a.y)) }

  function SqDistance(p: Vec, q: Vec): real { Dot(Minus(p, q), Minus(p, q)) }

  /** The squared length of `u - t v`, from the three dot products. */
  function Quadratic(uu: real, uv: real, vv: real, t: real): real { uu - 2.0 * t * uv + t * t * vv }

  lemma DistanceExpands(u: Vec, v: Vec, t: real)
    ensures var w := Vec(u.x - t * v.x, u.y - t * v.y);
      Dot(w, w) == Quadratic(Dot(u, u), Dot(u, v), Dot(v, v), t)
  {
  }

  /** The quadratic is least at `uv / vv` and nowhere else. */
  lemma CompleteSquare(uu: real, uv: real, vv: real, t: real)
    requires vv > 0.0
    ensures Quadratic(uu, uv, vv, t) >= OffLine(uu, uv, vv)
    ensures Quadratic(uu, uv, vv, t) == OffLine(uu, uv, vv) <==> t == uv / vv
  {
    var p := uv / vv;
    var d := t - p;
    assert p * vv == uv;
    calc {
      uv * uv / vv;
      (p * vv) * uv / vv;
      p * uv;
      p * (p * vv);
    }
    calc {
      vv * (d * d);
      vv * ((t - p) * (t - p));
      vv * (t * t - 2.0 * t * p + p * p);
      t * t * vv - 2.0 * t * (p * vv) + p * (p * vv);
      t * t * vv - 2.0 * t * uv + p * (p * vv);
    }
    assert Quadratic(uu, uv, vv, t) == OffLine(uu, uv, vv) + Times(vv, Times(d, d));
  }

  lemma SqDistanceNotNegative(p: Vec, q: Vec)
    ensures SqDistance(p, q) >= 0.0
  {
  }

  /** The squared distance is that of the nearest point of the whole line, reached at the projection only. */
  lemma LineDistanceIsLeast(a: Vec, b: Vec, c: Vec, t: real)
    requires a != b
    ensures SqDistance(c, Along(a, b, t)) >= TryCollectPoint(a, b, c).sqDistance >= 0.0
    ensures SqDistance(c, Along(a, b, t)) == TryCollectPoint(a, b, c).sqDistance
      <==> t == TryCollectPoint(a, b, c).projRatio
  {
    AtRatio(a, b, c, t);
    var foot := TryCollectPoint(a, b, c).projRatio;
    AtRatio(a, b, c, foot);
    SqDistanceNotNegative(c, Along(a, b, foot));
  }

  lemma AtRatio(a: Vec, b: Vec, c: Vec, t: real)
    requires a != b
    ensures SqDistance(c, Along(a, b, t)) >= TryCollectPoint(a, b, c).sqDistance
    ensures SqDistance(c, Along(a, b, t)) == TryCollectPoint(a, b, c).sqDistance
      <==> t == TryCollectPoint(a, b, c).projRatio
  {
    var u, v := Minus(c, a), Minus(b, a);
    LengthPositive(v);
    DistanceExpands(u, v, t);
    CompleteSquare(Dot(u, u), Dot(u, v), Dot(v, v), t);
    assert Minus(c, Along(a, b, t)) == Vec(u.x - t * v.x, u.y - t * v.y);
  }

  /** Reference definition: the line's point nearest to `c` is on the segment, within the radius. */
  ghost predicate PassesWithin(a: Vec, b: Vec, c: Vec, radius: real) {
    exists t: real :: 0.0 <= t <= 1.0 && NearestAt(a, b, c, t) && SqDistance(c, Along(a, b, t)) <= radius * radius
  }

  ghost predicate NearestAt(a: Vec, b: Vec, c: Vec, t: real) {
    forall s: real :: SqDistance(c, Along(a, b, t)) <= SqDistance(c, Along(a, b, s))
  }

  lemma CollectedIffPassesWithin(a: Vec, b: Vec, c: Vec, radius: real)
    requires a != b
    ensures TryCollectPoint(a, b, c).IsCollected(radius) <==> PassesWithin(a, b, c, radius)
  {
    var r := TryCollectPoint(a, b, c);
    forall s: real ensures SqDistance(c, Along(a, b, s)) >= r.sqDistance {
      LineDistanceIsLeast(a, b, c, s);
    }
    LineDistanceIsLeast(a, b, c, r.projRatio);
    assert NearestAt(a, b, c, r.projRatio);
    if PassesWithin(a, b, c, radius) {
      var t: real :| 0.0 <= t <= 1.0 && NearestAt(a, b, c, t) && SqDistance(c, Along(a, b, t)) <= radius * radius;
      assert SqDistance(c, Along(a, b, t)) <= SqDistance(c, Along(a, b, r.projRatio));
      LineDistanceIsLeast(a, b, c, t);
    }
  }

  /* ---- the event list ---- */

  /** An event of this configuration, judged by the reference definition. */
  ghost predicate IsEvent(items: seq<Item>, gatherers: seq<Gatherer>, e: GatheringEvent) {
    && e.item < |items| && e.gatherer < |gatherers|
    && var (g, i) := (gatherers[e.gatherer], items[e.item]);
    && g.start != g.end
    && PassesWithin(g.start, g.end, i.position, i.width + g.width)
    && CollectionResult(e.sqDistance, e.time) == TryCollectPoint(g.start, g.end, i.position)
  }

  predicate SamePair(e: GatheringEvent, f: GatheringEvent) { e.item == f.item && e.gatherer == f.gatherer }

  predicate PairsDistinct(events: seq<GatheringEvent>) {
    forall j, k :: 0 <= j < k < |events| ==> !SamePair(events[j], events[k])
  }

  predicate SortedByTime(events: seq<GatheringEvent>) {
    forall j, k :: 0 <= j < k < |events| ==> events[j].time <= events[k].time
  }

  /** Complete, each pair at most once, and in order of time; ties are left open. */
  ghost predicate IsEventList(items: seq<Item>, gatherers: seq<Gatherer>, events: seq<GatheringEvent>) {
    && (forall e :: e in events <==> IsEvent(items, gatherers, e))
    && PairsDistinct(events)
    && SortedByTime(events)
  }

  /** Distinct pairs, said of the elements so that it carries over to any permutation. */
  lemma DistinctPermutation(s: seq<GatheringEvent>, t: seq<GatheringEvent>)
    requires multiset(s) == multiset(t) && PairsDistinct(s)
    ensures PairsDistinct(t)
  {
    SameElements(s, t);
    forall j, k | 0 <= j < k < |t| ensures !SamePair(t[j], t[k]) {
      assert t[j] in s && t[k] in s;
      if SamePair(t[j], t[k]) {
        var a :| 0 <= a < |s| && s[a] == t[j];
        var b :| 0 <= b < |s| && s[b] == t[k];
        assert a == b;
        Twice(t, j, k);
        Once(s, a);
      }
    }
  }

  lemma Twice(t: seq<GatheringEvent>, j: nat, k: nat)
    requires j < k < |t| && t[j] == t[k]
    ensures multiset(t)[t[j]] >= 2
  {
    assert t == t[..k] + [t[k]] + t[k + 1..];
    assert t[j] in t[..k];
  }

  lemma Once(s: seq<GatheringEvent>, a: nat)
    requires a < |s| && PairsDistinct(s)
    ensures multiset(s)[s[a]] == 1
  {
    assert s == s[..a] + [s[a]] + s[a + 1..];
    assert s[a] !in s[..a] && s[a] !in s[a + 1..];
  }

  function TimeOf(e: GatheringEvent): real { e.time }

  /** `std::sort`, with the order of equal times left open. */
  method SortEvents(events: seq<GatheringEvent>) returns (r: seq<GatheringEvent>)
    ensures SortedByTime(r) && multiset(r) == multiset(events)
  {
    r := SortedCopy(events, TimeOf);
    assert forall i, j :: 0 <= i < j < |r| ==> TimeOf(r[i]) <= TimeOf(r[j]);
  }

  /** What the body of the two loops does for one pair. */
  function EventFor(items: seq<Item>, gatherers: seq<Gatherer>, g: nat, i: nat): (r: Option<GatheringEvent>)
    requires g < |gatherers| && i < |items|
    ensures r.Some? ==> r.value.gatherer == g && r.value.item == i
  {
    var gatherer, item := gatherers[g], items[i];
    if gatherer.start == gatherer.end then None
    else
      var collect := TryCollectPoint(gatherer.start, gatherer.end, item.position);
      if !collect.IsCollected(item.width + gatherer.width) then None
      else Some(GatheringEvent(i, g, collect.sqDistance, collect.projRatio))
  }

  predicate Detected(items: seq<Item>, gatherers: seq<Gatherer>, e: GatheringEvent) {
    e.gatherer < |gatherers| && e.item < |items| && EventFor(items, gatherers, e.gatherer, e.item) == Some(e)
  }

  lemma DetectedIsEvent(items: seq<Item>, gatherers: seq<Gatherer>, e: GatheringEvent)
    ensures Detected(items, gatherers, e) <==> IsEvent(items, gatherers, e)
  {
    if e.gatherer < |gatherers| && e.item < |items| {
      var g, i := gatherers[e.gatherer], items[e.item];
      if g.start != g.end {
        CollectedIffPassesWithin(g.start, g.end, i.position, i.width + g.width);
      }
    }
  }

  /** The pairs examined before gatherer `g` meets item `i`. */
  predicate Before(e: GatheringEvent, g: nat, i: nat) { e.gatherer < g || (e.gatherer == g && e.item < i) }

  method FindGatherEvents(items: seq<Item>, gatherers: seq<Gatherer>) returns (result: seq<GatheringEvent>)
    ensures IsEventList(items, gatherers, result)
  {
    result := [];
    for g := 0 to |gatherers|
      invariant forall e :: e in result <==> Detected(items, gatherers, e) && Before(e, g, 0)
      invariant PairsDistinct(result)
    {
      for i := 0 to |items|
        invariant forall e :: e in result <==> Detected(items, gatherers, e) && Before(e, g, i)
        invariant PairsDistinct(result)
      {
        var gatherer, item := gatherers[g], items[i];
        if gatherer.start != gatherer.end {
          var collect := TryCollectPoint(gatherer.start, gatherer.end, item.position);
          if collect.IsCollected(item.width + gatherer.width) {
            assert forall j :: 0 <= j < |result| ==> result[j] in result;
            result := result + [GatheringEvent(i, g, collect.sqDistance, collect.projRatio)];
          }
        }
      }
    }
    ghost var raw := result;
    result := SortEvents(result);
    SameElements(raw, result);
    DistinctPermutation(raw, result);
    forall e ensures e in result <==> IsEvent(items, gatherers, e) {
      DetectedIsEvent(items, gatherers, e);
    }
  }
}
