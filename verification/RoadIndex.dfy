/** The road index: roads grouped by line, merged in place into maximal stretches and searched. */
module RoadIndices {
  import opened Wrappers
  import opened Geometry
  import opened Sorting

  /** A stretch of one grid line, both ends included. */
  datatype Fragment = Fragment(first: int, second: int) {
    predicate Has(c: int) { first <= c <= second }

    predicate HasEdge(c: int) { first <= c && c + 1 <= second }
  }

  type Fragments = seq<Fragment>

  predicate Proper(fs: Fragments) {
    forall i :: 0 <= i < |fs| ==> fs[i].first <= fs[i].second
  }

  predicate SortedByFirst(fs: Fragments) {
    forall i, j :: 0 <= i < j < |fs| ==> fs[i].first <= fs[j].first
  }

  /** Sorted and strictly disjoint. */
  predicate Canonical(fs: Fragments) {
    && Proper(fs)
    && forall i, j :: 0 <= i < j < |fs| ==> fs[i].second < fs[j].first
  }

  predicate CoversPoint(fs: Fragments, c: int) {
    exists i :: 0 <= i < |fs| && fs[i].Has(c)
  }

  /** The unit edge from `c` to `c + 1`. */
  predicate CoversEdge(fs: Fragments, c: int) {
    exists i :: 0 <= i < |fs| && fs[i].HasEdge(c)
  }

  ghost predicate SameCover(fs: Fragments, gs: Fragments) {
    && (forall c :: CoversPoint(fs, c) <==> CoversPoint(gs, c))
    && (forall c :: CoversEdge(fs, c) <==> CoversEdge(gs, c))
  }

  /* ---- sorting (a library call in the program) ---- */

  function FirstOf(f: Fragment): real { f.first as real }

  function SortedFragments(fs: Fragments): (r: Fragments)
    ensures SortedByFirst(r) && multiset(r) == multiset(fs) && |r| == |fs|
  {
    var r := SortedCopy(fs, FirstOf);
    assert forall i, j :: 0 <= i < j < |r| ==> FirstOf(r[i]) <= FirstOf(r[j]);
    r
  }

  /** `boost::range::sort`: the contract leaves the order of equal keys open. */
  method SortFragments(a: array<Fragment>)
    modifies a
    ensures SortedByFirst(a[..]) && multiset(a[..]) == multiset(old(a[..]))
  {
    var s := SortedFragments(a[..]);
    for i := 0 to a.Length
      invariant forall k :: 0 <= k < i ==> a[k] == s[k]
    {
      a[i] := s[i];
    }
    assert a[..] == s;
  }

  lemma PermutationSameCover(fs: Fragments, gs: Fragments)
    requires multiset(fs) == multiset(gs)
    ensures SameCover(fs, gs) && (Proper(fs) <==> Proper(gs))
  {
    HalfCover(fs, gs);
    HalfCover(gs, fs);
  }

  lemma HalfCover(fs: Fragments, gs: Fragments)
    requires multiset(fs) == multiset(gs)
    ensures forall c :: CoversPoint(fs, c) ==> CoversPoint(gs, c)
    ensures forall c :: CoversEdge(fs, c) ==> CoversEdge(gs, c)
    ensures Proper(gs) ==> Proper(fs)
  {
    forall i | 0 <= i < |fs| ensures exists j :: 0 <= j < |gs| && gs[j] == fs[i] {
      assert fs[i] in multiset(fs);
      assert fs[i] in gs;
    }
  }

  /* ---- merging ---- */

  /** One step of the merge: `f` extends the last stretch it touches or opens a new one. */
  function MergeStep(done: Fragments, f: Fragment): (r: Fragments)
    requires |done| > 0
    ensures |r| > 0
  {
    var last := done[|done| - 1];
    if f.first > last.second then done + [f]
    else done[|done| - 1 := Fragment(last.first, Max(last.second, f.second))]
  }

  /** What the merge makes of a sorted list. */
  function Merged(fs: Fragments): (r: Fragments)
    requires |fs| > 0
    ensures |r| > 0
  {
    if |fs| == 1 then fs else MergeStep(Merged(fs[..|fs| - 1]), fs[|fs| - 1])
  }

  lemma AppendCover(fs: Fragments, f: Fragment, c: int)
    ensures CoversPoint(fs + [f], c) <==> CoversPoint(fs, c) || f.Has(c)
    ensures CoversEdge(fs + [f], c) <==> CoversEdge(fs, c) || f.HasEdge(c)
  {
    var all := fs + [f];
    assert all[|fs|] == f && forall i :: 0 <= i < |fs| ==> all[i] == fs[i];
  }

  lemma MergeStepCover(done: Fragments, f: Fragment)
    requires |done| > 0 && Canonical(done) && f.first <= f.second
    requires done[|done| - 1].first <= f.first
    ensures Canonical(MergeStep(done, f))
    ensures MergeStep(done, f)[|MergeStep(done, f)| - 1].first <= f.first
    ensures SameCover(MergeStep(done, f), done + [f])
  {
    var init, last := done[..|done| - 1], done[|done| - 1];
    if f.first <= last.second {
      var wide := Fragment(last.first, Max(last.second, f.second));
      assert MergeStep(done, f) == init + [wide] && done == init + [last];
      forall c
        ensures CoversPoint(init + [wide], c) <==> CoversPoint(done + [f], c)
        ensures CoversEdge(init + [wide], c) <==> CoversEdge(done + [f], c)
      {
        AppendCover(init, wide, c);
        AppendCover(init, last, c);
        AppendCover(done, f, c);
      }
    }
  }

  /** Merging a sorted list gives strictly disjoint stretches over the same points and edges. */
  lemma {:induction false} MergedIsExact(fs: Fragments)
    requires |fs| > 0 && Proper(fs) && SortedByFirst(fs)
    ensures Canonical(Merged(fs)) && SameCover(Merged(fs), fs)
    ensures Merged(fs)[|Merged(fs)| - 1].first <= fs[|fs| - 1].first
  {
    if |fs| > 1 {
      var init, f := fs[..|fs| - 1], fs[|fs| - 1];
      assert fs == init + [f];
      MergedIsExact(init);
      MergeStepCover(Merged(init), f);
      forall c
        ensures CoversPoint(Merged(init) + [f], c) <==> CoversPoint(fs, c)
        ensures CoversEdge(Merged(init) + [f], c) <==> CoversEdge(fs, c)
      {
        AppendCover(Merged(init), f, c);
        AppendCover(init, f, c);
      }
    }
  }

  /** The loop body at write position `w`: widen the last stretch or open the next one. */
  method MergeInto(a: array<Fragment>, w: nat, f: Fragment) returns (v: nat)
    requires w < a.Length && (f.first > a[w].second ==> w + 1 < a.Length)
    modifies a
    ensures w <= v < a.Length && v <= w + 1 && (v == w + 1 <==> f.first > old(a[w]).second)
    ensures a[..v + 1] == MergeStep(old(a[..w + 1]), f)
    ensures forall k :: v < k < a.Length ==> a[k] == old(a[k])
  {
    v := w;
    if f.first > a[v].second {
      v := v + 1;
      a[v] := f;
    } else {
      a[v] := Fragment(a[v].first, Max(a[v].second, f.second));
    }
  }

  lemma MergedSnoc(was: Fragments, i: nat)
    requires 0 < i < |was|
    ensures Merged(was[..i + 1]) == MergeStep(Merged(was[..i]), was[i])
  {
    assert was[..i + 1][..i] == was[..i];
  }

  /** The in-place compaction loop: the write position `w` trails the read position, so nothing unread
      is overwritten. What is left covers the same, in separate stretches. */
  method CompactFragments(a: array<Fragment>) returns (n: nat)
    requires a.Length > 0 && Proper(a[..]) && SortedByFirst(a[..])
    modifies a
    ensures 0 < n <= a.Length
    ensures a[..n] == Merged(old(a[..]))
    ensures Canonical(a[..n]) && SameCover(a[..n], old(a[..]))
  {
    ghost var was := a[..];
    MergedIsExact(was);
    var w := 0;
    for i := 0 to a.Length
      invariant 0 <= w < a.Length && (i == 0 ==> w == 0) && (i > 0 ==> w < i)
      invariant forall k :: i <= k < a.Length ==> a[k] == was[k]
      invariant i > 0 ==> a[..w + 1] == Merged(was[..i])
    {
      ghost var done := a[..w + 1];
      w := MergeInto(a, w, a[i]);
      if i == 0 {
        assert done == [was[0]] == was[..1];
      } else {
        MergedSnoc(was, i);
      }
    }
    n := w + 1;
    assert was[..a.Length] == was;
  }

  /** In a canonical list, two points share a stretch iff every edge between them is covered. */
  lemma {:induction false} SameStretchIffEdges(fs: Fragments, a: int, b: int)
    requires Canonical(fs) && a <= b
    ensures (exists i :: 0 <= i < |fs| && fs[i].Has(a) && fs[i].Has(b))
      <==> CoversPoint(fs, a) && forall c :: a <= c < b ==> CoversEdge(fs, c)
    decreases b - a
  {
    if exists i :: 0 <= i < |fs| && fs[i].Has(a) && fs[i].Has(b) {
      var i :| 0 <= i < |fs| && fs[i].Has(a) && fs[i].Has(b);
      forall c | a <= c < b ensures CoversEdge(fs, c) {
        assert fs[i].HasEdge(c);
      }
    }
    if a < b && CoversPoint(fs, a) && forall c :: a <= c < b ==> CoversEdge(fs, c) {
      SameStretchIffEdges(fs, a, b - 1);
      var i :| 0 <= i < |fs| && fs[i].Has(a) && fs[i].Has(b - 1);
      assert CoversEdge(fs, b - 1);
      var j :| 0 <= j < |fs| && fs[j].HasEdge(b - 1);
      assert i == j;
    }
  }

  /** A canonical list is determined by the points and edges it covers, so the merge does not
      depend on the order in which the sort leaves equal keys. */
  lemma {:induction false} CanonicalUnique(fs: Fragments, gs: Fragments)
    requires Canonical(fs) && Canonical(gs) && SameCover(fs, gs)
    ensures fs == gs
  {
    if fs == [] || gs == [] {
      if fs != [] {
        assert fs[0].Has(fs[0].first);
        assert CoversPoint(fs, fs[0].first);
      }
      if gs != [] {
        assert gs[0].Has(gs[0].first);
        assert CoversPoint(gs, gs[0].first);
      }
    } else {
      HeadNotLarger(fs, gs);
      HeadNotLarger(gs, fs);
      assert fs[0] == gs[0];
      forall c ensures CoversPoint(fs[1..], c) <==> CoversPoint(gs[1..], c) {
        TailCover(fs, c);
        TailCover(gs, c);
      }
      forall c ensures CoversEdge(fs[1..], c) <==> CoversEdge(gs[1..], c) {
        TailCover(fs, c);
        TailCover(gs, c);
      }
      CanonicalUnique(fs[1..], gs[1..]);
      assert fs == [fs[0]] + fs[1..] && gs == [gs[0]] + gs[1..];
    }
  }

  lemma NoEdgeAfterHead(fs: Fragments)
    requires fs != [] && Canonical(fs)
    ensures !CoversEdge(fs, fs[0].second)
  {
  }

  lemma HeadNotLarger(fs: Fragments, gs: Fragments)
    requires fs != [] && gs != [] && Canonical(fs) && Canonical(gs) && SameCover(fs, gs)
    ensures gs[0].first <= fs[0].first
    ensures fs[0].first == gs[0].first ==> fs[0].second <= gs[0].second
  {
    assert fs[0].Has(fs[0].first);
    assert CoversPoint(gs, fs[0].first);
    if fs[0].first == gs[0].first && gs[0].second < fs[0].second {
      NoEdgeAfterHead(gs);
      assert fs[0].HasEdge(gs[0].second);
    }
  }

  lemma TailCover(fs: Fragments, c: int)
    requires fs != [] && Canonical(fs)
    ensures CoversPoint(fs[1..], c) <==> CoversPoint(fs, c) && c > fs[0].second
    ensures CoversEdge(fs[1..], c) <==> CoversEdge(fs, c) && c > fs[0].second
  {
    if CoversPoint(fs[1..], c) {
      var i :| 0 <= i < |fs[1..]| && fs[1..][i].Has(c);
      assert fs[i + 1].Has(c);
    }
    if CoversPoint(fs, c) && c > fs[0].second {
      var i :| 0 <= i < |fs| && fs[i].Has(c);
      assert fs[1..][i - 1].Has(c);
    }
    if CoversEdge(fs[1..], c) {
      var i :| 0 <= i < |fs[1..]| && fs[1..][i].HasEdge(c);
      assert fs[i + 1].HasEdge(c);
    }
    if CoversEdge(fs, c) && c > fs[0].second {
      var i :| 0 <= i < |fs| && fs[i].HasEdge(c);
      assert fs[1..][i - 1].HasEdge(c);
    }
  }

  /* ---- the index of a road map ---- */

  /** A grid line, named by the coordinate it keeps fixed. */
  datatype Line = Line(at: int)

  /** The grid point at coordinate `c` of a horizontal (vertical) line. */
  function OnLine(horizontal: bool, line: Line, c: int): Point {
    if horizontal then Point(c, line.at) else Point(line.at, c)
  }

  /** Reference definition: a linear scan of the roads indexed with that orientation. */
  ghost predicate ScanPoint(roads: seq<Road>, horizontal: bool, line: Line, c: int) {
    exists r :: r in roads && r.IsHorizontal() == horizontal && r.Covers(OnLine(horizontal, line, c))
  }

  ghost predicate ScanEdge(roads: seq<Road>, horizontal: bool, line: Line, c: int) {
    exists r :: r in roads && r.IsHorizontal() == horizontal
      && r.Covers(OnLine(horizontal, line, c)) && r.Covers(OnLine(horizontal, line, c + 1))
  }

  /** Every unit edge between the two points of the line is on a scanned road. */
  ghost predicate ScanJoins(roads: seq<Road>, horizontal: bool, line: Line, c: int, d: int) {
    forall e :: Min(c, d) <= e < Max(c, d) ==> ScanEdge(roads, horizontal, line, e)
  }

  type Lines = map<Line, Fragments>

  predicate LineHas(lines: Lines, line: Line, c: int) { line in lines && CoversPoint(lines[line], c) }

  predicate LineHasEdge(lines: Lines, line: Line, c: int) { line in lines && CoversEdge(lines[line], c) }

  datatype Index = Index(horizontal: Lines, vertical: Lines) {
    function Lines(h: bool): Lines { if h then horizontal else vertical }

    ghost predicate WellFormed() {
      && (forall line :: line in horizontal ==> Canonical(horizontal[line]))
      && (forall line :: line in vertical ==> Canonical(vertical[line]))
    }
  }

  ghost predicate LinesMatch(lines: Lines, roads: seq<Road>, h: bool) {
    && (forall line :: line in lines ==> lines[line] != [] && Canonical(lines[line]))
    && (forall line, c :: LineHas(lines, line, c) <==> ScanPoint(roads, h, line, c))
    && (forall line, c :: LineHasEdge(lines, line, c) <==> ScanEdge(roads, h, line, c))
  }

  /** The index says about every point and every unit edge exactly what a scan of the roads says. */
  ghost predicate Represents(ix: Index, roads: seq<Road>) {
    LinesMatch(ix.horizontal, roads, true) && LinesMatch(ix.vertical, roads, false)
  }

  lemma LinesUnique(a: Lines, b: Lines, roads: seq<Road>, h: bool)
    requires LinesMatch(a, roads, h) && LinesMatch(b, roads, h)
    ensures a == b
  {
    LinesIncluded(a, b, roads, h);
    LinesIncluded(b, a, roads, h);
  }

  lemma LinesIncluded(a: Lines, b: Lines, roads: seq<Road>, h: bool)
    requires LinesMatch(a, roads, h) && LinesMatch(b, roads, h)
    ensures forall line :: line in a ==> line in b && a[line] == b[line]
  {
    forall line | line in a ensures line in b && a[line] == b[line] {
      assert a[line][0].Has(a[line][0].first);
      assert LineHas(a, line, a[line][0].first);
      assert LineHas(b, line, a[line][0].first);
      forall c
        ensures CoversPoint(a[line], c) <==> CoversPoint(b[line], c)
        ensures CoversEdge(a[line], c) <==> CoversEdge(b[line], c)
      {
        assert LineHas(a, line, c) <==> LineHas(b, line, c);
        assert LineHasEdge(a, line, c) <==> LineHasEdge(b, line, c);
      }
      CanonicalUnique(a[line], b[line]);
    }
  }

  /** A road map has one index only, whatever order its roads are listed in. */
  lemma IndexUnique(a: Index, b: Index, roads: seq<Road>, shuffled: seq<Road>)
    requires Represents(a, roads) && Represents(b, shuffled)
    requires multiset(roads) == multiset(shuffled)
    ensures a == b
  {
    forall r ensures r in roads <==> r in shuffled {
      assert r in multiset(roads) <==> r in multiset(shuffled);
    }
    forall h, line, c
      ensures ScanPoint(roads, h, line, c) <==> ScanPoint(shuffled, h, line, c)
      ensures ScanEdge(roads, h, line, c) <==> ScanEdge(shuffled, h, line, c)
    {
    }
    LinesUnique(a.horizontal, b.horizontal, roads, true);
    LinesUnique(a.vertical, b.vertical, roads, false);
  }

  function FragmentOf(r: Road): (f: Fragment)
    ensures f.first <= f.second
  {
    var n := r.Normalized();
    if r.IsHorizontal() then Fragment(n.start.x, n.end.x) else Fragment(n.start.y, n.end.y)
  }

  function LineOf(r: Road): Line { if r.IsHorizontal() then Line(r.start.y) else Line(r.start.x) }

  /** The fragments that the roads leave on one line, in road order. */
  function Laid(roads: seq<Road>, h: bool, line: Line): (fs: Fragments)
    ensures Proper(fs)
  {
    if roads == [] then []
    else
      var r := roads[|roads| - 1];
      Laid(roads[..|roads| - 1], h, line)
        + (if r.IsHorizontal() == h && LineOf(r) == line then [FragmentOf(r)] else [])
  }

  lemma ScanSnoc(init: seq<Road>, r: Road, h: bool, line: Line, c: int)
    ensures ScanPoint(init + [r], h, line, c) <==>
      ScanPoint(init, h, line, c) || (r.IsHorizontal() == h && r.Covers(OnLine(h, line, c)))
    ensures ScanEdge(init + [r], h, line, c) <==>
      ScanEdge(init, h, line, c)
      || (r.IsHorizontal() == h && r.Covers(OnLine(h, line, c)) && r.Covers(OnLine(h, line, c + 1)))
  {
    var roads := init + [r];
    assert forall q :: q in roads <==> q in init || q == r;
  }

  lemma FragmentCovers(r: Road, h: bool, line: Line, c: int)
    requires r.IsHorizontal() == h
    ensures LineOf(r) == line && FragmentOf(r).Has(c) <==> r.Covers(OnLine(h, line, c))
    ensures LineOf(r) == line && FragmentOf(r).HasEdge(c) <==>
      r.Covers(OnLine(h, line, c)) && r.Covers(OnLine(h, line, c + 1))
  {
  }

  lemma {:induction false} LaidIsScan(roads: seq<Road>, h: bool, line: Line, c: int)
    ensures CoversPoint(Laid(roads, h, line), c) <==> ScanPoint(roads, h, line, c)
    ensures CoversEdge(Laid(roads, h, line), c) <==> ScanEdge(roads, h, line, c)
  {
    if roads != [] {
      var init, r := roads[..|roads| - 1], roads[|roads| - 1];
      assert roads == init + [r];
      LaidIsScan(init, h, line, c);
      ScanSnoc(init, r, h, line, c);
      if r.IsHorizontal() == h {
        FragmentCovers(r, h, line, c);
      }
      AppendCover(Laid(init, h, line), FragmentOf(r), c);
      assert Laid(init, h, line) + [] == Laid(init, h, line);
    }
  }

  /** The linear lookup that the binary search refines. */
  function FragmentAt(fs: Fragments, c: int): (r: Option<Fragment>)
    ensures r.Some? ==> r.value in fs && r.value.Has(c)
    ensures r.None? <==> !CoversPoint(fs, c)
  {
    if fs == [] then None
    else if fs[0].Has(c) then Some(fs[0])
    else
      var r := FragmentAt(fs[1..], c);
      assert forall i :: 1 <= i < |fs| ==> fs[i] == fs[1..][i - 1];
      r
  }

  lemma {:induction false} FragmentAtUnique(fs: Fragments, i: nat, c: int)
    requires Canonical(fs) && i < |fs| && fs[i].Has(c)
    ensures FragmentAt(fs, c) == Some(fs[i])
  {
    assert CoversPoint(fs, c);
    var f := FragmentAt(fs, c).value;
    var j :| 0 <= j < |fs| && fs[j] == f;
    assert i == j;
  }

  function LineLookup(lines: Lines, line: Line, c: int): (r: Option<Fragment>) {
    if line in lines then FragmentAt(lines[line], c) else None
  }

  datatype RoadsAt = RoadsAt(horizontal: Option<Road>, vertical: Option<Road>)

  function HorizontalRoad(y: int, f: Fragment): Road { Segment(Point(f.first, y), Point(f.second, y)) }

  function VerticalRoad(x: int, f: Fragment): Road { Segment(Point(x, f.first), Point(x, f.second)) }

  function Lookup(ix: Index, pt: Point): RoadsAt {
    RoadsAt(
      match LineLookup(ix.horizontal, Line(pt.y), pt.x)
      case Some(f) => Some(HorizontalRoad(pt.y, f))
      case None => None,
      match LineLookup(ix.vertical, Line(pt.x), pt.y)
      case Some(f) => Some(VerticalRoad(pt.x, f))
      case None => None)
  }

  /** Both answers of the index at once: a stretch is found iff the scan finds a road there, and
      the stretch holds exactly the points joined to the query by edges of scanned roads. */
  lemma LineLookupIsScan(lines: Lines, roads: seq<Road>, h: bool, line: Line, c: int)
    requires LinesMatch(lines, roads, h)
    ensures LineLookup(lines, line, c).Some? <==> ScanPoint(roads, h, line, c)
    ensures LineLookup(lines, line, c).Some? ==> forall d ::
      (LineLookup(lines, line, c).value.Has(d) <==> ScanJoins(roads, h, line, c, d))
  {
    assert LineHas(lines, line, c) <==> ScanPoint(roads, h, line, c);
    if LineLookup(lines, line, c).Some? {
      var fs := lines[line];
      var f := FragmentAt(fs, c).value;
      var i :| 0 <= i < |fs| && fs[i] == f;
      forall d ensures f.Has(d) <==> ScanJoins(roads, h, line, c, d) {
        forall e ensures CoversEdge(fs, e) <==> ScanEdge(roads, h, line, e) {
          assert LineHasEdge(lines, line, e) <==> ScanEdge(roads, h, line, e);
        }
        EdgesFrom(fs, i, c, d);
      }
    }
  }

  /** From any point of a stretch, in either direction: the stretch goes as far as the edges go. */
  lemma {:induction false} EdgesFrom(fs: Fragments, i: nat, c: int, d: int)
    requires Canonical(fs) && i < |fs| && fs[i].Has(c)
    ensures fs[i].Has(d) <==> forall e :: Min(c, d) <= e < Max(c, d) ==> CoversEdge(fs, e)
    decreases if d > c then d - c else c - d
  {
    if fs[i].Has(d) {
      forall e | Min(c, d) <= e < Max(c, d) ensures CoversEdge(fs, e) {
        assert fs[i].HasEdge(e);
      }
    } else if forall e :: Min(c, d) <= e < Max(c, d) ==> CoversEdge(fs, e) {
      var near := if d > c then d - 1 else d + 1;
      EdgesFrom(fs, i, c, near);
      assert CoversEdge(fs, Min(near, d));
      var j :| 0 <= j < |fs| && fs[j].HasEdge(Min(near, d));
      assert fs[i].Has(near) && fs[j].Has(near) && fs[j].Has(d);
    }
  }

  /** `GetRoadsAtPoint` agrees with a linear scan of the roads. */
  lemma IndexAgreesWithScan(ix: Index, roads: seq<Road>, pt: Point)
    requires Represents(ix, roads)
    ensures Lookup(ix, pt).horizontal.Some? <==>
      exists r :: r in roads && r.IsHorizontal() && r.Covers(pt)
    ensures Lookup(ix, pt).vertical.Some? <==>
      exists r :: r in roads && !r.IsHorizontal() && r.Covers(pt)
    ensures Lookup(ix, pt).horizontal.Some? || Lookup(ix, pt).vertical.Some? <==> OnSomeRoad(roads, pt)
  {
    LineLookupIsScan(ix.horizontal, roads, true, Line(pt.y), pt.x);
    LineLookupIsScan(ix.vertical, roads, false, Line(pt.x), pt.y);
  }

  /* ---- binary search (std::equal_range with its two comparisons) ---- */

  method LowerBound(fs: Fragments, c: int) returns (k: nat)
    requires Canonical(fs)
    ensures k <= |fs|
    ensures forall i :: 0 <= i < k ==> fs[i].second < c
    ensures forall i :: k <= i < |fs| ==> !(fs[i].second < c)
  {
    var lo, hi := 0, |fs|;
    while lo < hi
      invariant 0 <= lo <= hi <= |fs|
      invariant forall i :: 0 <= i < lo ==> fs[i].second < c
      invariant forall i :: hi <= i < |fs| ==> !(fs[i].second < c)
    {
      var mid := (lo + hi) / 2;
      if fs[mid].second < c { lo := mid + 1; } else { hi := mid; }
    }
    k := lo;
  }

  method UpperBound(fs: Fragments, c: int) returns (k: nat)
    requires Canonical(fs)
    ensures k <= |fs|
    ensures forall i :: 0 <= i < k ==> !(c < fs[i].first)
    ensures forall i :: k <= i < |fs| ==> c < fs[i].first
  {
    var lo, hi := 0, |fs|;
    while lo < hi
      invariant 0 <= lo <= hi <= |fs|
      invariant forall i :: 0 <= i < lo ==> !(c < fs[i].first)
      invariant forall i :: hi <= i < |fs| ==> c < fs[i].first
    {
      var mid := (lo + hi) / 2;
      if c < fs[mid].first { hi := mid; } else { lo := mid + 1; }
    }
    k := lo;
  }

  /** The range has length 0 or 1, and its only element is the stretch that holds `c`. */
  method EqualRange(fs: Fragments, c: int) returns (lo: nat, hi: nat)
    requires Canonical(fs)
    ensures lo <= hi <= |fs| && hi - lo <= 1
    ensures lo != hi <==> CoversPoint(fs, c)
    ensures lo != hi ==> fs[lo].Has(c) && FragmentAt(fs, c) == Some(fs[lo])
  {
    lo := LowerBound(fs, c);
    hi := UpperBound(fs, c);
    if 0 < lo {
      assert fs[lo - 1].first <= fs[lo - 1].second < c;
    }
    if lo + 1 < |fs| {
      assert c <= fs[lo].second < fs[lo + 1].first;
    }
    if lo < hi {
      assert fs[lo].Has(c);
      FragmentAtUnique(fs, lo, c);
    }
  }

  ghost predicate IsMergeOf(merged: Fragments, fs: Fragments) {
    merged != [] && Canonical(merged) && SameCover(merged, fs)
  }

  ghost predicate Gathered(raw: Lines, roads: seq<Road>, h: bool) {
    && (forall line :: line in raw <==> Laid(roads, h, line) != [])
    && (forall line :: line in raw ==> raw[line] == Laid(roads, h, line))
  }

  /** One more road on its line. */
  function Filed(raw: Lines, r: Road, h: bool): Lines {
    if r.IsHorizontal() != h then raw
    else raw[LineOf(r) := (if LineOf(r) in raw then raw[LineOf(r)] else []) + [FragmentOf(r)]]
  }

  lemma {:induction false} LaidSnoc(roads: seq<Road>, i: nat, h: bool, line: Line)
    requires i < |roads|
    ensures Laid(roads[..i + 1], h, line) == Laid(roads[..i], h, line) +
      (if roads[i].IsHorizontal() == h && LineOf(roads[i]) == line then [FragmentOf(roads[i])] else [])
  {
    assert roads[..i + 1][..i] == roads[..i];
  }

  lemma GatherStep(raw: Lines, roads: seq<Road>, i: nat, h: bool)
    requires i < |roads| && Gathered(raw, roads[..i], h)
    ensures Gathered(Filed(raw, roads[i], h), roads[..i + 1], h)
  {
    forall line
      ensures line in Filed(raw, roads[i], h) <==> Laid(roads[..i + 1], h, line) != []
      ensures line in Filed(raw, roads[i], h) ==> Filed(raw, roads[i], h)[line] == Laid(roads[..i + 1], h, line)
    {
      LaidSnoc(roads, i, h, line);
    }
  }

  lemma LaidLinesMatch(raw: Lines, lines: Lines, roads: seq<Road>, h: bool)
    requires Gathered(raw, roads, h)
    requires lines.Keys == raw.Keys
    requires forall line :: line in raw ==> IsMergeOf(lines[line], raw[line])
    ensures LinesMatch(lines, roads, h)
  {
    forall line, c
      ensures LineHas(lines, line, c) <==> ScanPoint(roads, h, line, c)
      ensures LineHasEdge(lines, line, c) <==> ScanEdge(roads, h, line, c)
    {
      LaidIsScan(roads, h, line, c);
      if line !in raw {
        assert Laid(roads, h, line) == [];
      } else {
        assert CoversPoint(lines[line], c) <==> CoversPoint(raw[line], c);
        assert CoversEdge(lines[line], c) <==> CoversEdge(raw[line], c);
      }
    }
  }

  function UsedLines(roads: seq<Road>, h: bool): set<Line> {
    set r | r in roads && r.IsHorizontal() == h :: LineOf(r)
  }

  /** The road map of one orientation: the stretches on each line that a road lies on. */
  function LinesOf(roads: seq<Road>, h: bool): (lines: Lines)
    ensures LinesMatch(lines, roads, h)
  {
    var raw := map line | line in UsedLines(roads, h) :: Laid(roads, h, line);
    LaidIfUsed(roads, h);
    var lines := map line | line in raw :: MergedCopy(raw[line]);
    LaidLinesMatch(raw, lines, roads, h);
    lines
  }

  function MergedCopy(fs: Fragments): (r: Fragments)
    requires fs != [] && Proper(fs)
    ensures IsMergeOf(r, fs)
  {
    var s := SortedFragments(fs);
    PermutationSameCover(s, fs);
    MergedIsExact(s);
    Merged(s)
  }

  lemma {:induction false} LaidIfUsed(roads: seq<Road>, h: bool)
    ensures forall line :: line in UsedLines(roads, h) <==> Laid(roads, h, line) != []
  {
    if roads != [] {
      LaidIfUsed(roads[..|roads| - 1], h);
      assert roads == roads[..|roads| - 1] + [roads[|roads| - 1]];
    }
  }

  /** The one index of a road map. */
  function IndexOf(roads: seq<Road>): (ix: Index)
    ensures Represents(ix, roads)
  {
    Index(LinesOf(roads, true), LinesOf(roads, false))
  }

  class RoadIndex {
    var horizontalRoads: Lines
    var verticalRoads: Lines

    ghost function Value(): Index
      reads this
    {
      Index(horizontalRoads, verticalRoads)
    }

    constructor (roads: seq<Road>)
      ensures Represents(Value(), roads) && Value() == IndexOf(roads)
    {
      var h, v := Gather(roads);
      ghost var rawH, rawV := h, v;
      h := MergeFragments(h);
      v := MergeFragments(v);
      LaidLinesMatch(rawH, h, roads, true);
      LaidLinesMatch(rawV, v, roads, false);
      horizontalRoads := h;
      verticalRoads := v;
      IndexUnique(Index(h, v), IndexOf(roads), roads, roads);
    }

    /** The loop that files every road under its line. */
    static method Gather(roads: seq<Road>) returns (h: Lines, v: Lines)
      ensures Gathered(h, roads, true) && Gathered(v, roads, false)
    {
      h, v := map[], map[];
      for i := 0 to |roads|
        invariant Gathered(h, roads[..i], true) && Gathered(v, roads[..i], false)
      {
        var r := roads[i];
        GatherStep(h, roads, i, true);
        GatherStep(v, roads, i, false);
        var n := r.Normalized();
        if r.IsHorizontal() {
          var line := Line(r.start.y);
          h := h[line := (if line in h then h[line] else []) + [Fragment(n.start.x, n.end.x)]];
        } else {
          var line := Line(r.start.x);
          v := v[line := (if line in v then v[line] else []) + [Fragment(n.start.y, n.end.y)]];
        }
      }
      assert roads[..|roads|] == roads;
    }

    static method MergeFragments(lines: Lines) returns (merged: Lines)
      requires forall line :: line in lines ==> lines[line] != [] && Proper(lines[line])
      ensures merged.Keys == lines.Keys
      ensures forall line :: line in lines ==> IsMergeOf(merged[line], lines[line])
    {
      merged := lines;
      var todo := lines.Keys;
      while todo != {}
        invariant todo <= lines.Keys && merged.Keys == lines.Keys
        invariant forall line :: line in todo ==> merged[line] == lines[line]
        invariant forall line :: line in lines && line !in todo ==>
          IsMergeOf(merged[line], lines[line])
        decreases todo
      {
        var line :| line in todo;
        var fs := merged[line];
        var a := new Fragment[|fs|](i requires 0 <= i < |fs| => fs[i]);
        assert a[..] == fs;
        SortFragments(a);
        PermutationSameCover(a[..], fs);
        var n := CompactFragments(a);
        merged := merged[line := a[..n]];
        todo := todo - {line};
      }
    }

    method GetRoadsAtPoint(pt: Point) returns (r: RoadsAt)
      requires Value().WellFormed()
      ensures r == Lookup(Value(), pt)
    {
      var h, v: Option<Road> := None, None;
      if Line(pt.y) in horizontalRoads {
        var fs := horizontalRoads[Line(pt.y)];
        var lo, hi := EqualRange(fs, pt.x);
        if lo != hi {
          h := Some(HorizontalRoad(pt.y, fs[lo]));
        }
      }
      if Line(pt.x) in verticalRoads {
        var fs := verticalRoads[Line(pt.x)];
        var lo, hi := EqualRange(fs, pt.y);
        if lo != hi {
          v := Some(VerticalRoad(pt.x, fs[lo]));
        }
      }
      r := RoadsAt(h, v);
    }
  }
}
