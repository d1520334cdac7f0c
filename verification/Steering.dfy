/** Where a command leads: the dog goes where it looks, and leaves a cell through the open side of its tile. */
module Steerings {
  import opened Wrappers
  import opened Geometry
  import opened RoadIndices
  import opened Movement
  import opened Tiles
  import opened CollisionDetector
  import opened Dogs
  import opened Walks

  /** A point so far ahead of another, on a screen whose rows are counted downwards. */
  function Toward(to: Direction, p: Vec, far: real): Vec {
    match to
    case North => Vec(p.x, p.y - far)
    case East => Vec(p.x + far, p.y)
    case West => Vec(p.x - far, p.y)
    case South => Vec(p.x, p.y + far)
    case Stop => p
  }

  /** The same for cells: in the row or column, on that side. */
  predicate Beyond(to: Direction, from: Point, cell: Point) {
    match to
    case North => cell.x == from.x && cell.y < from.y
    case East => cell.y == from.y && cell.x > from.x
    case West => cell.y == from.y && cell.x < from.x
    case South => cell.x == from.x && cell.y > from.y
    case Stop => false
  }

  /** The side of a tile that lies this way. */
  predicate OpenTo(to: Direction, t: Tile) {
    match to
    case North => t.u
    case East => t.r
    case West => t.l
    case South => t.d
    case Stop => false
  }

  /** A dog that has been given this command, after a tick. */
  function Sent(ix: Index, d: DogState, to: Direction, v: real, t: int): DogState {
    Moved(ix, Commanded(d, Some(to), v), t)
  }

  /** The step of a body sent this way, from an offset along its axis. */
  predicate Heads(to: Direction, b: Body, v: real, m: Body, far: real) {
    && far >= 0.0 && m.pos == Toward(to, b.pos, far)
    && (m.speed == ZERO || m.speed == Toward(to, ZERO, v))
  }

  lemma ByOffset(ix: Index, to: Direction, b: Body, v: real, o: Vec, step: real) returns (far: real)
    requires to != Stop && v > 0.0 && step >= 0.0 && o == Toward(to, ZERO, step)
    requires b.speed == DirectionToSpeed(to, v)
    ensures Heads(to, b, v, MoveBy(ix, b, o), far)
  {
    var m := MoveBy(ix, b, o);
    match to
    case North => far := b.pos.y - m.pos.y;
    case East => far := m.pos.x - b.pos.x;
    case West => far := b.pos.x - m.pos.x;
    case South => far := m.pos.y - b.pos.y;
  }

  lemma CommandedOffset(to: Direction, v: real, t: nat) returns (step: real)
    requires to != Stop && v > 0.0
    ensures step >= 0.0 && Offset(DirectionToSpeed(to, v), t) == Toward(to, ZERO, step)
  {
    step := v * Seconds(t);
    TimeSign(v, t);
    assert -v * Seconds(t) == -(v * Seconds(t));
    ZeroSpeed(t);
  }

  lemma SentHeads(ix: Index, d: DogState, to: Direction, v: real, t: nat) returns (far: real)
    requires to != Stop && v > 0.0
    ensures var m := Sent(ix, d, to, v, t);
      Heads(to, d.body, v, m.body, far) && m.direction == to && m.gatherer == GathererAt(to, m.body.pos, d.gatherer)
  {
    var b := Commanded(d, Some(to), v).body;
    var step := CommandedOffset(to, v, t);
    far := ByOffset(ix, to, b, v, Offset(b.speed, t), step);
  }

  lemma LookIs(to: Direction, pos: Vec, g: Gatherer)
    requires to != Stop && g.start == GathererAt(to, pos, g).start && g.end == pos
    ensures Minus(g.start, g.end) == Toward(to, ZERO, 0.5)
  {
  }

  lemma Along2(to: Direction, look: Vec, far: real, p: Vec, q: Vec)
    requires to != Stop && look == Toward(to, ZERO, 0.5) && q == Toward(to, p, far)
    ensures q == Vec(p.x + 2.0 * far * look.x, p.y + 2.0 * far * look.y)
  {
  }

  lemma LengthOfToward(to: Direction, v: real, u: Vec)
    requires to != Stop && u == Toward(to, ZERO, v)
    ensures Dot(u, u) == v * v
  {
    assert Times(v, v) == v * v && Times(-v, -v) == v * v;
  }

  /** The same step, told by where the gatherer points. */
  predicate FollowsLook(from: Vec, v: real, m: Body, look: Vec, far: real) {
    && m.pos == Vec(from.x + 2.0 * far * look.x, from.y + 2.0 * far * look.y)
    && (m.speed != ZERO ==> m.speed == Vec(2.0 * v * look.x, 2.0 * v * look.y) && Dot(m.speed, m.speed) == v * v)
  }

  lemma HeadsFollow(to: Direction, b: Body, v: real, m: Body, look: Vec, far: real)
    requires to != Stop && v > 0.0 && Heads(to, b, v, m, far) && look == Toward(to, ZERO, 0.5)
    ensures Dot(look, look) == 0.25 && FollowsLook(b.pos, v, m, look, far)
  {
    LengthOfToward(to, 0.5, look);
    Along2(to, look, far, b.pos, m.pos);
    if m.speed != ZERO {
      Along2(to, look, v, ZERO, m.speed);
      LengthOfToward(to, v, m.speed);
    }
  }

  /** A dog goes where it looks: for any direction, speed and road map it covers some distance along the line from
      itself to the far end of its gatherer, and unless something has stopped it, it is on its way along that line
      at the speed of the map's dogs. */
  lemma GoesWhereItLooks(ix: Index, d: DogState, to: Direction, v: real, t: nat) returns (far: real)
    requires to != Stop && v > 0.0
    ensures var m := Sent(ix, d, to, v, t); var look := Minus(m.gatherer.start, m.gatherer.end);
      && far >= 0.0 && m.gatherer.end == m.body.pos && Dot(look, look) == 0.25
      && FollowsLook(d.body.pos, v, m.body, look, far)
  {
    far := SentHeads(ix, d, to, v, t);
    var m := Sent(ix, d, to, v, t);
    LookIs(to, m.body.pos, m.gatherer);
    HeadsFollow(to, d.body, v, m.body, Minus(m.gatherer.start, m.gatherer.end), far);
  }

  /** A command to stop, or none, leaves the dog where it is. */
  lemma Halts(ix: Index, d: DogState, direction: Option<Direction>, v: real, t: int)
    requires direction == None || direction == Some(Stop)
    ensures Moved(ix, Commanded(d, direction, v), t).body == Body(d.body.pos, ZERO)
  {
    var b := Commanded(d, direction, v).body;
    OffsetOf(b.speed, t);
    MoveAlongRow(ix, b, 0.0);
  }

  lemma CellsToward(to: Direction, p: Vec, far: real)
    requires far >= 0.0 && CellOf(Toward(to, p, far)) != CellOf(p)
    ensures Beyond(to, CellOf(p), CellOf(Toward(to, p, far)))
  {
    var q := Toward(to, p, far);
    match to
    case North => RoundMonotone(q.y, p.y);
    case East => RoundMonotone(p.x, q.x);
    case West => RoundMonotone(q.x, p.x);
    case South => RoundMonotone(p.y, q.y);
    case Stop =>
  }

  lemma JoinedOpens(roads: seq<Road>, to: Direction, a: Point, b: Point)
    requires JoinedByTiles(roads, a, b) && Beyond(to, a, b)
    ensures OpenTo(to, TileAt(roads, a))
  {
    match to
    case North => assert TileAt(roads, Point(a.x, a.y - 1)).d;
    case East => assert TileAt(roads, Point(a.x, a.y)).r;
    case West => assert TileAt(roads, Point(a.x - 1, a.y)).r;
    case South => assert TileAt(roads, Point(a.x, a.y)).d;
    case Stop =>
  }

  /** A dog that has been sent a way and changes its cell has left the cell through the side of the tile that lies
      this way, into the row or column beyond it. */
  lemma LeavesByItsSide(ix: Index, roads: seq<Road>, d: DogState, to: Direction, v: real, t: nat)
    requires Represents(ix, roads) && to != Stop && v > 0.0
    ensures var (from, cell) := (CellOf(d.body.pos), CellOf(Sent(ix, d, to, v, t).body.pos));
      from != cell ==> Beyond(to, from, cell) && OpenTo(to, TileAt(roads, from))
  {
    var far := SentHeads(ix, d, to, v, t);
    var b := Commanded(d, Some(to), v).body;
    MovesFollowTiles(ix, roads, b, t);
    var from, cell := CellOf(d.body.pos), CellOf(Sent(ix, d, to, v, t).body.pos);
    if from != cell {
      CellsToward(to, d.body.pos, far);
      JoinedOpens(roads, to, from, cell);
    }
  }

  /** The side of a tile that an action names. */
  predicate NamedSide(action: MoveAction, t: Tile) {
    match action
    case MoveLeft => t.l
    case MoveRight => t.r
    case MoveUp => t.u
    case MoveDown => t.d
    case _ => false
  }

  /** A player who asks for a way and whose dog then changes its cell has sent it through the side of the tile that the
      client shows on that way; who asks for none stays. */
  lemma ActionOpensSide(ix: Index, roads: seq<Road>, d: DogState, action: MoveAction, v: real, t: nat)
    requires Represents(ix, roads) && v > 0.0
    ensures match MoveActionToDirection(action)
      case Ok(direction) =>
        var (from, cell) := (CellOf(d.body.pos), CellOf(Moved(ix, Commanded(d, direction, v), t).body.pos));
        from != cell ==> NamedSide(action, TileAt(roads, from))
      case Err(_) => action == Invalid
  {
    match MoveActionToDirection(action)
    case Ok(direction) =>
      if direction.Some? {
        LeavesByItsSide(ix, roads, d, direction.value, v, t);
      } else {
        Halts(ix, d, direction, v, t);
      }
    case Err(_) =>
  }

  /* ---- one cell on ---- */

  /** From the middle of its cell a dog gets one cell on and is still on its way if the side is open, and to the edge
      of the road and no further if not. */
  predicate CellOn(to: Direction, open: bool, p: Vec, v: real, m: Body) {
    if open then m == Body(Toward(to, p, 1.0), Toward(to, ZERO, v)) else m == Body(Toward(to, p, 0.4), ZERO)
  }

  lemma StretchOpens(roads: seq<Road>, h: bool, line: Line, c: int, f: Fragment)
    requires Stretch(roads, h, line, c, f.first, f.second)
    ensures ScanEdge(roads, h, line, c) <==> c < f.second
    ensures ScanEdge(roads, h, line, c - 1) <==> f.first < c
  {
  }

  lemma RowOn(b: Body, t: nat, v: real, to: Direction, c: int, f: Fragment, m: Body)
    requires to == East || to == West
    requires b.pos.x == c as real && b.speed == Toward(to, ZERO, v) && v > 0.0 && v * (t as real / 1000.0) == 1.0
    requires f.Has(c) && RowEnd(b, t, f, m)
    ensures CellOn(to, if to == East then c < f.second else f.first < c, b.pos, v, m)
  {
    assert -v * (t as real / 1000.0) == -(v * (t as real / 1000.0));
  }

  lemma ColumnOn(b: Body, t: nat, v: real, to: Direction, c: int, f: Fragment, m: Body)
    requires to == South || to == North
    requires b.pos.y == c as real && b.speed == Toward(to, ZERO, v) && v > 0.0 && v * (t as real / 1000.0) == 1.0
    requires f.Has(c) && ColumnEnd(b, t, f, m)
    ensures CellOn(to, if to == South then c < f.second else f.first < c, b.pos, v, m)
  {
    assert -v * (t as real / 1000.0) == -(v * (t as real / 1000.0));
  }

  /** In the time for one cell, a dog sent off from the middle of a cell walks to the middle of the next one iff the
      tile is open on that side; else it stops at the edge of the road. */
  lemma WalksIffOpen(ix: Index, roads: seq<Road>, d: DogState, to: Direction, v: real, t: nat, cell: Point)
    requires Represents(ix, roads) && OnSomeRoad(roads, cell) && to != Stop
    requires d.body.pos == Vec(cell.x as real, cell.y as real) && v > 0.0 && v * (t as real / 1000.0) == 1.0
    ensures CellOn(to, OpenTo(to, TileAt(roads, cell)), d.body.pos, v, Sent(ix, d, to, v, t).body)
  {
    var b := Commanded(d, Some(to), v).body;
    RoundNear(b.pos.x, cell.x);
    RoundNear(b.pos.y, cell.y);
    var m := MoveBody(ix, b, t);
    if to == East || to == West {
      SpanIsStretch(ix, roads, cell);
      var f := SpanX(ix, cell).value;
      StretchOpens(roads, true, Line(cell.y), cell.x, f);
      RowWalk(ix, roads, b, t, f.first, f.second);
      RowOn(b, t, v, to, cell.x, f, m);
    } else {
      SwappedIsStretch(ix, roads, cell);
      var f := SpanX(SwapIndex(ix), Point(cell.y, cell.x)).value;
      StretchOpens(roads, false, Line(cell.x), cell.y, f);
      ColumnWalk(ix, roads, b, t, f.first, f.second);
      ColumnOn(b, t, v, to, cell.y, f, m);
    }
  }
}
