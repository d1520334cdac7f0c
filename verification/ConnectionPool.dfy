/** The database connection pool: a mutex, a condition variable and a vector of connections. */
module ConnectionPools {
  import opened Wrappers
  import opened MapSums

  datatype Vector = Vector(slots: seq<Option<nat>>, used: nat)

  /** The vector of connections and `used_connections_`; a slot that was moved out is empty. */
  type Pool = p: Vector | p.used <= |p.slots| witness Vector([], 0)

  predicate HasFree(p: Pool) { p.used < |p.slots| }

  /** `GetConnection` once a connection is free. */
  function Take(p: Pool): (Option<nat>, Pool)
    requires HasFree(p)
  {
    (p.slots[p.used], Vector(p.slots[p.used := None], p.used + 1))
  }

  /** `ReturnConnection` under its lock. */
  function Put(p: Pool, conn: nat): Result<Pool, string> {
    if p.used == 0 then Result<Pool, string>.Err("Returned database connection but used zero connections.")
    else Result<Pool, string>.Ok(Vector(p.slots[p.used - 1 := Some(conn)], p.used - 1))
  }

  function FreshPool(conns: seq<nat>): Pool {
    Vector(seq(|conns|, i requires 0 <= i < |conns| => Some(conns[i])), 0)
  }

  class ConnectionPool {
    var slots: array<Option<nat>>
    var used: nat

    ghost predicate Valid()
      reads this
    {
      used <= slots.Length
    }

    ghost function Value(): Pool
      reads this, slots
      requires Valid()
    {
      Vector(slots[..], used)
    }

    /** `conns` are what the factory returns, in order. */
    constructor (conns: seq<nat>)
      ensures Valid() && fresh(slots) && Value() == FreshPool(conns)
    {
      slots := new Option<nat>[|conns|];
      used := 0;
      new;
      for i := 0 to |conns|
        invariant slots.Length == |conns| && fresh(slots) && used == 0
        invariant forall j :: 0 <= j < i ==> slots[j] == Some(conns[j])
      {
        slots[i] := Some(conns[i]);
      }
    }

    /** One pass of the wait loop of `GetConnection`, under the lock: nothing if the thread must wait. */
    method TryTake() returns (r: Option<Option<nat>>)
      requires Valid()
      modifies this, slots
      ensures Valid() && slots == old(slots)
      ensures r.Some? <==> HasFree(old(Value()))
      ensures r.Some? ==> (r.value, Value()) == Take(old(Value()))
      ensures r.None? ==> Value() == old(Value())
    {
      if used < slots.Length {
        r := Some(slots[used]);
        slots[used] := None;
        used := used + 1;
      } else {
        r := None;
      }
    }

    method ReturnConnection(conn: nat) returns (r: Result<(), string>)
      requires Valid()
      modifies this, slots
      ensures Valid() && slots == old(slots)
      ensures r.Ok? ==> Put(old(Value()), conn) == Ok(Value())
      ensures r.Err? ==> Put(old(Value()), conn) == Err(r.error) && Value() == old(Value())
    {
      if used == 0 {
        return Err("Returned database connection but used zero connections.");
      }
      used := used - 1;
      slots[used] := Some(conn);
      r := Ok(());
    }
  }

  /* ---- the protocol ---- */

  /** Where a thread is in one use of a connection. */
  datatype Phase =
    | Idle
    | Asleep
    | Woken
    | Holding(conn: Option<nat>)
    | Notifying

  /** `thrown`: a destructor threw, which ends the program. */
  datatype State = State(pool: Pool, threads: map<nat, Phase>, thrown: bool)

  /** One step of one thread. Each test of the wait condition and each return is one critical section. */
  datatype Step =
    | Enter(thread: nat)
    | Retry(thread: nat)
    | Wake(thread: nat)
    | Release(thread: nat)
    | Notify(thread: nat, woken: Option<nat>)

  predicate Is(s: State, t: nat, phase: Phase) { t in s.threads && s.threads[t] == phase }

  predicate SomeAsleep(s: State) { exists t :: t in s.threads && s.threads[t].Asleep? }

  /** Lock, test, and take or sleep. */
  function Tested(s: State, t: nat): State {
    if HasFree(s.pool) then
      var (conn, pool) := Take(s.pool);
      State(pool, s.threads[t := Holding(conn)], s.thrown)
    else s.(threads := s.threads[t := Asleep])
  }

  /** The destructor of the wrapper, up to the end of the lock. */
  function Released(s: State, t: nat, conn: Option<nat>): State {
    match conn
    case None => s.(threads := s.threads[t := Idle])
    case Some(c) =>
      match Put(s.pool, c)
      case Ok(pool) => State(pool, s.threads[t := Notifying], s.thrown)
      case Err(_) => s.(thrown := true)
  }

  /** The state after a step, if the step can happen. `notify_one` must wake a sleeper if there is one. */
  function Apply(s: State, step: Step): Option<State> {
    if s.thrown then None
    else
      match step
      case Enter(t) => if Is(s, t, Idle) then Some(Tested(s, t)) else None
      case Retry(t) => if Is(s, t, Woken) then Some(Tested(s, t)) else None
      case Wake(t) => if Is(s, t, Asleep) then Some(s.(threads := s.threads[t := Woken])) else None
      case Release(t) =>
        if t in s.threads && s.threads[t].Holding? then Some(Released(s, t, s.threads[t].conn)) else None
      case Notify(t, woken) =>
        if !Is(s, t, Notifying) then None
        else
          match woken
          case Some(u) => if Is(s, u, Asleep) then Some(s.(threads := s.threads[t := Idle][u := Woken])) else None
          case None => if SomeAsleep(s) then None else Some(s.(threads := s.threads[t := Idle]))
  }

  /* ---- ownership ---- */

  predicate InPool(s: State, c: nat) { exists i :: s.pool.used <= i < |s.pool.slots| && s.pool.slots[i] == Some(c) }

  predicate InHand(s: State, c: nat) { exists t :: t in s.threads && s.threads[t] == Holding(Some(c)) }

  /** Slots below `used` are empty, the rest full and different. */
  predicate SlotsOk(p: Pool) {
    && (forall i :: 0 <= i < p.used ==> p.slots[i].None?)
    && (forall i :: p.used <= i < |p.slots| ==> p.slots[i].Some?)
    && (forall i, j :: p.used <= i < j < |p.slots| ==> p.slots[i] != p.slots[j])
  }

  function Holders(s: State): set<nat> { set t | t in s.threads && s.threads[t].Holding? }

  function Actors(s: State): set<nat> { set t | t in s.threads && (s.threads[t].Woken? || s.threads[t].Notifying?) }

  function FreeCount(s: State): int { |s.pool.slots| - s.pool.used }

  /** Every connection of the initial set is in one place: a full slot or one holder's hand. */
  ghost predicate Owned(s: State, conns: set<nat>) {
    && SlotsOk(s.pool)
    && (forall t :: t in s.threads && s.threads[t].Holding? ==> s.threads[t].conn.Some?)
    && (forall t, u :: t in s.threads && u in s.threads && s.threads[t].Holding? && s.threads[u].Holding? && t != u ==>
          s.threads[t].conn != s.threads[u].conn)
    && (forall c: nat :: !(InPool(s, c) && InHand(s, c)))
    && (forall c: nat :: c in conns <==> InPool(s, c) || InHand(s, c))
    && |Holders(s)| == s.pool.used
  }

  /** While a thread sleeps, the free connections number at most the threads about to act. */
  predicate NoLostWakeup(s: State) { SomeAsleep(s) ==> FreeCount(s) <= |Actors(s)| }

  ghost predicate Inv(s: State, conns: set<nat>) { Owned(s, conns) && NoLostWakeup(s) && !s.thrown }

  function Initial(conns: seq<nat>, threads: set<nat>): State {
    State(FreshPool(conns), map t | t in threads :: Idle, false)
  }

  predicate Distinct(conns: seq<nat>) { forall i, j :: 0 <= i < j < |conns| ==> conns[i] != conns[j] }

  function Elements(conns: seq<nat>): set<nat> { set c | c in conns }

  lemma InitialInv(conns: seq<nat>, threads: set<nat>)
    requires Distinct(conns)
    ensures Inv(Initial(conns, threads), Elements(conns))
  {
    var s := Initial(conns, threads);
    assert Holders(s) == {};
    forall c: nat ensures c in Elements(conns) <==> InPool(s, c) {
      if c in conns {
        var i :| 0 <= i < |conns| && conns[i] == c;
        assert s.pool.slots[i] == Some(c);
      }
    }
  }

  lemma TestedOwned(s: State, conns: set<nat>, t: nat)
    requires Owned(s, conns) && t in s.threads && !s.threads[t].Holding?
    ensures Owned(Tested(s, t), conns)
  {
    var r := Tested(s, t);
    if HasFree(s.pool) {
      var c := s.pool.slots[s.pool.used].value;
      assert Holders(r) == Holders(s) + {t};
      assert InPool(s, c) && r.threads[t] == Holding(Some(c));
      forall d: nat ensures InPool(s, d) <==> InPool(r, d) || d == c {
        if InPool(s, d) && d != c {
          var i :| s.pool.used <= i < |s.pool.slots| && s.pool.slots[i] == Some(d);
          assert r.pool.slots[i] == Some(d);
        }
      }
      forall d: nat ensures InHand(r, d) <==> InHand(s, d) || d == c {
        if InHand(s, d) {
          var u :| u in s.threads && s.threads[u] == Holding(Some(d));
          assert r.threads[u] == Holding(Some(d));
        }
      }
    } else {
      PhaseOnly(s, conns, t, Asleep);
    }
  }

  /** A step between phases that hold nothing moves no connection. */
  lemma PhaseOnly(s: State, conns: set<nat>, t: nat, phase: Phase)
    requires Owned(s, conns) && t in s.threads && !s.threads[t].Holding? && !phase.Holding?
    ensures Owned(s.(threads := s.threads[t := phase]), conns)
  {
    var r := s.(threads := s.threads[t := phase]);
    assert Holders(r) == Holders(s);
    forall d: nat ensures InHand(r, d) <==> InHand(s, d) {
      if InHand(s, d) {
        var u :| u in s.threads && s.threads[u] == Holding(Some(d));
        assert r.threads[u] == Holding(Some(d));
      }
    }
    forall d: nat ensures InPool(r, d) <==> InPool(s, d) {
    }
  }

  lemma ReleasedOwned(s: State, conns: set<nat>, t: nat)
    requires Owned(s, conns) && t in s.threads && s.threads[t].Holding?
    ensures var r := Released(s, t, s.threads[t].conn);
      Owned(r, conns) && r.thrown == s.thrown
      && r.threads == s.threads[t := Notifying] && FreeCount(r) == FreeCount(s) + 1
  {
    var r := Released(s, t, s.threads[t].conn);
    var c := s.threads[t].conn.value;
    assert t in Holders(s);
    assert s.pool.used > 0;
    assert Holders(r) == Holders(s) - {t};
    assert r.pool.slots[r.pool.used] == Some(c);
    assert InHand(s, c);
    forall d: nat ensures InPool(r, d) <==> InPool(s, d) || d == c {
      if InPool(s, d) {
        var i :| s.pool.used <= i < |s.pool.slots| && s.pool.slots[i] == Some(d);
        assert r.pool.slots[i] == Some(d);
      }
    }
    forall d: nat ensures InHand(r, d) <==> InHand(s, d) && d != c {
      if InHand(s, d) && d != c {
        var u :| u in s.threads && s.threads[u] == Holding(Some(d));
        assert r.threads[u] == Holding(Some(d));
      }
    }
    forall i | r.pool.used < i < |r.pool.slots| ensures r.pool.slots[i] != Some(c) {
      assert r.pool.slots[i] == s.pool.slots[i];
      assert !InPool(s, c);
    }
  }

  /* ---- every step ---- */

  predicate Acts(phase: Phase) { phase.Woken? || phase.Notifying? }

  lemma CountWithout(s: set<nat>, t: nat)
    ensures |s - {t}| == |s| - if t in s then 1 else 0
  {
    if t in s {
      assert s == s - {t} + {t};
    } else {
      assert s == s - {t};
    }
  }

  lemma ActorsAfter(s: State, r: State, t: nat, phase: Phase)
    requires t in s.threads && r.threads == s.threads[t := phase]
    ensures |Actors(r)| == |Actors(s)| - (if Acts(s.threads[t]) then 1 else 0) + (if Acts(phase) then 1 else 0)
    ensures !phase.Asleep? && SomeAsleep(r) ==> SomeAsleep(s)
  {
    var a, b := Actors(s), Actors(r);
    forall u: nat ensures u in a - {t} <==> u in b - {t} {
    }
    assert a - {t} == b - {t};
    CountWithout(a, t);
    CountWithout(b, t);
    if !phase.Asleep? {
      SleepersAfter(s, r, t, phase);
    }
  }

  lemma SleepersAfter(s: State, r: State, t: nat, phase: Phase)
    requires t in s.threads && r.threads == s.threads[t := phase] && !phase.Asleep?
    ensures SomeAsleep(r) ==> SomeAsleep(s)
  {
    if u :| u in r.threads && r.threads[u].Asleep? {
      assert s.threads[u].Asleep?;
    }
  }

  lemma TestedKeeps(s: State, conns: set<nat>, t: nat)
    requires Inv(s, conns) && t in s.threads && !s.threads[t].Holding?
    ensures Inv(Tested(s, t), conns)
  {
    TestedOwned(s, conns, t);
    var r := Tested(s, t);
    ActorsAfter(s, r, t, r.threads[t]);
  }

  lemma NotifyKeeps(s: State, conns: set<nat>, t: nat, woken: Option<nat>, r: State)
    requires Inv(s, conns) && Apply(s, Notify(t, woken)) == Some(r)
    ensures Inv(r, conns)
  {
    var m := s.(threads := s.threads[t := Idle]);
    PhaseOnly(s, conns, t, Idle);
    ActorsAfter(s, m, t, Idle);
    if woken.Some? {
      PhaseOnly(m, conns, woken.value, Woken);
      ActorsAfter(m, r, woken.value, Woken);
    }
  }

  lemma StepKeeps(s: State, conns: set<nat>, step: Step, r: State)
    requires Inv(s, conns) && Apply(s, step) == Some(r)
    ensures Inv(r, conns)
  {
    match step
    case Enter(t) => TestedKeeps(s, conns, t);
    case Retry(t) => TestedKeeps(s, conns, t);
    case Wake(t) =>
      PhaseOnly(s, conns, t, Woken);
      ActorsAfter(s, r, t, Woken);
    case Release(t) =>
      ReleasedOwned(s, conns, t);
      ActorsAfter(s, r, t, Notifying);
    case Notify(t, woken) => NotifyKeeps(s, conns, t, woken, r);
  }

  /* ---- whole runs ---- */

  /** The state after a list of steps, if they can all happen. */
  function Play(s: State, steps: seq<Step>): Option<State>
    decreases |steps|
  {
    if steps == [] then Some(s)
    else
      match Apply(s, steps[0])
      case None => None
      case Some(r) => Play(r, steps[1..])
  }

  lemma {:induction false} PlayKeeps(s: State, conns: set<nat>, steps: seq<Step>)
    requires Inv(s, conns) && Play(s, steps).Some?
    ensures Inv(Play(s, steps).value, conns)
    decreases |steps|
  {
    if steps != [] {
      StepKeeps(s, conns, steps[0], Apply(s, steps[0]).value);
      PlayKeeps(Apply(s, steps[0]).value, conns, steps[1..]);
    }
  }

  /** A state that some interleaving of any number of threads reaches. */
  ghost predicate Reachable(conns: seq<nat>, threads: set<nat>, steps: seq<Step>, s: State) {
    Distinct(conns) && Play(Initial(conns, threads), steps) == Some(s)
  }

  /** In every interleaving no connection is lost or held twice, and the destructor never throws. */
  lemma ConnectionsOwned(conns: seq<nat>, threads: set<nat>, steps: seq<Step>, s: State)
    requires Reachable(conns, threads, steps, s)
    ensures Owned(s, Elements(conns)) && !s.thrown
    ensures forall t :: t in s.threads && s.threads[t].Holding? ==> Put(s.pool, s.threads[t].conn.value).Ok?
  {
    InitialInv(conns, threads);
    PlayKeeps(Initial(conns, threads), Elements(conns), steps);
    forall t | t in s.threads && s.threads[t].Holding? ensures s.pool.used > 0 {
      assert t in Holders(s);
    }
  }

  /** No wake-up is lost: while a thread sleeps, each free connection is covered by its own thread that
      was woken or is about to notify. */
  lemma WakeupsKept(conns: seq<nat>, threads: set<nat>, steps: seq<Step>, s: State)
    requires Reachable(conns, threads, steps, s) && SomeAsleep(s)
    ensures FreeCount(s) <= |Actors(s)|
    ensures HasFree(s.pool) ==> exists t :: t in s.threads && Acts(s.threads[t])
  {
    InitialInv(conns, threads);
    PlayKeeps(Initial(conns, threads), Elements(conns), steps);
    if HasFree(s.pool) {
      assert Actors(s) != {};
      var t :| t in Actors(s);
    }
  }

  /* ---- everyone is served ---- */

  /** Steps that need no new caller and no spurious wake-up. */
  predicate Drains(step: Step) { step.Retry? || step.Release? || step.Notify? }

  predicate Quiet(phase: Phase) { phase.Idle? || phase.Asleep? }

  /** Nothing but a new caller or a spurious wake-up can happen. */
  ghost predicate Quiescent(s: State) { forall step :: Drains(step) ==> Apply(s, step).None? }

  lemma CanMove(s: State, t: nat) returns (step: Step)
    requires !s.thrown && t in s.threads && !Quiet(s.threads[t])
    ensures Drains(step) && Apply(s, step).Some?
  {
    if s.threads[t].Woken? {
      step := Retry(t);
    } else if s.threads[t].Holding? {
      step := Release(t);
    } else if SomeAsleep(s) {
      var u :| u in s.threads && s.threads[u].Asleep?;
      step := Notify(t, Some(u));
    } else {
      step := Notify(t, None);
    }
  }

  lemma QuiescentIsQuiet(s: State)
    requires !s.thrown
    ensures Quiescent(s) <==> forall t :: t in s.threads ==> Quiet(s.threads[t])
  {
    if t :| t in s.threads && !Quiet(s.threads[t]) {
      var step := CanMove(s, t);
      assert !Quiescent(s);
    }
  }

  /** A pool with connections never gets stuck: once nothing can move, nobody is left waiting. An empty
      pool leaves whoever entered asleep for ever. */
  lemma NobodyStuck(conns: seq<nat>, threads: set<nat>, steps: seq<Step>, s: State)
    requires Reachable(conns, threads, steps, s) && Quiescent(s)
    ensures SomeAsleep(s) ==> conns == []
    ensures conns != [] ==> forall t :: t in s.threads ==> s.threads[t].Idle?
  {
    InitialInv(conns, threads);
    PlayKeeps(Initial(conns, threads), Elements(conns), steps);
    SizeKept(Initial(conns, threads), steps);
    QuiescentIsQuiet(s);
    assert Holders(s) == {};
    assert Actors(s) == {};
  }

  lemma {:induction false} SizeKept(s: State, steps: seq<Step>)
    requires Play(s, steps).Some?
    ensures |Play(s, steps).value.pool.slots| == |s.pool.slots|
    ensures Play(s, steps).value.threads.Keys == s.threads.Keys
    decreases |steps|
  {
    if steps != [] {
      SizeKept(Apply(s, steps[0]).value, steps[1..]);
    }
  }

  /** An empty pool does strand its callers. */
  lemma EmptyPoolStrands()
    ensures exists s :: Reachable([], {0}, [Enter(0)], s) && Quiescent(s) && SomeAsleep(s)
  {
    var start := Initial([], {0});
    var s := Tested(start, 0);
    assert Is(start, 0, Idle);
    assert [Enter(0)][0] == Enter(0) && [Enter(0)][1..] == [];
    assert Play(start, [Enter(0)]) == Some(s);
    assert s.threads[0].Asleep?;
    forall t | t in s.threads ensures Quiet(s.threads[t]) {
    }
    QuiescentIsQuiet(s);
  }

  function Weight(phase: Phase): int {
    match phase
    case Idle => 0
    case Notifying => 2
    case Holding(_) => 3
    case Asleep => 3
    case Woken => 4
  }

  /** How many more steps the threads inside can take. */
  ghost function Remaining(s: State): int { SumOver(s.threads, Weight) }

  lemma DrainShortens(s: State, conns: set<nat>, step: Step, r: State)
    requires Inv(s, conns) && Drains(step) && Apply(s, step) == Some(r)
    ensures Remaining(r) < Remaining(s)
  {
    match step
    case Retry(t) => SumUpdated(s.threads, Weight, t, r.threads[t]);
    case Release(t) =>
      ReleasedOwned(s, conns, t);
      SumUpdated(s.threads, Weight, t, Notifying);
    case Notify(t, woken) =>
      SumUpdated(s.threads, Weight, t, Idle);
      if woken.Some? {
        SumUpdated(s.threads[t := Idle], Weight, woken.value, Woken);
      }
  }

  lemma {:induction false} RemainingNotNegative(threads: map<nat, Phase>)
    ensures SumOver(threads, Weight) >= 0
    decreases |threads|
  {
    if threads != map[] {
      var k :| k in threads;
      SumWithout(threads, Weight, k);
      RemainingNotNegative(threads - {k});
    }
  }

  /** Without new callers and spurious wake-ups every run ends within `Remaining` steps. */
  lemma {:induction false} DrainEnds(s: State, conns: set<nat>, steps: seq<Step>)
    requires Inv(s, conns) && Play(s, steps).Some? && forall step :: step in steps ==> Drains(step)
    ensures |steps| <= Remaining(s)
    decreases |steps|
  {
    if steps == [] {
      RemainingNotNegative(s.threads);
    } else {
      var r := Apply(s, steps[0]).value;
      StepKeeps(s, conns, steps[0], r);
      DrainShortens(s, conns, steps[0], r);
      DrainEnds(r, conns, steps[1..]);
    }
  }

  /** Some prefix of the run leaves the thread with a connection in its hand. */
  ghost predicate Serves(s: State, steps: seq<Step>, t: nat) {
    exists n :: 0 <= n <= |steps| && HoldsAfter(s, steps, n, t)
  }

  predicate HoldsAfter(s: State, steps: seq<Step>, n: nat, t: nat)
    requires n <= |steps|
  {
    match Play(s, steps[..n])
    case None => false
    case Some(r) => t in r.threads && r.threads[t].Holding?
  }

  /** A thread that sleeps, or was woken, and ends up idle was served on the way. */
  lemma {:induction false} IdleWasServed(s: State, steps: seq<Step>, t: nat)
    requires Play(s, steps).Some? && t in s.threads
    requires s.threads[t].Asleep? || s.threads[t].Woken? || s.threads[t].Holding?
    requires Is(Play(s, steps).value, t, Idle)
    ensures Serves(s, steps, t)
    decreases |steps|
  {
    if s.threads[t].Holding? {
      assert HoldsAfter(s, steps, 0, t);
    } else {
      var r := Apply(s, steps[0]).value;
      IdleWasServed(r, steps[1..], t);
      var n :| 0 <= n <= |steps[1..]| && HoldsAfter(r, steps[1..], n, t);
      assert steps[..n + 1][1..] == steps[1..][..n];
      assert HoldsAfter(s, steps, n + 1, t);
    }
  }

  /** Every sleeper is served: from any reachable state of a pool with connections, however the threads
      inside are scheduled, they run out of steps, and by then every sleeper has held a connection. */
  lemma {:induction false} EveryoneIsServed(conns: seq<nat>, threads: set<nat>, before: seq<Step>, s: State,
                                            steps: seq<Step>, t: nat)
    requires Reachable(conns, threads, before, s) && conns != []
    requires Play(s, steps).Some? && forall step :: step in steps ==> Drains(step)
    requires Quiescent(Play(s, steps).value)
    requires Is(s, t, Asleep)
    ensures |steps| <= Remaining(s) && Serves(s, steps, t)
  {
    InitialInv(conns, threads);
    PlayKeeps(Initial(conns, threads), Elements(conns), before);
    DrainEnds(s, Elements(conns), steps);
    PlayConcat(Initial(conns, threads), before, steps);
    NobodyStuck(conns, threads, before + steps, Play(s, steps).value);
    SizeKept(s, steps);
    IdleWasServed(s, steps, t);
  }

  lemma {:induction false} PlayConcat(s: State, a: seq<Step>, b: seq<Step>)
    requires Play(s, a).Some?
    ensures Play(s, a + b) == Play(Play(s, a).value, b)
    decreases |a|
  {
    if a == [] {
      assert a + b == b;
    } else {
      assert (a + b)[1..] == a[1..] + b;
      PlayConcat(Apply(s, a[0]).value, a[1..], b);
    }
  }
}
