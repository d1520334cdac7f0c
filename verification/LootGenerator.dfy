/** How many trophies appear on a map. */
module LootGenerators {
  import opened Geometry

  /** The shortage of loot, in unsigned arithmetic. */
  function Shortage(loot: nat, looters: nat): nat { if loot > looters then 0 else looters - loot }

  /** A share `p` of the shortage, rounded. */
  lemma ShareBounds(n: nat, p: real)
    requires 0.0 <= p <= 1.0
    ensures 0 <= Round(n as real * p) <= n
    ensures p == 0.0 ==> Round(n as real * p) == 0
    ensures p == 1.0 ==> Round(n as real * p) == n
  {
    var x := n as real;
    assert x - x * p == Times(x, 1.0 - p) && x * p == Times(x, p);
    RoundBelow(x * p, n);
    RoundAbove(x * p, 0);
    if p == 0.0 {
      RoundNear(x * p, 0);
    } else if p == 1.0 {
      RoundNear(x * p, n);
    }
  }

  /** The count for one drawn probability, which the program clamps to [0, 1]. */
  function Generated(loot: nat, looters: nat, draw: real): (r: nat)
    ensures loot + r <= Max(loot, looters)
    ensures draw <= 0.0 ==> r == 0
    ensures draw >= 1.0 ==> r == Shortage(loot, looters)
  {
    ShareBounds(Shortage(loot, looters), Clamp(draw, 0.0, 1.0));
    Round(Shortage(loot, looters) as real * Clamp(draw, 0.0, 1.0))
  }

  /** A larger draw never generates less. */
  lemma GeneratedMonotone(loot: nat, looters: nat, a: real, b: real)
    requires a <= b
    ensures Generated(loot, looters, a) <= Generated(loot, looters, b)
  {
    var n, p, q := Shortage(loot, looters), Clamp(a, 0.0, 1.0), Clamp(b, 0.0, 1.0);
    assert n as real * q - n as real * p == Times(n as real, q - p);
    RoundMonotone(n as real * p, n as real * q);
  }

  /** The drawn probability before clamping: `power` is (1 - probability) ^ ratio, `roll` the random factor. */
  function Chance(power: real, roll: real): real { (1.0 - power) * roll }

  /** What `Generate` returns: the looters that lack loot, less with a larger power and more with a larger roll,
      to within one half and with halves rounded up. */
  predicate CountIs(loot: nat, looters: nat, power: real, roll: real, r: nat) {
    var share := ((Max(loot, looters) - loot) as real) * ((1.0 - power) * roll);
    r as real - 0.5 <= share < r as real + 0.5
  }

  lemma ChanceInRange(power: real, roll: real)
    requires 0.0 <= power <= 1.0 && 0.0 <= roll <= 1.0
    ensures 0.0 <= (1.0 - power) * roll <= 1.0
    ensures power == 1.0 ==> (1.0 - power) * roll == 0.0
    ensures power == 0.0 && roll == 1.0 ==> (1.0 - power) * roll == 1.0
  {
    assert (1.0 - power) * roll == Times(1.0 - power, roll);
    assert roll - (1.0 - power) * roll == Times(power, roll);
  }

  /** For a power and a roll in their ranges, the count is their share of the shortage; nothing appears while no time
      counts, and all that is missing when the power has run out. */
  lemma CountIsShare(loot: nat, looters: nat, power: real, roll: real)
    requires 0.0 <= power <= 1.0 && 0.0 <= roll <= 1.0
    ensures var r := Generated(loot, looters, Chance(power, roll));
      && CountIs(loot, looters, power, roll, r)
      && (power == 1.0 || roll == 0.0 ==> r == 0)
      && (power == 0.0 && roll == 1.0 ==> loot + r == Max(loot, looters))
  {
    ChanceInRange(power, roll);
    ShareNotNegative(Max(loot, looters) - loot, (1.0 - power) * roll);
  }

  lemma ShareNotNegative(n: nat, p: real)
    requires p >= 0.0
    ensures n as real * p >= 0.0
  {
    assert n as real * p == Times(n as real, p);
  }

  predicate Antitone(power: int -> real, s: int, t: int) { s <= t ==> power(t) <= power(s) }

  /** The longer no loot has appeared, the more does. */
  lemma LongerWaitNeverLess(loot: nat, looters: nat, power: int -> real, roll: real, s: int, t: int)
    requires roll >= 0.0 && s <= t && Antitone(power, s, t)
    ensures Generated(loot, looters, Chance(power(s), roll)) <= Generated(loot, looters, Chance(power(t), roll))
  {
    assert Chance(power(t), roll) - Chance(power(s), roll) == Times(power(s) - power(t), roll);
    GeneratedMonotone(loot, looters, Chance(power(s), roll), Chance(power(t), roll));
  }

  /** The powers of one number over times that add up: what stays away over both times is what stays away over each. */
  lemma Memoryless(power: int -> real, s: int, t: int)
    requires power(s + t) == power(s) * power(t)
    ensures 1.0 - Chance(power(s + t), 1.0) == (1.0 - Chance(power(s), 1.0)) * (1.0 - Chance(power(t), 1.0))
  {
  }

  /** Two base intervals at probability one half, and the time at which a quarter is reached, for four looters. */
  lemma HalfAndQuarter()
    ensures Generated(0, 4, Chance(0.5 * 0.5, 1.0)) == 3 && Generated(0, 4, Chance(0.75, 1.0)) == 1
  {
    CountIsShare(0, 4, 0.5 * 0.5, 1.0);
    CountIsShare(0, 4, 0.75, 1.0);
  }

  class LootGenerator {
    const baseInterval: int
    var timeWithoutLoot: int

    constructor (baseInterval: int)
      ensures this.baseInterval == baseInterval && timeWithoutLoot == 0
    {
      this.baseInterval := baseInterval;
      timeWithoutLoot := 0;
    }

    /** `power(t)` stands for (1 - probability) ^ (t / base interval), `roll` for the random generator. */
    method Generate(delta: int, loot: nat, looters: nat, power: int -> real, roll: real) returns (r: nat)
      modifies this`timeWithoutLoot
      ensures r == Generated(loot, looters, Chance(power(old(timeWithoutLoot) + delta), roll))
      ensures timeWithoutLoot == if r > 0 then 0 else old(timeWithoutLoot) + delta
      ensures var p := power(old(timeWithoutLoot) + delta);
        0.0 <= p <= 1.0 && 0.0 <= roll <= 1.0 ==> CountIs(loot, looters, p, roll, r)
    {
      ghost var p := power(timeWithoutLoot + delta);
      if 0.0 <= p <= 1.0 && 0.0 <= roll <= 1.0 {
        CountIsShare(loot, looters, p, roll);
      }
      timeWithoutLoot := timeWithoutLoot + delta;
      r := Generated(loot, looters, Chance(power(timeWithoutLoot), roll));
      if r > 0 {
        timeWithoutLoot := 0;
      }
    }
  }
}
