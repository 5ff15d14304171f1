/** How much loot appears as time passes. */
module LootGenerators {
  import opened DataTypes

  datatype GenView = GenView(baseInterval: int, probability: real, timeWithoutLoot: int)

  /** Times are in milliseconds; baseInterval is documented to be positive. */
  predicate ProperGen(g: GenView) {
    g.baseInterval > 0
  }

  function Shortage(lootCount: nat, looterCount: nat): nat {
    if lootCount > looterCount then 0 else looterCount - lootCount
  }

  /** Nearest integer, halves away from zero. */
  function Round(r: real): int {
    if r >= 0.0 then (r + 0.5).Floor else -((-r + 0.5).Floor)
  }

  /** The share of the shortage given by the clamped chance, rounded. */
  function GeneratedCount(shortage: nat, chance: real): (n: int)
    ensures 0 <= n <= shortage
  {
    ScaledByUnit(shortage, Clamp(chance, 0.0, 1.0));
    Round(shortage as real * Clamp(chance, 0.0, 1.0))
  }

  lemma ScaledByUnit(shortage: nat, p: real)
    requires 0.0 <= p <= 1.0
    ensures 0.0 <= shortage as real * p <= shortage as real
    ensures 0 <= Round(shortage as real * p) <= shortage
  {}

  /** The chance before clamping; power stands for the library power function and
      random for the value drawn. */
  function Chance(g: GenView, timeDelta: int, power: (real, real) -> real, random: real): real
    requires ProperGen(g)
  {
    var ratio := (g.timeWithoutLoot + timeDelta) as real / g.baseInterval as real;
    RawChance(g.probability, ratio, power, random)
  }

  function RawChance(probability: real, ratio: real, power: (real, real) -> real, random: real): real {
    (1.0 - power(1.0 - probability, ratio)) * random
  }

  function Generated(g: GenView, timeDelta: int, lootCount: nat, looterCount: nat, chance: real): (GenView, nat) {
    var n := GeneratedCount(Shortage(lootCount, looterCount), chance);
    (g.(timeWithoutLoot := if n > 0 then 0 else g.timeWithoutLoot + timeDelta), n)
  }

  /** The part of the shortage that the chance, taken as at least zero and at most one, stands for. */
  function Expected(lootCount: nat, looterCount: nat, chance: real): real {
    if lootCount >= looterCount || chance <= 0.0 then 0.0
    else if chance >= 1.0 then (looterCount - lootCount) as real
    else (looterCount - lootCount) as real * chance
  }

  /** n is the nearest integer to r, and the upper one of two equally near. */
  predicate Nearest(n: int, r: real) {
    r - 0.5 < n as real <= r + 0.5
  }

  class LootGenerator {
    const baseInterval: int
    const probability: real
    var timeWithoutLoot: int

    ghost function View(): GenView
      reads this
    {
      GenView(baseInterval, probability, timeWithoutLoot)
    }

    constructor (baseInterval: int, probability: real)
      ensures View() == GenView(baseInterval, probability, 0)
    {
      this.baseInterval, this.probability, timeWithoutLoot := baseInterval, probability, 0;
    }

    method Generate(timeDelta: int, lootCount: nat, looterCount: nat, power: (real, real) -> real, random: real)
      returns (n: nat)
      requires ProperGen(View())
      modifies this
      ensures var chance := Chance(old(View()), timeDelta, power, random);
              && (View(), n) == Generated(old(View()), timeDelta, lootCount, looterCount, chance)
              && Nearest(n, Expected(lootCount, looterCount, chance))
      ensures timeWithoutLoot == if n > 0 then 0 else old(timeWithoutLoot) + timeDelta
    {
      GeneratedBound(View(), timeDelta, lootCount, looterCount, Chance(View(), timeDelta, power, random));
      hide RawChance, GeneratedCount;
      timeWithoutLoot := timeWithoutLoot + timeDelta;
      var lootShortage := if lootCount > looterCount then 0 else looterCount - lootCount;
      var ratio := timeWithoutLoot as real / baseInterval as real;
      var chance := RawChance(probability, ratio, power, random);
      n := GeneratedCount(lootShortage, chance);
      if n > 0 {
        timeWithoutLoot := 0;
      }
    }
  }

  /** Loot never comes to exceed looters, and the count is the integer nearest to the expected
      part of the shortage: all of it at chance one, nothing at chance zero. */
  lemma GeneratedBound(g: GenView, timeDelta: int, lootCount: nat, looterCount: nat, chance: real)
    ensures var (g', n) := Generated(g, timeDelta, lootCount, looterCount, chance);
            && lootCount + n <= (if lootCount > looterCount then lootCount else looterCount)
            && Nearest(n, Expected(lootCount, looterCount, chance))
            && (chance >= 1.0 && lootCount <= looterCount ==> lootCount + n == looterCount)
            && (chance <= 0.0 ==> n == 0)
            && g' == g.(timeWithoutLoot := if n > 0 then 0 else g.timeWithoutLoot + timeDelta)
  {
    var s := Shortage(lootCount, looterCount);
    ScaledByUnit(s, Clamp(chance, 0.0, 1.0));
    assert s as real * 1.0 == s as real && s as real * 0.0 == 0.0;
  }

  // ---------------------------------------------------------------- what the chance means

  /** The laws of powers that the chance needs, for bases and exponents from zero on. */
  ghost predicate IsPower(power: (real, real) -> real) {
    && (forall x :: x >= 0.0 ==> power(x, 1.0) == x)
    && (forall x, a, b :: x >= 0.0 && a >= 0.0 && b >= 0.0 ==> power(x, a + b) == power(x, a) * power(x, b))
  }

  lemma PowerLaws(power: (real, real) -> real, x: real, a: real, b: real)
    requires IsPower(power) && x >= 0.0 && a >= 0.0 && b >= 0.0
    ensures power(x, 1.0) == x
    ensures power(x, a + b) == power(x, a) * power(x, b)
  {}

  lemma RatioAdds(a: int, b: int, base: int)
    requires base > 0
    ensures (a + b) as real / base as real == a as real / base as real + b as real / base as real
  {}

  /** With the full random factor, the chance over one base interval without loot is the given
      probability, and the chances of getting nothing multiply over consecutive times; any other
      factor scales the chance. */
  lemma ChanceOverTime(g: GenView, t: nat, u: nat, power: (real, real) -> real, random: real)
    requires ProperGen(g) && g.probability <= 1.0 && g.timeWithoutLoot >= 0
    requires IsPower(power)
    ensures g.timeWithoutLoot + t == g.baseInterval ==> Chance(g, t, power, 1.0) == g.probability
    ensures 1.0 - Chance(g, t + u, power, 1.0)
         == (1.0 - Chance(g, t, power, 1.0)) * (1.0 - Chance(g.(timeWithoutLoot := 0), u, power, 1.0))
    ensures Chance(g, t, power, random) == random * Chance(g, t, power, 1.0)
  {
    hide IsPower;
    var base := g.baseInterval as real;
    var r1, r2 := (g.timeWithoutLoot + t) as real / base, u as real / base;
    RatioAdds(g.timeWithoutLoot + t, u, g.baseInterval);
    assert g.timeWithoutLoot + (t + u) == (g.timeWithoutLoot + t) + u;
    PowerLaws(power, 1.0 - g.probability, r1, r2);
    assert g.timeWithoutLoot + t == g.baseInterval ==> r1 == 1.0;
  }

  /** A call that generated nothing is as if its time had been added to that of the next one;
      a call that generated anything starts the time again. */
  lemma SilentTimeCounts(g: GenView, t: int, lootCount: nat, looterCount: nat, chance: real,
                         u: int, power: (real, real) -> real, random: real)
    requires ProperGen(g)
    ensures var (g', n) := Generated(g, t, lootCount, looterCount, chance);
            && ProperGen(g')
            && (n == 0 ==> Chance(g', u, power, random) == Chance(g, t + u, power, random))
            && (n > 0 ==> Chance(g', u, power, random) == Chance(g.(timeWithoutLoot := 0), u, power, random))
  {
    var (g', n) := Generated(g, t, lootCount, looterCount, chance);
    assert n == 0 ==> g'.timeWithoutLoot + u == g.timeWithoutLoot + (t + u);
  }

  // ---------------------------------------------------------------- runs

  datatype Call = Call(timeDelta: int, lootCount: nat, looterCount: nat, chance: real)

  function AfterCalls(g: GenView, calls: seq<Call>): (r: GenView)
    ensures r.baseInterval == g.baseInterval && r.probability == g.probability
  {
    if calls == [] then g
    else
      var c := calls[|calls| - 1];
      Generated(AfterCalls(g, calls[..|calls| - 1]), c.timeDelta, c.lootCount, c.looterCount, c.chance).0
  }

  /** The loot generated by the k-th call. */
  function Outcome(g: GenView, calls: seq<Call>, k: int): nat
    requires 0 <= k < |calls|
  {
    Generated(AfterCalls(g, calls[..k]), calls[k].timeDelta, calls[k].lootCount, calls[k].looterCount, calls[k].chance).1
  }

  function TotalDelta(calls: seq<Call>): int {
    if calls == [] then 0 else TotalDelta(calls[..|calls| - 1]) + calls[|calls| - 1].timeDelta
  }

  /** After any calls, the accumulated time is the sum of the deltas since the last call
      that generated loot (the calls from since on generated none). */
  lemma {:induction false} TimeSinceLastLoot(g: GenView, calls: seq<Call>, since: nat)
    requires since <= |calls|
    requires since > 0 ==> Outcome(g, calls, since - 1) > 0
    requires forall k :: since <= k < |calls| ==> Outcome(g, calls, k) == 0
    ensures AfterCalls(g, calls) ==
            g.(timeWithoutLoot := (if since == 0 then g.timeWithoutLoot else 0) + TotalDelta(calls[since..]))
  {
    if since < |calls| {
      var n := |calls| - 1;
      var init := calls[..n];
      assert forall k :: 0 <= k < n ==> init[..k] == calls[..k];
      assert forall k :: 0 <= k < n ==> Outcome(g, init, k) == Outcome(g, calls, k);
      TimeSinceLastLoot(g, init, since);
      assert calls[since..][..|calls| - since - 1] == init[since..];
      assert Outcome(g, calls, n) == 0;
    } else if calls != [] {
      assert calls[since..] == [];
    }
  }
}
