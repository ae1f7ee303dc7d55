/** Difficulty and progression curves of the game scene: the piecewise
    formulas that the scene evaluates inline, written as pure functions and
    each paired with an independent reference definition or a bound. */
module Curves {

  /** Kills needed before the boss of `floor` appears: 10 per floor up to
      floor 5, 15 per floor up to floor 15, 20 per floor after that. */
  function EnemiesRequiredForBoss(floor: int): int {
    if floor <= 5 then 10 * floor
    else if floor <= 15 then 50 + (floor - 5) * 15
    else 200 + (floor - 15) * 20
  }

  /** How many more kills floor `floor` asks for than the floor below it. */
  function QuotaStep(floor: int): (r: int)
    ensures r in {10, 15, 20}
  {
    if floor <= 5 then 10 else if floor <= 15 then 15 else 20
  }

  /** Reference definition of the kill quota: 10 on the first floor, then
      one step per floor climbed. */
  function QuotaBySteps(floor: nat): int
    requires floor >= 1
  {
    if floor == 1 then 10 else QuotaBySteps(floor - 1) + QuotaStep(floor)
  }

  /** The closed-form quota agrees with the step-by-step one on every floor. */
  lemma {:induction false} QuotaMatchesSteps(floor: nat)
    requires floor >= 1
    ensures EnemiesRequiredForBoss(floor) == QuotaBySteps(floor)
  {
    if floor > 1 {
      QuotaMatchesSteps(floor - 1);
    }
  }

  /** Climbing a floor always raises the quota. */
  lemma QuotaIncreases(f: int, g: int)
    requires f < g
    ensures EnemiesRequiredForBoss(f) < EnemiesRequiredForBoss(g)
  {
  }

  /** Health of a regular enemy on `floor` before its type modifier:
      15 on floor 1, then +3 per floor to floor 5, +5 per floor to
      floor 15 and +8 per floor above. */
  function BaseEnemyHealth(floor: int): int {
    if floor <= 5 then 15 + (floor - 1) * 3
    else if floor <= 15 then 15 + 12 + (floor - 5) * 5
    else 15 + 62 + (floor - 15) * 8
  }

  /** How much healthier a regular enemy is than on the floor below. */
  function HealthStep(floor: int): (r: int)
    ensures r in {3, 5, 8}
  {
    if floor <= 5 then 3 else if floor <= 15 then 5 else 8
  }

  /** Reference definition of the base health: 15 on floor 1 plus one
      step per floor climbed. */
  function HealthBySteps(floor: nat): int
    requires floor >= 1
  {
    if floor == 1 then 15 else HealthBySteps(floor - 1) + HealthStep(floor)
  }

  lemma {:induction false} BaseHealthMatchesSteps(floor: nat)
    requires floor >= 1
    ensures BaseEnemyHealth(floor) == HealthBySteps(floor)
  {
    if floor > 1 {
      BaseHealthMatchesSteps(floor - 1);
    }
  }

  /** Regular enemies never get weaker as the floor rises. */
  lemma BaseHealthNonDecreasing(f: int, g: int)
    requires f <= g
    ensures BaseEnemyHealth(f) <= BaseEnemyHealth(g)
  {
  }

  /** JavaScript's Math.round for a ratio `num / den` with a positive
      denominator: halves round up. Dafny's `/` on int is floor division
      when the divisor is positive. */
  function RoundRatio(num: int, den: int): (r: int)
    requires den > 0
    ensures 2 * num - den < 2 * r * den <= 2 * num + den
  {
    var q := (2 * num + den) / (2 * den);
    assert 2 * num + den == q * (2 * den) + (2 * num + den) % (2 * den);
    q
  }

  /** Math.round(x) on a real: the nearest integer, halves rounding up. */
  function Round(x: real): (r: int)
    ensures x - 0.5 < r as real <= x + 0.5
  {
    (x + 0.5).Floor
  }

  /** Health after the type modifier (a percentage: 100, 150 or 80),
      rounded as Math.round rounds. */
  function TypedHealth(base: int, percent: nat): (r: int)
    requires percent > 0
    ensures 2 * base * percent - 100 < 200 * r <= 2 * base * percent + 100
  {
    RoundRatio(base * percent, 100)
  }

  /** Health after the random variation `v` (drawn from [-0.1, 0.1)). */
  function Jittered(health: int, v: real): int {
    Round(health as real * (1.0 + v))
  }

  /** The variation keeps an enemy within 10% of its typed health, up to
      the half point that rounding may add or take away. */
  lemma JitterWithinTenPercent(health: int, v: real)
    requires health >= 0
    requires -0.1 <= v < 0.1
    ensures 0.9 * health as real - 0.5 < Jittered(health, v) as real
    ensures Jittered(health, v) as real <= 1.1 * health as real + 0.5
  {
    var h := health as real;
    ScaledWithinTenPercent(h, v);
    assert 0.9 * h <= h * (1.0 + v) <= 1.1 * h;
    RoundWithin(h * (1.0 + v), 0.9 * h, 1.1 * h);
  }

  /** Scaling by 1 + v, with v in [-0.1, 0.1), stays within 10%. */
  lemma ScaledWithinTenPercent(h: real, v: real)
    requires h >= 0.0
    requires -0.1 <= v < 0.1
    ensures 0.9 * h <= h * (1.0 + v) <= 1.1 * h
  {
    ProductNonNegative(h, v + 0.1);
    ProductNonNegative(h, 0.1 - v);
    assert h * (v + 0.1) == h * (1.0 + v) - 0.9 * h;
    assert h * (0.1 - v) == 1.1 * h - h * (1.0 + v);
  }

  lemma ProductNonNegative(a: real, b: real)
    requires a >= 0.0 && b >= 0.0
    ensures a * b >= 0.0
  {
  }

  /** Rounding moves a value by at most one half. */
  lemma RoundWithin(x: real, lo: real, hi: real)
    requires lo <= x <= hi
    ensures lo - 0.5 < Round(x) as real <= hi + 0.5
  {
  }

  /** A boss is created with `base + floor * 50` health. */
  function BossHealth(base: int, floor: int): int {
    base + floor * 50
  }

  /** The next experience threshold, Math.floor(threshold * 1.1). The double
      nearest 1.1 lies slightly above 1.1, so for the integer thresholds of
      the game the product never falls below the exact value and the floor
      equals the integer quotient below. */
  function NextThreshold(threshold: int): int {
    threshold * 11 / 10
  }

  /** Thresholds grow: by at least one point from 10 upward, and never shrink. */
  lemma ThresholdGrows(threshold: int)
    requires threshold >= 0
    ensures NextThreshold(threshold) >= threshold
    ensures threshold >= 10 ==> NextThreshold(threshold) >= threshold + 1
    ensures threshold < 10 ==> NextThreshold(threshold) == threshold
  {
  }

  /** Spawn interval after a floor advance: 50 ms shorter, but never below 200 ms. */
  function NextSpawnTime(spawnTime: int): (r: int)
    ensures r >= 200
    ensures r <= spawnTime || r == 200
    ensures spawnTime >= 250 ==> r == spawnTime - 50
    ensures r == 200 || r == spawnTime - 50
    ensures r >= spawnTime - 50
  {
    if spawnTime - 50 > 200 then spawnTime - 50 else 200
  }
}
