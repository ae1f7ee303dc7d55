/** Properties of the scene's operations: how they move the enemy counts,
    the kill quota, the floor, the skill table and the player's stats, and
    the invariant that every reachable state keeps. */
module GameRules {
  import opened Curves
  import opened GameState
  import Shuffle

  // ------------------------------------------------------------ counting

  /** Whether `x` is a live enemy of the kind (boss or regular) being counted. */
  function Mark(x: Enemy, boss: bool): nat {
    if x.active && x.isBoss == boss then 1 else 0
  }

  lemma {:induction false} CountAppend(s: seq<Enemy>, x: Enemy, boss: bool)
    ensures CountActive(s + [x], boss) == CountActive(s, boss) + Mark(x, boss)
  {
    if |s| == 0 {
      assert s + [x] == [x];
      assert [x][1..] == [];
    } else {
      assert (s + [x])[1..] == s[1..] + [x];
      CountAppend(s[1..], x, boss);
    }
  }

  lemma {:induction false} CountUpdate(s: seq<Enemy>, i: nat, x: Enemy, boss: bool)
    requires i < |s|
    ensures CountActive(s[i := x], boss) == CountActive(s, boss) - Mark(s[i], boss) + Mark(x, boss)
  {
    if i == 0 {
      assert s[i := x][1..] == s[1..];
    } else {
      assert s[i := x][1..] == s[1..][i - 1 := x];
      CountUpdate(s[1..], i - 1, x, boss);
    }
  }

  /** A group has no live boss exactly when its boss count is zero. */
  lemma {:induction false} NoBossMeansZero(s: seq<Enemy>)
    ensures FirstBoss(s).None? <==> CountActive(s, true) == 0
  {
    if |s| > 0 {
      NoBossMeansZero(s[1..]);
      if !(s[0].active && s[0].isBoss) {
        assert FirstBoss(s).None? <==> FirstBoss(s[1..]).None?;
      }
    }
  }

  // --------------------------------------------------------------- bosses

  /** spawnBoss never makes a second live boss: with one present it hands
      that one back and changes nothing; without one it appends exactly one,
      at full health `base + floor * 50`. Regular enemies are not affected. */
  lemma SpawnBossAddsAtMostOne(sc: Scene, name: EnemyName, base: int)
    ensures var (s, b) := SpawnBoss(sc, name, base);
      && CountActive(s.enemies, true) == (if CountActive(sc.enemies, true) == 0 then 1 else CountActive(sc.enemies, true))
      && CountActive(s.enemies, false) == CountActive(sc.enemies, false)
      && s == sc.(enemies := s.enemies)
      && |sc.enemies| <= |s.enemies| && s.enemies[..|sc.enemies|] == sc.enemies
      && (CountActive(sc.enemies, true) > 0 ==> s == sc)
      && (CountActive(sc.enemies, true) == 0 ==>
            s.enemies[b].name == name
            && b == |sc.enemies| && |s.enemies| == |sc.enemies| + 1
            && s.enemies[b].health == s.enemies[b].maxHealth == BossHealth(base, sc.stats.floor) as real)
  {
    NoBossMeansZero(sc.enemies);
    var h := BossHealth(base, sc.stats.floor) as real;
    var boss := Enemy(name, h, h, true, true);
    CountAppend(sc.enemies, boss, true);
    CountAppend(sc.enemies, boss, false);
    assert (sc.enemies + [boss])[..|sc.enemies|] == sc.enemies;
  }

  /** Asking for a boss twice is asking once: the second call finds the
      boss the first one returned. */
  lemma SpawnBossIdempotent(sc: Scene, name: EnemyName, base: int, name2: EnemyName, base2: int)
    ensures var first := SpawnBoss(sc, name, base);
      SpawnBoss(first.0, name2, base2) == first
  {
    var (s, b) := SpawnBoss(sc, name, base);
    if FirstBoss(sc.enemies).None? {
      assert forall k :: 0 <= k < b ==> s.enemies[k] == sc.enemies[k];
    }
  }

  // ------------------------------------------------------------- spawning

  /** Health of the enemy spawned on `floor` by `roll`. */
  function SpawnedHealth(floor: int, roll: SpawnRoll): real {
    Jittered(TypedHealth(BaseEnemyHealth(floor), HealthPercent(roll.kind)), roll.variation) as real
  }

  /** Every enemy a spawn creates starts alive: even the weakest type with
      the lowest variation on the first floor has 11 health. */
  lemma SpawnedEnemyAlive(floor: int, roll: SpawnRoll)
    requires floor >= 1
    requires -0.1 <= roll.variation < 0.1
    ensures SpawnedHealth(floor, roll) >= 11.0
  {
    BaseHealthNonDecreasing(1, floor);
    var typed := TypedHealth(BaseEnemyHealth(floor), HealthPercent(roll.kind));
    assert typed >= 12;
    JitterWithinTenPercent(typed, roll.variation);
  }

  /** Spawning appends one live regular enemy per roll, of the rolled type
      and with the floor's health, and touches nothing else. */
  lemma {:induction false} SpawnEnemiesAppends(sc: Scene, rolls: seq<SpawnRoll>)
    ensures var s := SpawnEnemies(sc, rolls);
      && s == sc.(enemies := s.enemies)
      && |s.enemies| == |sc.enemies| + |rolls|
      && s.enemies[..|sc.enemies|] == sc.enemies
      && (forall k :: 0 <= k < |rolls| ==>
            s.enemies[|sc.enemies| + k] == Enemy(Robot(rolls[k].kind), SpawnedHealth(sc.stats.floor, rolls[k]), 0.0, false, true))
      && CountActive(s.enemies, false) == CountActive(sc.enemies, false) + |rolls|
      && CountActive(s.enemies, true) == CountActive(sc.enemies, true)
  {
    if |rolls| > 0 {
      var init := rolls[..|rolls| - 1];
      SpawnEnemiesAppends(sc, init);
      var s0 := SpawnEnemies(sc, init);
      var x := Enemy(Robot(rolls[|rolls| - 1].kind), SpawnedHealth(sc.stats.floor, rolls[|rolls| - 1]), 0.0, false, true);
      assert SpawnEnemies(sc, rolls).enemies == s0.enemies + [x];
      CountAppend(s0.enemies, x, false);
      CountAppend(s0.enemies, x, true);
      assert (s0.enemies + [x])[..|sc.enemies|] == s0.enemies[..|sc.enemies|];
    }
  }

  /** A spawn tick happens once the interval has passed since the last one
      (and then restarts the interval even when nothing is spawned); it
      tops the regular enemies up by `enemiesPerSpawn`, never past
      `maxEnemies`, and adds none when the cap is already reached. */
  lemma SpawnTickRespectsCap(sc: Scene, time: int, rolls: seq<SpawnRoll>)
    requires sc.enemiesPerSpawn >= 0
    requires |rolls| >= sc.enemiesPerSpawn
    ensures var s := SpawnTick(sc, time, rolls);
      var regular := CountActive(sc.enemies, false);
      && (time <= sc.lastEnemySpawn + sc.enemySpawnTime ==> s == sc)
      && (time > sc.lastEnemySpawn + sc.enemySpawnTime ==>
            && s.lastEnemySpawn == time
            && CountActive(s.enemies, false) ==
                 (if regular >= sc.maxEnemies then regular
                  else if regular + sc.enemiesPerSpawn <= sc.maxEnemies then regular + sc.enemiesPerSpawn
                  else sc.maxEnemies))
      && CountActive(s.enemies, true) == CountActive(sc.enemies, true)
      && s == sc.(enemies := s.enemies, lastEnemySpawn := s.lastEnemySpawn)
  {
    SpawnEnemiesAppends(sc, rolls[..SpawnCount(sc)]);
  }

  // --------------------------------------------------------------- skills

  /** The position of each skill in the table. */
  function Slot(id: SkillId): (r: nat)
    ensures r < 4
  {
    match id
    case BasicRay => 0
    case AreaAttack => 1
    case HomingMissile => 2
    case Shield => 3
  }

  lemma FindInTable(t: seq<Skill>, id: SkillId)
    requires TableShape(t)
    ensures FindSkill(t, id) == Some(Slot(id))
    ensures SkillLevel(t, id) == t[Slot(id)].level
  {
    assert t[Slot(id)].id == id;
  }

  /** One step of useSkills: the referenced record is stamped with the
      time when it was ready, the rest of the table is left alone, and the
      shield goes up when the shield fired. */
  lemma FireSkillStamps(sc: Scene, id: SkillId, time: int)
    requires TableShape(sc.available)
    ensures var r := FireSkill(sc, id, time);
      var j := Slot(id);
      && r.available == sc.available[j := if Ready(sc.available[j], time)
                                          then sc.available[j].(lastFired := time) else sc.available[j]]
      && r == sc.(available := r.available, projectiles := r.projectiles, isInvulnerable := r.isInvulnerable)
      && sc.projectiles <= r.projectiles
      && (r.isInvulnerable <==> sc.isInvulnerable || (id == Shield && Ready(sc.available[3], time)))
  {
    FindInTable(sc.available, id);
  }

  /** What one useSkills step launches: nothing unless the skill is ready;
      a ready ray fires one bullet of (15 + damageBoost) * level damage,
      carrying the held effects, when some enemy is alive; a ready missile
      skill fires three homing missiles of 20 * level damage; the area
      attack and the shield launch no projectile. */
  lemma FireSkillProjectiles(sc: Scene, id: SkillId, time: int)
    requires TableShape(sc.available)
    ensures var r := FireSkill(sc, id, time);
      var sk := sc.available[Slot(id)];
      && (!Ready(sk, time) ==> r.projectiles == sc.projectiles)
      && (Ready(sk, time) && id == BasicRay ==>
            r.projectiles == sc.projectiles +
              (if HasLiveEnemy(sc.enemies)
               then [Bullet(((15 + sc.stats.damageBoost) * sk.level) as real, sc.stats.specialEffects)]
               else []))
      && (Ready(sk, time) && id == HomingMissile ==>
            var m := Missile((20 * sk.level) as real);
            r.projectiles == sc.projectiles + [m, m, m])
      && (id == AreaAttack || id == Shield ==> r.projectiles == sc.projectiles)
  {
    FindInTable(sc.available, id);
  }

  /** Firing the skills named in `ids` changes only the skill table, the
      projectiles (which only grow) and the shield flag, which is up
      afterwards when it was up or the shield fired. */
  lemma {:induction false} UseSkillsFromFrame(sc: Scene, ids: seq<SkillId>, time: int)
    requires TableShape(sc.available)
    ensures var r := UseSkillsFrom(sc, ids, time);
      && TableShape(r.available)
      && r == sc.(available := r.available, projectiles := r.projectiles, isInvulnerable := r.isInvulnerable)
      && sc.projectiles <= r.projectiles
      && (r.isInvulnerable <==> sc.isInvulnerable || (Shield in ids && Ready(sc.available[3], time)))
    decreases |ids|
  {
    if |ids| > 0 {
      var s1 := FireSkill(sc, ids[0], time);
      FireSkillStamps(sc, ids[0], time);
      UseSkillsFromFrame(s1, ids[1..], time);
      assert ids == [ids[0]] + ids[1..];
      if ids[0] == Shield && Ready(sc.available[3], time) {
        assert s1.isInvulnerable;
      } else {
        assert s1.available[3] == sc.available[3];
      }
    }
  }

  /** Firing skills from `ids` stamps every record that was ready and is
      named in `ids` with the time, once, whatever the repetitions in
      `ids`, and leaves the rest of the table alone. */
  lemma UseSkillsFromStamps(sc: Scene, ids: seq<SkillId>, time: int)
    requires TableShape(sc.available)
    ensures var r := UseSkillsFrom(sc, ids, time);
      |r.available| == 4 &&
      forall i :: 0 <= i < 4 ==>
        r.available[i] == (if sc.available[i].id in ids && Ready(sc.available[i], time)
                           then sc.available[i].(lastFired := time) else sc.available[i])
  {
    UseSkillsFromFrame(sc, ids, time);
    forall i | 0 <= i < 4
      ensures UseSkillsFrom(sc, ids, time).available[i]
           == (if sc.available[i].id in ids && Ready(sc.available[i], time)
               then sc.available[i].(lastFired := time) else sc.available[i])
    {
      StampAt(sc, ids, time, i);
    }
  }

  /** The record at slot `i` after firing the skills named in `ids`. */
  lemma {:induction false} StampAt(sc: Scene, ids: seq<SkillId>, time: int, i: nat)
    requires TableShape(sc.available)
    requires i < 4
    ensures var r := UseSkillsFrom(sc, ids, time);
      && i < |r.available|
      && r.available[i] == (if sc.available[i].id in ids && Ready(sc.available[i], time)
                            then sc.available[i].(lastFired := time) else sc.available[i])
    decreases |ids|
  {
    UseSkillsFromFrame(sc, ids, time);
    if |ids| > 0 {
      var s1 := FireSkill(sc, ids[0], time);
      FireSkillStamps(sc, ids[0], time);
      UseSkillsFromFrame(s1, ids[1..], time);
      StampAt(s1, ids[1..], time, i);
      assert ids == [ids[0]] + ids[1..];
      if sc.available[i].id == ids[0] {
        assert i == Slot(ids[0]);
      } else {
        assert sc.available[i].id in ids <==> sc.available[i].id in ids[1..];
        assert s1.available[i] == sc.available[i];
      }
    }
  }

  /** useSkills over the whole `skills` list. */
  lemma UseSkillsStamps(sc: Scene, time: int)
    requires TableShape(sc.available)
    ensures var r := UseSkills(sc, time);
      && TableShape(r.available)
      && r == sc.(available := r.available, projectiles := r.projectiles, isInvulnerable := r.isInvulnerable)
      && (forall i :: 0 <= i < 4 ==>
            r.available[i] == (if sc.available[i].id in sc.skills && Ready(sc.available[i], time)
                               then sc.available[i].(lastFired := time) else sc.available[i]))
  {
    UseSkillsFromFrame(sc, sc.skills, time);
    UseSkillsFromStamps(sc, sc.skills, time);
  }

  /** upgradeSkill raises the named skill by one level and no other; the
      first upgrade of a record not yet marked unlocked adds it to `skills`. */
  lemma UpgradeSkillRaisesOneLevel(sc: Scene, id: SkillId)
    requires TableShape(sc.available)
    ensures var r := UpgradeSkill(sc, id);
      && TableShape(r.available)
      && SkillLevel(r.available, id) == SkillLevel(sc.available, id) + 1
      && (forall other :: other != id ==> SkillLevel(r.available, other) == SkillLevel(sc.available, other))
      && r.available[Slot(id)].unlocked
      && r.available == sc.available[Slot(id) := sc.available[Slot(id)].(level := sc.available[Slot(id)].level + 1,
                                                                        unlocked := true)]
      && r.skills == sc.skills + (if sc.available[Slot(id)].unlocked then [] else [id])
      && r == sc.(available := r.available, skills := r.skills)
  {
    var j := Slot(id);
    var sk := sc.available[j];
    var t := sc.available[j := sk.(level := sk.level + 1, unlocked := true)];
    FindInTable(sc.available, id);
    assert UpgradeSkill(sc, id) == sc.(available := t, skills := sc.skills + (if sk.unlocked then [] else [id]));
    assert TableShape(t);
    FindInTable(t, id);
    forall other | other != id
      ensures SkillLevel(t, other) == SkillLevel(sc.available, other)
    {
      FindInTable(sc.available, other);
      FindInTable(t, other);
    }
  }

  /** The options offered on a level-up are up to three different records
      of the skill table. */
  lemma SkillOptionsFromTable(sc: Scene, picks: seq<int>)
    requires TableShape(sc.available)
    requires Shuffle.Draws(|sc.available|, picks)
    ensures var opts := Shuffle.Options(sc.available, 3, picks);
      && |opts| == 3
      && Shuffle.Distinct(opts)
      && (forall k :: 0 <= k < 3 ==> opts[k] in sc.available)
  {
    var t := sc.available;
    assert Shuffle.Distinct(t) by {
      forall a, b | 0 <= a < b < |t| ensures t[a] != t[b] {
        assert t[a].id != t[b].id;
      }
    }
    Shuffle.OptionsArePermutationPrefix(t, 3, picks);
    var opts := Shuffle.Options(t, 3, picks);
    forall k | 0 <= k < 3 ensures opts[k] in t {
      assert opts[k] in multiset(opts);
    }
  }

  // ---------------------------------------------------------------- drops

  /** trySpawnItem drops the first regular item whose roll succeeds, and
      none when every roll fails. */
  lemma {:induction false} FirstDropIsFirstSuccess(rolls: seq<real>, k: nat)
    requires |rolls| >= |ItemTypes|
    requires k <= |ItemTypes|
    ensures var d := FirstDrop(rolls, k);
      && (d.None? <==> forall j :: k <= j < |ItemTypes| ==> rolls[j] >= DropChance(ItemTypes[j]))
      && (d.Some? ==> exists j :: k <= j < |ItemTypes| && d.value == ItemTypes[j]
                        && rolls[j] < DropChance(ItemTypes[j])
                        && forall i :: k <= i < j ==> rolls[i] >= DropChance(ItemTypes[i]))
    decreases |ItemTypes| - k
  {
    if k < |ItemTypes| && rolls[k] >= DropChance(ItemTypes[k]) {
      FirstDropIsFirstSuccess(rolls, k + 1);
      var d := FirstDrop(rolls, k + 1);
      if d.Some? {
        var j :| k + 1 <= j < |ItemTypes| && d.value == ItemTypes[j]
                 && rolls[j] < DropChance(ItemTypes[j])
                 && forall i :: k + 1 <= i < j ==> rolls[i] >= DropChance(ItemTypes[i]);
        assert forall i :: k <= i < j ==> rolls[i] >= DropChance(ItemTypes[i]);
      }
    }
  }

  // ---------------------------------------------------------------- kills

  /** `t` extends `s` and keeps every enemy of `s` live or gone, boss or
      regular, dead or alive as it was. */
  ghost predicate Keeps(s: seq<Enemy>, t: seq<Enemy>) {
    && |s| <= |t|
    && forall k :: 0 <= k < |s| ==>
         && t[k].active == s[k].active && t[k].isBoss == s[k].isBoss
         && (t[k].health <= 0.0 <==> s[k].health <= 0.0)
  }

  /** The drops of a death: a gem worth 20 and at most one item. */
  lemma DeathDrops(sc: Scene, rolls: seq<real>)
    requires |rolls| >= |ItemTypes|
    ensures var r := TrySpawnItem(SpawnExpGem(sc), rolls);
      && r == sc.(expGems := sc.expGems + [20], items := r.items)
      && |sc.items| <= |r.items| <= |sc.items| + 1
      && sc.items <= r.items
  {
  }

  /** A regular kill is counted, and a boss is present afterwards exactly
      when one was before or the kill met the floor's quota. */
  lemma CountKillEffect(sc: Scene)
    ensures var r := CountKill(sc);
      && r == sc.(stats := sc.stats.(enemiesKilled := sc.stats.enemiesKilled + 1), enemies := r.enemies)
      && |sc.enemies| <= |r.enemies| && r.enemies[..|sc.enemies|] == sc.enemies
      && CountActive(r.enemies, false) == CountActive(sc.enemies, false)
      && CountActive(r.enemies, true) ==
           (if CountActive(sc.enemies, true) == 0 && sc.stats.enemiesKilled + 1 >= sc.stats.enemiesRequiredForBoss
            then 1 else CountActive(sc.enemies, true))
  {
    var s := sc.(stats := sc.stats.(enemiesKilled := sc.stats.enemiesKilled + 1));
    SpawnBossAddsAtMostOne(s, FloorBoss, 500);
  }

  /** advanceFloor's bookkeeping: next floor with no upper limit, no kills
      yet, the new floor's quota, a shorter spawn interval and faster
      enemies. Below floor 33 the enemies are untouched; on floor 33 the
      final boss is requested, so a boss is present afterwards. */
  lemma AdvanceFloorEffect(sc: Scene)
    ensures var r := AdvanceFloor(sc);
      var f := sc.stats.floor + 1;
      && r == sc.(stats := sc.stats.(floor := f, enemiesKilled := 0,
                                     enemiesRequiredForBoss := EnemiesRequiredForBoss(f)),
                  enemySpawnTime := NextSpawnTime(sc.enemySpawnTime),
                  enemySpeed := sc.enemySpeed + 5, enemies := r.enemies)
      && Keeps(sc.enemies, r.enemies)
      && (f != 33 || CountActive(sc.enemies, true) > 0 ==> |r.enemies| == |sc.enemies|)
      && (f != 33 ==> r.enemies == sc.enemies)
      && CountActive(r.enemies, false) == CountActive(sc.enemies, false)
      && CountActive(r.enemies, true) ==
           (if f == 33 && CountActive(sc.enemies, true) == 0 then 1 else CountActive(sc.enemies, true))
  {
    var f := sc.stats.floor + 1;
    if f == 33 {
      var s := sc.(stats := sc.stats.(floor := f, enemiesKilled := 0,
                                      enemiesRequiredForBoss := EnemiesRequiredForBoss(f)),
                   enemySpawnTime := NextSpawnTime(sc.enemySpawnTime),
                   enemySpeed := sc.enemySpeed + 5);
      SpawnBossAddsAtMostOne(s, Gaia, 2000);
      var (t, b) := SpawnBoss(s, Gaia, 2000);
      var boss := t.enemies[b];
      var h := boss.health * 1.5;
      assert h <= 0.0 <==> boss.health <= 0.0;
      CountUpdate(t.enemies, b, boss.(health := h, maxHealth := h), true);
      CountUpdate(t.enemies, b, boss.(health := h, maxHealth := h), false);
    }
  }

  /** Climbing a floor: the new quota is the step-by-step quota of the new
      floor and strictly above the old one, and the spawn interval shrinks
      down to 200 ms. */
  lemma AdvanceFloorProgress(sc: Scene)
    requires sc.stats.floor >= 1
    ensures var r := AdvanceFloor(sc);
      && r.stats.floor == sc.stats.floor + 1
      && r.stats.enemiesRequiredForBoss == QuotaBySteps(r.stats.floor)
      && r.stats.enemiesRequiredForBoss > EnemiesRequiredForBoss(sc.stats.floor)
      && 200 <= r.enemySpawnTime && (r.enemySpawnTime < sc.enemySpawnTime || r.enemySpawnTime == 200)
  {
    AdvanceFloorEffect(sc);
    QuotaMatchesSteps(sc.stats.floor + 1);
    QuotaIncreases(sc.stats.floor, sc.stats.floor + 1);
  }

  /** A boss death: the floor advances with its fresh quota and faster
      spawns, a chicken leg and then the boss item drop, no gem or
      projectile is added, and below floor 33 the enemies are untouched. */
  lemma BossDefeatedEffect(sc: Scene, item: Effect)
    ensures var r := BossDefeated(sc, item);
      var f := sc.stats.floor + 1;
      && r.stats == sc.stats.(floor := f, enemiesKilled := 0,
                              enemiesRequiredForBoss := EnemiesRequiredForBoss(f))
      && r.items == sc.items + [ChickenLeg, BossItem(item)]
      && r.enemySpawnTime == NextSpawnTime(sc.enemySpawnTime)
      && r.enemySpeed == sc.enemySpeed + 5
      && r == sc.(stats := r.stats, items := r.items, enemySpawnTime := r.enemySpawnTime,
                  enemySpeed := r.enemySpeed, enemies := r.enemies)
      && Keeps(sc.enemies, r.enemies)
      && (f != 33 ==> r.enemies == sc.enemies)
  {
    AdvanceFloorEffect(sc);
  }

  /** damageEnemy on a live enemy: a surviving enemy only loses health;
      a dying one leaves its group, drops a gem and at most one item, and
      then either counts as a kill (regular) or clears the floor (boss). */
  lemma DamageEnemyEffect(sc: Scene, e: nat, damage: real, rolls: DeathRolls)
    requires |rolls.itemRolls| >= |ItemTypes|
    requires e < |sc.enemies| && sc.enemies[e].active
    ensures var r := DamageEnemy(sc, e, damage, rolls);
      var hit := sc.enemies[e].(health := sc.enemies[e].health - damage);
      var s := sc.(enemies := sc.enemies[e := hit]);
      && (hit.health > 0.0 ==> r == s)
      && (hit.health <= 0.0 ==>
            var dropped := TrySpawnItem(SpawnExpGem(s), rolls.itemRolls);
            var settled := if !hit.isBoss then CountKill(dropped) else BossDefeated(dropped, rolls.bossItem);
            && e < |settled.enemies|
            && r == Destroy(settled, e)
            && Keeps(s.enemies, settled.enemies)
            && settled == (if !hit.isBoss then CountKill(dropped) else AdvanceFloor(dropped).(items := dropped.items + [ChickenLeg, BossItem(rolls.bossItem)]))
            && dropped == s.(expGems := sc.expGems + [20], items := dropped.items)
            && |sc.items| <= |dropped.items| <= |sc.items| + 1)
  {
    var hit := sc.enemies[e].(health := sc.enemies[e].health - damage);
    var s := sc.(enemies := sc.enemies[e := hit]);
    if hit.health <= 0.0 {
      DeathDrops(s, rolls.itemRolls);
      var dropped := TrySpawnItem(SpawnExpGem(s), rolls.itemRolls);
      if !hit.isBoss {
        CountKillEffect(dropped);
      } else {
        AdvanceFloorEffect(dropped);
        BossDefeatedEffect(dropped, rolls.bossItem);
      }
    }
  }

  /** damageEnemy returns at once for an enemy that has left its group (or
      was never in it): nothing changes, so no kill, gem or item is counted. */
  lemma DeadEnemyIgnored(sc: Scene, e: int, damage: real, rolls: DeathRolls)
    requires |rolls.itemRolls| >= |ItemTypes|
    requires !(0 <= e < |sc.enemies|) || !sc.enemies[e].active
    ensures DamageEnemy(sc, e, damage, rolls) == sc
  {
  }

  /** A second hit on an enemy that the first hit killed does nothing: one
      death, one kill counted, one set of drops. */
  lemma SecondKillIgnored(sc: Scene, e: nat, d1: real, r1: DeathRolls, d2: real, r2: DeathRolls)
    requires |r1.itemRolls| >= |ItemTypes| && |r2.itemRolls| >= |ItemTypes|
    requires e < |sc.enemies| && sc.enemies[e].active
    requires sc.enemies[e].health - d1 <= 0.0
    ensures var once := DamageEnemy(sc, e, d1, r1);
      DamageEnemy(once, e, d2, r2) == once
  {
    DamageEnemyTarget(sc, e, d1, r1);
    DeadEnemyIgnored(DamageEnemy(sc, e, d1, r1), e, d2, r2);
  }

  /** Killing a regular enemy: it leaves its group, one gem and at most one
      item drop, the kill is counted, and a boss is present afterwards
      exactly when one was before or the kill met the floor's quota. */
  lemma KillRegularEnemy(sc: Scene, e: nat, damage: real, rolls: DeathRolls)
    requires |rolls.itemRolls| >= |ItemTypes|
    requires e < |sc.enemies| && sc.enemies[e].active && !sc.enemies[e].isBoss
    requires sc.enemies[e].health - damage <= 0.0
    ensures var r := DamageEnemy(sc, e, damage, rolls);
      && !r.enemies[e].active
      && r.stats == sc.stats.(enemiesKilled := sc.stats.enemiesKilled + 1)
      && r == sc.(stats := r.stats, enemies := r.enemies, expGems := r.expGems, items := r.items)
      && r.expGems == sc.expGems + [20]
      && |sc.items| <= |r.items| <= |sc.items| + 1
      && CountActive(r.enemies, false) == CountActive(sc.enemies, false) - 1
      && CountActive(r.enemies, true) ==
           (if CountActive(sc.enemies, true) == 0 && sc.stats.enemiesKilled + 1 >= sc.stats.enemiesRequiredForBoss
            then 1 else CountActive(sc.enemies, true))
  {
    DamageEnemyEffect(sc, e, damage, rolls);
    var hit := sc.enemies[e].(health := sc.enemies[e].health - damage);
    var s := sc.(enemies := sc.enemies[e := hit]);
    CountUpdate(sc.enemies, e, hit, true);
    CountUpdate(sc.enemies, e, hit, false);
    var dropped := TrySpawnItem(SpawnExpGem(s), rolls.itemRolls);
    CountKillEffect(dropped);
    var settled := CountKill(dropped);
    CountUpdate(settled.enemies, e, settled.enemies[e].(active := false), true);
    CountUpdate(settled.enemies, e, settled.enemies[e].(active := false), false);
  }

  /** Killing the boss: the floor advances, a chicken leg and the boss item
      drop, and the enemy counts lose the boss. */
  lemma KillBoss(sc: Scene, e: nat, damage: real, rolls: DeathRolls)
    requires |rolls.itemRolls| >= |ItemTypes|
    requires e < |sc.enemies| && sc.enemies[e].active && sc.enemies[e].isBoss
    requires sc.enemies[e].health - damage <= 0.0
    ensures var r := DamageEnemy(sc, e, damage, rolls);
      && !r.enemies[e].active
      && r.stats == sc.stats.(floor := sc.stats.floor + 1, enemiesKilled := 0,
                              enemiesRequiredForBoss := EnemiesRequiredForBoss(sc.stats.floor + 1))
      && r.enemySpawnTime == NextSpawnTime(sc.enemySpawnTime)
      && r.enemySpeed == sc.enemySpeed + 5
      && r == sc.(stats := r.stats, enemySpawnTime := r.enemySpawnTime, enemySpeed := r.enemySpeed,
                  enemies := r.enemies, expGems := r.expGems, items := r.items)
      && r.expGems == sc.expGems + [20]
      && |r.items| >= 2 && r.items[|r.items| - 2..] == [ChickenLeg, BossItem(rolls.bossItem)]
      && CountActive(r.enemies, true) == CountActive(sc.enemies, true) - 1
      && CountActive(r.enemies, false) == CountActive(sc.enemies, false)
  {
    DamageEnemyEffect(sc, e, damage, rolls);
    var hit := sc.enemies[e].(health := sc.enemies[e].health - damage);
    var s := sc.(enemies := sc.enemies[e := hit]);
    CountUpdate(sc.enemies, e, sc.enemies[e].(active := false), true);
    CountUpdate(sc.enemies, e, hit, true);
    CountUpdate(sc.enemies, e, hit, false);
    var dropped := TrySpawnItem(SpawnExpGem(s), rolls.itemRolls);
    AdvanceFloorEffect(dropped);
    var settled := BossDefeated(dropped, rolls.bossItem);
    CountUpdate(settled.enemies, e, settled.enemies[e].(active := false), true);
    CountUpdate(settled.enemies, e, settled.enemies[e].(active := false), false);
  }

  /** What damageEnemy leaves of the enemy it hit: it is gone exactly when
      the damage was fatal, and its health says so. */
  lemma DamageEnemyTarget(sc: Scene, e: nat, damage: real, rolls: DeathRolls)
    requires |rolls.itemRolls| >= |ItemTypes|
    requires e < |sc.enemies| && sc.enemies[e].active
    ensures var r := DamageEnemy(sc, e, damage, rolls);
      var dead := sc.enemies[e].health - damage <= 0.0;
      && e < |r.enemies|
      && (r.enemies[e].active <==> !dead)
      && (r.enemies[e].health <= 0.0 <==> dead)
      && (!dead ==> r.enemies[e].health == sc.enemies[e].health - damage)
  {
    DamageEnemyEffect(sc, e, damage, rolls);
  }

  /** hitEnemy: the enemy takes the projectile's damage (10 when it carries
      none); three half-damage children appear exactly when the projectile
      splits and the enemy ends up dead; the projectile is destroyed unless
      it pierces. */
  lemma HitEnemyFate(sc: Scene, p: nat, e: nat, rolls: DeathRolls)
    requires p < |sc.projectiles| && e < |sc.enemies|
    requires |rolls.itemRolls| >= |ItemTypes|
    requires sc.enemies[e].active
    ensures var r := HitEnemy(sc, p, e, rolls);
      var proj := sc.projectiles[p];
      var damage := if proj.damage == 0.0 then 10.0 else proj.damage;
      var dead := sc.enemies[e].health - damage <= 0.0;
      var split := proj.canSplit && dead;
      && r.enemies == DamageEnemy(sc, e, damage, rolls).enemies
      && (r.enemies[e].active <==> !dead)
      && (!dead ==> r.enemies[e].health == sc.enemies[e].health - damage)
      && (r.projectiles[p].active <==> proj.active && proj.isPiercing)
      && |r.projectiles| == |sc.projectiles| + (if split then 3 else 0)
      && (forall k :: |sc.projectiles| <= k < |r.projectiles| ==>
            r.projectiles[k].damage == proj.damage * 0.5 && r.projectiles[k].active
            && !r.projectiles[k].isPiercing && !r.projectiles[k].canSplit)
      && (forall k :: 0 <= k < |sc.projectiles| && k != p ==> r.projectiles[k] == sc.projectiles[k])
  {
    var proj := sc.projectiles[p];
    var damage := if proj.damage == 0.0 then 10.0 else proj.damage;
    DamageEnemyTarget(sc, e, damage, rolls);
    var s1 := DamageEnemy(sc, e, damage, rolls);
    var s2 := if proj.canSplit && s1.enemies[e].health <= 0.0 then CreateSplitProjectiles(s1, proj) else s1;
    assert s1.projectiles == sc.projectiles;
    assert s2.enemies == s1.enemies;
  }

  // --------------------------------------------------------------- player

  /** healPlayer never takes health above the maximum and never lowers it:
      the player gains the full amount or is topped up to the maximum. */
  lemma HealPlayerClamps(sc: Scene, amount: int)
    requires sc.stats.health <= sc.stats.maxHealth
    requires amount >= 0
    ensures var r := HealPlayer(sc, amount);
      && sc.stats.health <= r.stats.health <= r.stats.maxHealth
      && (r.stats.health == sc.stats.health + amount || r.stats.health == sc.stats.maxHealth)
      && r == sc.(stats := sc.stats.(health := r.stats.health))
  {
  }

  /** damagePlayer: a no-op while invulnerable; otherwise the player loses
      the damage (8 on contact), becomes invulnerable, and the game-over
      screen is launched exactly when health reaches zero. */
  lemma DamagePlayerOutcome(sc: Scene, source: DamageSource)
    ensures var r := DamagePlayer(sc, source);
      var amount := if source.BossProjectile? then source.damage else 8;
      && (sc.isInvulnerable ==> r == sc)
      && (!sc.isInvulnerable ==>
            && r.isInvulnerable
            && r.stats == sc.stats.(health := sc.stats.health - amount)
            && (|r.launched| == |sc.launched| + 1 <==> r.stats.health <= 0)
            && (r.stats.health <= 0 ==> r.paused && r.launched[|sc.launched|] == GameOverScreen(sc.stats.level, sc.stats.floor))
            && (r.stats.health > 0 ==> r.launched == sc.launched))
  {
  }

  /** Two hits in a row without the invulnerability timer running out cost
      only the first: at most one game-over screen per window. */
  lemma SecondHitIgnored(sc: Scene, first: DamageSource, second: DamageSource)
    ensures DamagePlayer(DamagePlayer(sc, first), second) == DamagePlayer(sc, first)
  {
    DamagePlayerOutcome(sc, first);
  }

  // ------------------------------------------------------ experience, items

  /** collectExp: the gem is consumed and its experience added; with gems
      worth 20 and thresholds of at least 80, one level-up always suffices,
      after which the excess carries over, the threshold grows by 10%
      (rounded down), health is refilled and a skill choice is offered. */
  lemma CollectExpLevelsAtMostOnce(sc: Scene, g: nat, picks: seq<int>)
    requires Invariant(sc)
    requires g < |sc.expGems|
    requires Shuffle.Draws(|sc.available|, picks)
    ensures var r := CollectExp(sc, g, picks);
      var up := sc.stats.exp + 20 >= sc.stats.expToNextLevel;
      && r.stats.level == sc.stats.level + (if up then 1 else 0)
      && 0 <= r.stats.exp < r.stats.expToNextLevel
      && r.stats.exp + (if up then sc.stats.expToNextLevel else 0) == sc.stats.exp + 20
      && |r.expGems| == |sc.expGems| - 1
      && (up ==> && r.stats.expToNextLevel == NextThreshold(sc.stats.expToNextLevel)
                 && r.stats.health == r.stats.maxHealth
                 && r.paused
                 && |r.launched| == |sc.launched| + 1 && r.launched[|sc.launched|].SkillSelection?)
      && (!up ==> r.stats == sc.stats.(exp := sc.stats.exp + 20) && r.launched == sc.launched)
  {
    ThresholdGrows(sc.stats.expToNextLevel);
  }

  /** applySpecialItemEffect behaves as adding to a set: the effect is held
      afterwards, holding it twice is holding it once, and no other effect
      is added. */
  lemma SpecialEffectIsSetInsert(sc: Scene, effect: Effect)
    ensures var r := ApplySpecialItemEffect(sc, effect);
      && effect in r.stats.specialEffects
      && (set x | x in r.stats.specialEffects) == (set x | x in sc.stats.specialEffects) + {effect}
      && (Shuffle.Distinct(sc.stats.specialEffects) ==> Shuffle.Distinct(r.stats.specialEffects))
      && ApplySpecialItemEffect(r, effect) == r
  {
    var r := ApplySpecialItemEffect(sc, effect);
    assert effect in r.stats.specialEffects;
  }

  // ------------------------------------------------------------ invariant

  lemma InitialSceneValid()
    ensures Invariant(InitialScene())
  {
  }

  lemma UpdateKeepsInvariant(sc: Scene, time: int, rolls: seq<SpawnRoll>)
    requires Invariant(sc)
    requires |rolls| >= sc.enemiesPerSpawn
    ensures Invariant(Update(sc, time, rolls))
  {
    if sc.stats.health > 0 {
      SpawnTickRespectsCap(sc, time, rolls);
      UseSkillsStamps(SpawnTick(sc, time, rolls), time);
    }
  }

  lemma DamageEnemyKeepsInvariant(sc: Scene, e: int, damage: real, rolls: DeathRolls)
    requires Invariant(sc)
    requires |rolls.itemRolls| >= |ItemTypes|
    ensures Invariant(DamageEnemy(sc, e, damage, rolls))
  {
    if 0 <= e < |sc.enemies| && sc.enemies[e].active {
      var hit := sc.enemies[e].(health := sc.enemies[e].health - damage);
      DamageEnemyEffect(sc, e, damage, rolls);
      CountUpdate(sc.enemies, e, hit, true);
      CountUpdate(sc.enemies, e, hit, false);
      if hit.health <= 0.0 {
        if !hit.isBoss {
          KillRegularEnemy(sc, e, damage, rolls);
        } else {
          KillBoss(sc, e, damage, rolls);
        }
      }
    }
  }

  lemma HitEnemyKeepsInvariant(sc: Scene, p: nat, e: nat, rolls: DeathRolls)
    requires Invariant(sc)
    requires p < |sc.projectiles| && e < |sc.enemies|
    requires |rolls.itemRolls| >= |ItemTypes|
    ensures Invariant(HitEnemy(sc, p, e, rolls))
  {
    var proj := sc.projectiles[p];
    var damage := if proj.damage == 0.0 then 10.0 else proj.damage;
    DamageEnemyKeepsInvariant(sc, e, damage, rolls);
  }

  lemma DamagePlayerKeepsInvariant(sc: Scene, source: DamageSource)
    requires Invariant(sc)
    ensures Invariant(DamagePlayer(sc, source))
  {
  }

  lemma CollectExpKeepsInvariant(sc: Scene, g: nat, picks: seq<int>)
    requires Invariant(sc)
    requires g < |sc.expGems|
    requires Shuffle.Draws(|sc.available|, picks)
    ensures Invariant(CollectExp(sc, g, picks))
  {
    CollectExpLevelsAtMostOnce(sc, g, picks);
    var r := CollectExp(sc, g, picks);
    assert r.expGems == RemoveAt(sc.expGems, g);
    forall k | 0 <= k < |r.expGems| ensures r.expGems[k] == 20 {
      if k < g { assert r.expGems[k] == sc.expGems[k]; }
      else { assert r.expGems[k] == sc.expGems[k + 1]; }
    }
  }

  lemma UpgradeSkillKeepsInvariant(sc: Scene, id: SkillId)
    requires Invariant(sc)
    ensures Invariant(UpgradeSkill(sc, id))
  {
    UpgradeSkillRaisesOneLevel(sc, id);
  }

  lemma CollectItemKeepsInvariant(sc: Scene, k: int)
    requires Invariant(sc)
    ensures Invariant(CollectItem(sc, k))
  {
    if 0 <= k < |sc.items| {
      match sc.items[k]
      case ChickenLeg => HealPlayerClamps(sc, 30);
      case EnergyDrink =>
      case EnhancementChip =>
      case BossItem(effect) =>
        SpecialEffectIsSetInsert(sc, effect);
    }
  }
}
