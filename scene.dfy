/** The game scene as an object: the same state as GameState.Scene, held in
    fields that the scene's methods update in place, in the order the
    scene's code performs the updates. Each method is proved to leave the
    state that the corresponding function of GameState computes, and the
    entry points that the engine, the colliders and the overlay scenes call
    keep the invariant of GameState. */
module Scenes {
  import opened Curves
  import opened GameState
  import GameRules
  import Shuffle

  class GameScene {
    var playerStats: PlayerStats
    var skills: seq<SkillId>
    var availableSkills: seq<Skill>
    var enemySpawnTime: int
    var lastEnemySpawn: int
    var enemySpeed: int
    var maxEnemies: int
    var enemiesPerSpawn: int
    /** The enemies group; destroyed enemies stay with `active == false`. */
    var enemies: seq<Enemy>
    /** The player's projectiles group, kept the same way. */
    var projectiles: seq<Projectile>
    /** Experience gems on the ground, by their experience value. */
    var expGems: seq<int>
    /** Items on the ground. */
    var items: seq<ItemType>
    var isInvulnerable: bool
    /** Repeating gravity-wave timers started. */
    var gravityWaveTimers: nat
    var paused: bool
    /** Overlay scenes launched so far, oldest first. */
    var launched: seq<Launch>

    /** The state as a value. */
    function Model(): Scene
      reads this
    {
      Scene(playerStats, skills, availableSkills, enemySpawnTime, lastEnemySpawn, enemySpeed,
            maxEnemies, enemiesPerSpawn, enemies, projectiles, expGems, items,
            isInvulnerable, gravityWaveTimers, paused, launched)
    }

    ghost predicate Valid()
      reads this
    {
      Invariant(Model())
    }

    /** The constructor's first draft of the state, then create(): the
        reset and the basic ray as the first skill. The constructor leaves
        maxEnemies and enemiesPerSpawn undefined; they start at 0 here and
        the reset sets them. */
    constructor ()
      ensures Model() == InitialScene()
      ensures Valid()
    {
      playerStats := PlayerStats(1, 0, 100, 100, 100, 200, 1, 0, 0, 0, []);
      skills := [];
      availableSkills := [Skill(BasicRay, 1, 500, 0, false),
                          Skill(AreaAttack, 0, 3000, 0, false),
                          Skill(HomingMissile, 0, 2000, 0, false),
                          Skill(Shield, 0, 5000, 0, false)];
      enemySpawnTime := 1000;
      lastEnemySpawn := 0;
      enemySpeed := 100;
      maxEnemies := 0;
      enemiesPerSpawn := 0;
      enemies := [];
      projectiles := [];
      expGems := [];
      items := [];
      isInvulnerable := false;
      gravityWaveTimers := 0;
      paused := false;
      launched := [];
      new;
      ResetGameState();
      skills := skills + [availableSkills[0].id];
      GameRules.InitialSceneValid();
    }

    method ResetGameState()
      modifies this
      ensures Model() == GameState.ResetGameState(old(Model()))
    {
      ghost var sc := Model();
      playerStats := ResetStats;
      enemySpawnTime := 1000;
      lastEnemySpawn := 0;
      enemySpeed := 85;
      maxEnemies := 15;
      enemiesPerSpawn := 2;
      skills := [];
      availableSkills := ResetTable;
      assert Model() == Scene(ResetStats, [], ResetTable, 1000, 0, 85, 15, 2, sc.enemies, sc.projectiles,
                              sc.expGems, sc.items, sc.isInvulnerable, sc.gravityWaveTimers, sc.paused, sc.launched);
    }

    // ------------------------------------------------------------ spawning

    method SpawnEnemy(roll: SpawnRoll)
      modifies this
      ensures Model() == GameState.SpawnEnemy(old(Model()), roll)
    {
      var typed := TypedHealth(BaseEnemyHealth(playerStats.floor), HealthPercent(roll.kind));
      var health := Jittered(typed, roll.variation) as real;
      enemies := enemies + [Enemy(Robot(roll.kind), health, 0.0, false, true)];
    }

    /** update(time): the spawn tick, then the skills; nothing once the
        player is dead. `rolls` holds the draws of the enemies spawned. */
    method Update(time: int, rolls: seq<SpawnRoll>)
      requires Valid()
      requires |rolls| >= enemiesPerSpawn
      modifies this
      ensures Model() == GameState.Update(old(Model()), time, rolls)
      ensures Valid()
    {
      GameRules.UpdateKeepsInvariant(Model(), time, rolls);
      if playerStats.health <= 0 {
        return;
      }
      if time > lastEnemySpawn + enemySpawnTime {
        var regular := CountActive(enemies, false);
        if regular < maxEnemies {
          var spawnCount := if enemiesPerSpawn < maxEnemies - regular then enemiesPerSpawn else maxEnemies - regular;
          var i := 0;
          while i < spawnCount
            invariant 0 <= i <= SpawnCount(old(Model()))
            invariant Model() == SpawnEnemies(old(Model()), rolls[..i])
          {
            assert rolls[..i + 1][..i] == rolls[..i];
            SpawnEnemy(rolls[i]);
            i := i + 1;
          }
          assert i == SpawnCount(old(Model()));
        } else {
          assert rolls[..SpawnCount(old(Model()))] == [];
        }
        lastEnemySpawn := time;
      }
      UseSkills(time);
    }

    // -------------------------------------------------------------- skills

    /** useSkills(time): each entry of `skills` in order. */
    method UseSkills(time: int)
      modifies this
      ensures Model() == GameState.UseSkills(old(Model()), time)
    {
      var k := 0;
      while k < |skills|
        invariant 0 <= k <= |skills|
        invariant skills == old(skills)
        invariant UseSkillsFrom(Model(), skills[k..], time) == GameState.UseSkills(old(Model()), time)
      {
        assert skills[k..][1..] == skills[k + 1..];
        FireSkill(skills[k], time);
        k := k + 1;
      }
    }

    /** The body of useSkills' loop for one entry. */
    method FireSkill(id: SkillId, time: int)
      modifies this
      ensures Model() == GameState.FireSkill(old(Model()), id, time)
    {
      var found := FindSkill(availableSkills, id);
      if found.Some? {
        var i := found.value;
        var sk := availableSkills[i];
        if time > sk.lastFired + sk.cooldown && sk.level > 0 {
          match id {
            case BasicRay => FireProjectile();
            case AreaAttack =>
              // the area attack's damage pass depends on positions
            case HomingMissile => FireHomingMissile();
            case Shield => ActivateShield();
          }
          availableSkills := availableSkills[i := sk.(lastFired := time)];
        }
      }
    }

    /** fireProjectile: one bullet at the closest live enemy, if any. */
    method FireProjectile()
      modifies this
      ensures Model() == SkillEffect(old(Model()), BasicRay)
    {
      if HasLiveEnemy(enemies) {
        var damage := ((15 + playerStats.damageBoost) * SkillLevel(availableSkills, BasicRay)) as real;
        projectiles := projectiles + [Bullet(damage, playerStats.specialEffects)];
      }
    }

    /** fireHomingMissile: three missiles. */
    method FireHomingMissile()
      modifies this
      ensures Model() == SkillEffect(old(Model()), HomingMissile)
    {
      var m := Missile((20 * SkillLevel(availableSkills, HomingMissile)) as real);
      var i := 0;
      while i < 3
        invariant 0 <= i <= 3
        invariant projectiles == old(projectiles) + seq(i, _ => m)
        invariant Model() == old(Model()).(projectiles := projectiles)
      {
        projectiles := projectiles + [m];
        i := i + 1;
      }
      assert seq(3, _ => m) == [m, m, m];
    }

    method ActivateShield()
      modifies this
      ensures Model() == SkillEffect(old(Model()), Shield)
    {
      isInvulnerable := true;
    }

    /** getRandomSkillOptions(count): shuffle a copy of the table in place
        and return its first `count` records. */
    method GetRandomSkillOptions(count: int, picks: seq<int>) returns (options: seq<Skill>)
      requires Shuffle.Draws(|availableSkills|, picks)
      ensures options == Shuffle.Options(availableSkills, count, picks)
    {
      var s := availableSkills;
      var a := new Skill[|s|](k requires 0 <= k < |s| => s[k]);
      assert a[..] == s;
      var i := a.Length - 1;
      var used := 0;
      while i > 0
        invariant -1 <= i < a.Length
        invariant used == a.Length - 1 - i
        invariant 0 <= used <= |picks| || a.Length == 0
        invariant |picks[used..]| == (if i <= 0 then 0 else i)
        invariant forall k :: 0 <= k < |picks| - used ==> 0 <= picks[used..][k] <= i - k
        invariant Shuffle.ShuffleDown(a[..], i, picks[used..]) == Shuffle.Shuffled(s, picks)
      {
        var j := picks[used];
        ghost var before := a[..];
        assert picks[used..][1..] == picks[used + 1..];
        a[i], a[j] := a[j], a[i];
        assert a[..] == Shuffle.Swap(before, i, j);
        i := i - 1;
        used := used + 1;
      }
      options := a[..Shuffle.SliceEnd(a.Length, count)];
    }

    /** upgradeSkill(id), called by the skill selection overlay. */
    method UpgradeSkill(id: SkillId)
      requires Valid()
      modifies this
      ensures Model() == GameState.UpgradeSkill(old(Model()), id)
      ensures Valid()
    {
      GameRules.UpgradeSkillKeepsInvariant(Model(), id);
      var found := FindSkill(availableSkills, id);
      if found.Some? {
        var i := found.value;
        var sk := availableSkills[i];
        availableSkills := availableSkills[i := sk.(level := sk.level + 1)];
        if !sk.unlocked {
          availableSkills := availableSkills[i := availableSkills[i].(unlocked := true)];
          skills := skills + [id];
        }
      }
    }

    // ------------------------------------------------------ combat, drops

    /** hitEnemy(projectile, enemy), called by the projectile/enemy collider. */
    method HitEnemy(p: nat, e: nat, rolls: DeathRolls)
      requires Valid()
      requires p < |projectiles| && e < |enemies|
      requires |rolls.itemRolls| >= |ItemTypes|
      modifies this
      ensures Model() == GameState.HitEnemy(old(Model()), p, e, rolls)
      ensures Valid()
    {
      GameRules.HitEnemyKeepsInvariant(Model(), p, e, rolls);
      var proj := projectiles[p];
      var damage := if proj.damage == 0.0 then 10.0 else proj.damage;
      DamageEnemy(e, damage, rolls);
      if proj.canSplit && enemies[e].health <= 0.0 {
        CreateSplitProjectiles(proj);
      }
      if !proj.isPiercing {
        projectiles := projectiles[p := projectiles[p].(active := false)];
      }
    }

    /** damageEnemy(enemy, damage). */
    method DamageEnemy(e: int, damage: real, rolls: DeathRolls)
      requires Valid()
      requires |rolls.itemRolls| >= |ItemTypes|
      modifies this
      ensures Model() == GameState.DamageEnemy(old(Model()), e, damage, rolls)
      ensures Valid()
    {
      GameRules.DamageEnemyKeepsInvariant(Model(), e, damage, rolls);
      if !(0 <= e < |enemies|) || !enemies[e].active {
        return;
      }
      var hit := enemies[e].(health := enemies[e].health - damage);
      enemies := enemies[e := hit];
      if hit.health <= 0.0 {
        SpawnExpGem();
        TrySpawnItem(rolls.itemRolls);
        if !hit.isBoss {
          CountKill();
        } else {
          BossDefeated(rolls.bossItem);
        }
        ghost var settled := Model();
        enemies := enemies[e := enemies[e].(active := false)];
        assert Model() == Destroy(settled, e);
      }
    }

    /** damageEnemy's branch for a regular enemy's death. */
    method CountKill()
      modifies this
      ensures Model() == GameState.CountKill(old(Model()))
    {
      ghost var sc := Model();
      playerStats := playerStats.(enemiesKilled := playerStats.enemiesKilled + 1);
      assert Model() == sc.(stats := sc.stats.(enemiesKilled := sc.stats.enemiesKilled + 1));
      if playerStats.enemiesKilled >= playerStats.enemiesRequiredForBoss {
        var boss := SpawnBoss(FloorBoss, 500);
      }
    }

    /** damageEnemy's branch for a boss's death: the floor advances and a
        chicken leg and the rolled boss item drop. */
    method BossDefeated(bossItem: Effect)
      modifies this
      ensures Model() == GameState.BossDefeated(old(Model()), bossItem)
    {
      AdvanceFloor();
      items := items + [ChickenLeg, BossItem(bossItem)];
    }

    method SpawnExpGem()
      modifies this
      ensures Model() == GameState.SpawnExpGem(old(Model()))
    {
      expGems := expGems + [20];
    }

    /** trySpawnItem: roll each regular item type in order; the first
        success drops that item and ends the rolling. */
    method TrySpawnItem(rolls: seq<real>)
      requires |rolls| >= |ItemTypes|
      modifies this
      ensures Model() == GameState.TrySpawnItem(old(Model()), rolls)
    {
      var k := 0;
      while k < |ItemTypes|
        invariant 0 <= k <= |ItemTypes|
        invariant Model() == old(Model())
        invariant FirstDrop(rolls, k) == FirstDrop(rolls, 0)
      {
        if rolls[k] < DropChance(ItemTypes[k]) {
          items := items + [ItemTypes[k]];
          return;
        }
        k := k + 1;
      }
    }

    /** spawnBoss(name, base): returns the boss, new or already present. */
    method SpawnBoss(name: EnemyName, base: int) returns (boss: nat)
      modifies this
      ensures (Model(), boss) == GameState.SpawnBoss(old(Model()), name, base)
    {
      var existing := FirstBoss(enemies);
      if existing.Some? {
        return existing.value;
      }
      var h := BossHealth(base, playerStats.floor) as real;
      enemies := enemies + [Enemy(name, h, h, true, true)];
      boss := |enemies| - 1;
    }

    method AdvanceFloor()
      modifies this
      ensures Model() == GameState.AdvanceFloor(old(Model()))
    {
      var f := playerStats.floor + 1;
      playerStats := playerStats.(floor := f, enemiesKilled := 0, enemiesRequiredForBoss := EnemiesRequiredForBoss(f));
      enemySpawnTime := NextSpawnTime(enemySpawnTime);
      enemySpeed := enemySpeed + 5;
      if f == 33 {
        var b := SpawnBoss(Gaia, 2000);
        var finalBoss := enemies[b];
        var h := finalBoss.health * 1.5;
        enemies := enemies[b := finalBoss.(health := h, maxHealth := h)];
      }
    }

    /** createSplitProjectiles(parent): three children at half damage. */
    method CreateSplitProjectiles(parent: Projectile)
      modifies this
      ensures Model() == GameState.CreateSplitProjectiles(old(Model()), parent)
    {
      var damage := parent.damage * 0.5;
      var child := Projectile(damage, false, false, false, false, true);
      var i := 0;
      while i < 3
        invariant 0 <= i <= 3
        invariant projectiles == old(projectiles) + seq(i, _ => child)
        invariant Model() == old(Model()).(projectiles := projectiles)
      {
        projectiles := projectiles + [child];
        i := i + 1;
      }
      assert seq(3, _ => child) == [child, child, child];
    }

    // -------------------------------------------------------------- player

    method HealPlayer(amount: int)
      modifies this
      ensures Model() == GameState.HealPlayer(old(Model()), amount)
    {
      var h := playerStats.health + amount;
      playerStats := playerStats.(health := if h < playerStats.maxHealth then h else playerStats.maxHealth);
    }

    /** damagePlayer(player, source), called by the player/enemy and the
        player/boss-projectile colliders. */
    method DamagePlayer(source: DamageSource)
      requires Valid()
      modifies this
      ensures Model() == GameState.DamagePlayer(old(Model()), source)
      ensures Valid()
    {
      GameRules.DamagePlayerKeepsInvariant(Model(), source);
      if isInvulnerable {
        return;
      }
      if source.BossProjectile? {
        playerStats := playerStats.(health := playerStats.health - source.damage);
      } else {
        playerStats := playerStats.(health := playerStats.health - 8);
      }
      isInvulnerable := true;
      if playerStats.health <= 0 {
        GameOver();
      }
    }

    method GameOver()
      modifies this
      ensures Model() == GameState.GameOver(old(Model()))
    {
      paused := true;
      launched := launched + [GameOverScreen(playerStats.level, playerStats.floor)];
    }

    // ------------------------------------------------- experience, levels

    /** collectExp(player, gem), called by the player/gem overlap. */
    method CollectExp(g: nat, picks: seq<int>)
      requires Valid()
      requires g < |expGems|
      requires Shuffle.Draws(|availableSkills|, picks)
      modifies this
      ensures Model() == GameState.CollectExp(old(Model()), g, picks)
      ensures Valid()
    {
      GameRules.CollectExpKeepsInvariant(Model(), g, picks);
      playerStats := playerStats.(exp := playerStats.exp + expGems[g]);
      if playerStats.exp >= playerStats.expToNextLevel {
        LevelUp(picks);
      }
      expGems := RemoveAt(expGems, g);
    }

    method LevelUp(picks: seq<int>)
      requires Shuffle.Draws(|availableSkills|, picks)
      modifies this
      ensures Model() == GameState.LevelUp(old(Model()), picks)
    {
      playerStats := playerStats.(level := playerStats.level + 1);
      playerStats := playerStats.(exp := playerStats.exp - playerStats.expToNextLevel);
      playerStats := playerStats.(expToNextLevel := NextThreshold(playerStats.expToNextLevel));
      playerStats := playerStats.(health := playerStats.maxHealth);
      ShowSkillSelection(picks);
    }

    method ShowSkillSelection(picks: seq<int>)
      requires Shuffle.Draws(|availableSkills|, picks)
      modifies this
      ensures Model() == GameState.ShowSkillSelection(old(Model()), picks)
    {
      paused := true;
      var options := GetRandomSkillOptions(3, picks);
      launched := launched + [SkillSelection(options)];
    }

    // --------------------------------------------------------------- items

    /** collectItem(player, item), called by the player/item overlap;
        `k` is the item's position among the items on the ground. */
    method CollectItem(k: int)
      requires Valid()
      modifies this
      ensures Model() == GameState.CollectItem(old(Model()), k)
      ensures Valid()
    {
      GameRules.CollectItemKeepsInvariant(Model(), k);
      if !(0 <= k < |items|) {
        return;
      }
      ghost var sc := Model();
      var item := items[k];
      match item {
        case ChickenLeg => HealPlayer(30);
        case EnergyDrink => playerStats := playerStats.(speed := playerStats.speed + 20);
        case EnhancementChip => playerStats := playerStats.(damageBoost := playerStats.damageBoost + 5);
        case BossItem(effect) => ApplySpecialItemEffect(effect);
      }
      assert Model() == ItemEffect(sc, item);
      items := RemoveAt(items, k);
    }

    method ApplySpecialItemEffect(effect: Effect)
      modifies this
      ensures Model() == GameState.ApplySpecialItemEffect(old(Model()), effect)
    {
      if effect !in playerStats.specialEffects {
        playerStats := playerStats.(specialEffects := playerStats.specialEffects + [effect]);
        if effect == Wave {
          gravityWaveTimers := gravityWaveTimers + 1;
        }
      }
    }
  }
}
