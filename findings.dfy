/** Two places where the scene's code does not do what it evidently
    intends. For each, a lemma about the code as written exhibits the
    discrepancy, and a corrected definition is given with the intended
    property proved about it. */
module Findings {
  import opened Curves
  import opened GameState
  import GameRules
  import Shuffle

  // ------------------------------------------- the final boss never appears

  /** Killing the boss of floor 32 as the scene is written: the floor
      becomes 33 and the final boss is requested while the dying boss is
      still in its group, so spawnBoss hands back the dying boss (whose
      health is then scaled by 1.5) and no new enemy is created; the dying
      boss is destroyed right after. Floor 33 is left without any boss. */
  lemma FinalBossNeverAppears(sc: Scene, e: nat, damage: real, rolls: DeathRolls)
    requires Invariant(sc)
    requires |rolls.itemRolls| >= |ItemTypes|
    requires sc.stats.floor == 32
    requires e < |sc.enemies| && sc.enemies[e].active && sc.enemies[e].isBoss
    requires sc.enemies[e].health - damage <= 0.0
    ensures var r := DamageEnemy(sc, e, damage, rolls);
      && r.stats.floor == 33
      && CountActive(r.enemies, true) == 0
      && |r.enemies| == |sc.enemies|
  {
    GameRules.KillBoss(sc, e, damage, rolls);
    GameRules.DamageEnemyEffect(sc, e, damage, rolls);
    var hit := sc.enemies[e].(health := sc.enemies[e].health - damage);
    var s := sc.(enemies := sc.enemies[e := hit]);
    GameRules.CountUpdate(sc.enemies, e, hit, true);
    GameRules.CountUpdate(sc.enemies, e, sc.enemies[e].(active := false), true);
    var dropped := TrySpawnItem(SpawnExpGem(s), rolls.itemRolls);
    GameRules.AdvanceFloorEffect(dropped);
  }

  /** damageEnemy with the dying enemy destroyed before the kill is
      counted or the floor advanced, so that spawnBoss no longer finds it. */
  function DamageEnemyFixed(sc: Scene, e: int, damage: real, rolls: DeathRolls): (r: Scene)
    requires |rolls.itemRolls| >= |ItemTypes|
    ensures |r.enemies| >= |sc.enemies| && r.projectiles == sc.projectiles
  {
    if !(0 <= e < |sc.enemies|) || !sc.enemies[e].active then sc
    else
      var hit := sc.enemies[e].(health := sc.enemies[e].health - damage);
      var s := sc.(enemies := sc.enemies[e := hit]);
      if hit.health > 0.0 then s
      else
        var dropped := Destroy(TrySpawnItem(SpawnExpGem(s), rolls.itemRolls), e);
        if !hit.isBoss then CountKill(dropped) else BossDefeated(dropped, rolls.bossItem)
  }

  /** With the fix, killing the boss of floor 32 brings out the final
      boss: exactly one live boss on floor 33, Gaia, created with
      (2000 + 33 * 50) * 1.5 = 5475 health. */
  lemma FixedFinalBossAppears(sc: Scene, e: nat, damage: real, rolls: DeathRolls)
    requires Invariant(sc)
    requires |rolls.itemRolls| >= |ItemTypes|
    requires sc.stats.floor == 32
    requires e < |sc.enemies| && sc.enemies[e].active && sc.enemies[e].isBoss
    requires sc.enemies[e].health - damage <= 0.0
    ensures var r := DamageEnemyFixed(sc, e, damage, rolls);
      && r.stats.floor == 33
      && CountActive(r.enemies, true) == 1
      && |r.enemies| == |sc.enemies| + 1
      && r.enemies[|sc.enemies|] == Enemy(Gaia, 5475.0, 5475.0, true, true)
  {
    var hit := sc.enemies[e].(health := sc.enemies[e].health - damage);
    var s := sc.(enemies := sc.enemies[e := hit]);
    GameRules.CountUpdate(sc.enemies, e, hit, true);
    var dropped := Destroy(TrySpawnItem(SpawnExpGem(s), rolls.itemRolls), e);
    GameRules.CountUpdate(s.enemies, e, hit.(active := false), true);
    assert DamageEnemyFixed(sc, e, damage, rolls) == BossDefeated(dropped, rolls.bossItem);
    FinalFloorSpawnsGaia(dropped, rolls.bossItem);
  }

  /** Clearing floor 32 with no boss left in the group creates Gaia, with
      (2000 + 33 * 50) * 1.5 = 5475 health, as the only live boss. */
  lemma FinalFloorSpawnsGaia(sc: Scene, item: Effect)
    requires sc.stats.floor == 32
    requires CountActive(sc.enemies, true) == 0
    ensures var r := BossDefeated(sc, item);
      && r.stats.floor == 33
      && CountActive(r.enemies, true) == 1
      && |r.enemies| == |sc.enemies| + 1
      && r.enemies[|sc.enemies|] == Enemy(Gaia, 5475.0, 5475.0, true, true)
  {
    GameRules.AdvanceFloorEffect(sc);
    var f := sc.stats.(floor := 33, enemiesKilled := 0, enemiesRequiredForBoss := EnemiesRequiredForBoss(33));
    var a := sc.(stats := f, enemySpawnTime := NextSpawnTime(sc.enemySpawnTime),
                 enemySpeed := sc.enemySpeed + 5);
    GameRules.NoBossMeansZero(a.enemies);
    assert SpawnBoss(a, Gaia, 2000).1 == |sc.enemies|;
  }

  /** Everywhere else the fix changes nothing: regular kills, and boss
      kills below floor 32, end in the same state either way. */
  lemma FixAgreesElsewhere(sc: Scene, e: int, damage: real, rolls: DeathRolls)
    requires |rolls.itemRolls| >= |ItemTypes|
    requires 0 <= e < |sc.enemies| && sc.enemies[e].isBoss ==> sc.stats.floor != 32
    ensures DamageEnemyFixed(sc, e, damage, rolls) == DamageEnemy(sc, e, damage, rolls)
  {
    if 0 <= e < |sc.enemies| && sc.enemies[e].active {
      var hit := sc.enemies[e].(health := sc.enemies[e].health - damage);
      var s := sc.(enemies := sc.enemies[e := hit]);
      if hit.health <= 0.0 {
        var dropped := TrySpawnItem(SpawnExpGem(s), rolls.itemRolls);
        var gone := Destroy(dropped, e);
        assert DamageEnemyFixed(sc, e, damage, rolls)
            == (if !hit.isBoss then CountKill(gone) else BossDefeated(gone, rolls.bossItem));
        GameRules.DamageEnemyEffect(sc, e, damage, rolls);
        if !hit.isBoss {
          CountKillCommutes(dropped, e);
        } else {
          FloorAdvanceCommutes(dropped, e, rolls.bossItem);
        }
      }
    }
  }

  /** Destroying a regular enemy and counting a kill can be done in either order. */
  lemma CountKillCommutes(sc: Scene, e: nat)
    requires e < |sc.enemies| && !sc.enemies[e].isBoss
    ensures CountKill(Destroy(sc, e)) == Destroy(CountKill(sc), e)
  {
    var k1 := sc.(stats := sc.stats.(enemiesKilled := sc.stats.enemiesKilled + 1));
    assert Destroy(k1, e) == Destroy(sc, e).(stats := k1.stats);
    BossRequestCommutes(k1, e);
  }

  /** Below floor 32, destroying the boss and advancing the floor can be
      done in either order. */
  lemma FloorAdvanceCommutes(sc: Scene, e: nat, item: Effect)
    requires e < |sc.enemies|
    requires sc.stats.floor != 32
    ensures BossDefeated(Destroy(sc, e), item) == Destroy(BossDefeated(sc, item), e)
  {
    GameRules.AdvanceFloorEffect(sc);
    GameRules.AdvanceFloorEffect(Destroy(sc, e));
  }

  /** Destroying a regular enemy and requesting a floor boss can be done in
      either order. */
  lemma BossRequestCommutes(sc: Scene, e: nat)
    requires e < |sc.enemies| && !sc.enemies[e].isBoss
    ensures var k := sc.stats.enemiesKilled >= sc.stats.enemiesRequiredForBoss;
      (if k then SpawnBoss(Destroy(sc, e), FloorBoss, 500).0 else Destroy(sc, e))
      == Destroy(if k then SpawnBoss(sc, FloorBoss, 500).0 else sc, e)
  {
    GameRules.NoBossMeansZero(sc.enemies);
    GameRules.NoBossMeansZero(Destroy(sc, e).enemies);
    GameRules.CountUpdate(sc.enemies, e, sc.enemies[e].(active := false), true);
    var d := Destroy(sc, e);
    match FirstBoss(sc.enemies)
    case None =>
      var h := BossHealth(500, sc.stats.floor) as real;
      var b := Enemy(FloorBoss, h, h, true, true);
      assert (sc.enemies + [b])[e := sc.enemies[e].(active := false)] == d.enemies + [b];
    case Some(i) =>
      assert FirstBoss(d.enemies).Some?;
      assert FirstBoss(d.enemies) == Some(i) by {
        var j := FirstBoss(d.enemies).value;
        assert forall k :: 0 <= k < |sc.enemies| ==> (d.enemies[k].active && d.enemies[k].isBoss <==> sc.enemies[k].active && sc.enemies[k].isBoss);
      }
  }

  // ---------------------------------------- the basic ray listed twice

  /** As written, the basic ray's record has no `unlocked` flag while the
      ray is already in `skills`, so the first upgrade of the ray adds it
      to `skills` a second time. */
  lemma BasicRayListedTwice()
    ensures UpgradeSkill(InitialScene(), BasicRay).skills == [BasicRay, BasicRay]
    ensures SkillLevel(UpgradeSkill(InitialScene(), BasicRay).available, BasicRay) == 2
  {
  }

  /** The duplicate entry does not make the ray fire twice in one update:
      the second visit finds it stamped with the current time. */
  lemma DuplicateRayFiresOnce(time: int)
    ensures var sc := UpgradeSkill(InitialScene(), BasicRay);
      UseSkills(sc, time) == FireSkill(sc, BasicRay, time)
  {
    var sc := UpgradeSkill(InitialScene(), BasicRay);
    BasicRayListedTwice();
    var s1 := FireSkill(sc, BasicRay, time);
    assert sc.skills[1..] == [BasicRay];
    assert UseSkills(sc, time) == UseSkillsFrom(s1, [BasicRay], time);
    assert [BasicRay][1..] == [];
    GameRules.FindInTable(sc.available, BasicRay);
    GameRules.FireSkillStamps(sc, BasicRay, time);
    GameRules.FindInTable(s1.available, BasicRay);
  }

  /** The reset table with the basic ray's record marked unlocked, as the
      ray is already in `skills` when the run starts. */
  const FixedResetTable: seq<Skill> := ResetTable[0 := ResetTable[0].(unlocked := true)]

  function InitialSceneFixed(): Scene {
    InitialScene().(available := FixedResetTable)
  }

  /** `skills` lists exactly the records marked unlocked, each once. */
  ghost predicate SkillsMatchUnlocked(sc: Scene) {
    && TableShape(sc.available)
    && Shuffle.Distinct(sc.skills)
    && forall i :: 0 <= i < 4 ==> (sc.available[i].id in sc.skills <==> sc.available[i].unlocked)
  }

  lemma FixedStartMatches()
    ensures SkillsMatchUnlocked(InitialSceneFixed())
    ensures Invariant(InitialSceneFixed())
  {
    assert InitialSceneFixed().skills == [BasicRay];
  }

  /** With the records kept in step with `skills`, upgrades never list a
      skill twice. */
  lemma UpgradeKeepsSkillsMatching(sc: Scene, id: SkillId)
    requires SkillsMatchUnlocked(sc)
    ensures SkillsMatchUnlocked(UpgradeSkill(sc, id))
  {
    GameRules.UpgradeSkillRaisesOneLevel(sc, id);
    var r := UpgradeSkill(sc, id);
    var j := GameRules.Slot(id);
    if !sc.available[j].unlocked {
      assert id !in sc.skills;
      forall a, b | 0 <= a < b < |r.skills| ensures r.skills[a] != r.skills[b] {
        if b == |sc.skills| {
          assert r.skills[a] == sc.skills[a];
        }
      }
      forall i | 0 <= i < 4
        ensures r.available[i].id in r.skills <==> r.available[i].unlocked
      {
        assert r.available[i].id in r.skills <==> r.available[i].id in sc.skills || r.available[i].id == id;
      }
    }
  }

  /** An update fires skills but never changes which are unlocked or listed. */
  lemma UpdateKeepsSkillsMatching(sc: Scene, time: int, rolls: seq<SpawnRoll>)
    requires SkillsMatchUnlocked(sc)
    requires |rolls| >= sc.enemiesPerSpawn
    requires sc.enemiesPerSpawn >= 0
    ensures SkillsMatchUnlocked(Update(sc, time, rolls))
  {
    if sc.stats.health > 0 {
      GameRules.SpawnTickRespectsCap(sc, time, rolls);
      GameRules.UseSkillsStamps(SpawnTick(sc, time, rolls), time);
    }
  }
}
