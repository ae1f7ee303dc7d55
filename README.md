# Game scene model

This project models the bookkeeping core of `GameScene`, the main scene of
a browser rogue-lite shooter built on Phaser. The player climbs floors by
killing robots. A floor boss appears once the floor's kill quota is met, and
killing it advances the floor. Skills fire automatically on cooldowns. Gems
give experience, and each level-up offers three shuffled skills. Items heal,
boost or grant permanent projectile effects.

The model is split into six modules:

- `Curves` (curves.dfy) holds the difficulty formulas the scene evaluates
  inline: kill quota, enemy health, rounding, boss health, experience
  thresholds and spawn interval. The kill quota and the base health are
  proved equal to step-by-step reference definitions; rounding, the health
  variation, the threshold and the spawn interval have bounds proved
  against them. Boss health, `base + floor * 50`, is a plain formula; it is
  pinned by `GameRules.SpawnBossAddsAtMostOne` and
  `Findings.FixedFinalBossAppears`.
- `Shuffle` (shuffle.dfy) is the Fisher-Yates shuffle and prefix slice of
  `getRandomSkillOptions`.
- `GameState` (state.dfy) holds the whole scene state as one value,
  `Scene`. Each scene method is a function from the state before to the
  state after.
- `GameRules` (rules.dfy) proves what the operations promise: boss
  uniqueness, the spawn cap, cooldown stamping, drops, the floor
  progression, invulnerability and level-ups. It also proves a scene
  invariant that every entry point preserves.
- `Scenes.GameScene` (scene.dfy) is the scene as a class. Its fields are
  updated in place, and its loops (spawning, firing skills, the shuffle,
  the item roll, missiles and split projectiles) carry invariants. Every
  method ensures that its new state equals the matching `GameState`
  function applied to the old state. The public entry points also keep
  `Valid()`, which is the invariant.
- `Findings` (findings.dfy) covers two defects of the code as written. For
  each it gives the corrected definition and proves the intended property.

Modelling conventions:

- Every `Math.random()` draw is a parameter: the spawn roll, the item rolls,
  the boss item and the shuffle's picks.
- Phaser groups are sequences. A destroyed enemy or projectile stays in
  place with `active == false`, so its index keeps naming one entity, and
  the live entries are the group's children. Collected gems and items are
  instead removed from their sequences, so the indices of later gems and
  items shift down by one.
- Enemy health and projectile damage are exact reals. `Math.round` and
  `Math.floor` are written out on integers.
- `skills` holds skill identities rather than references to the records of
  `availableSkills`. The model looks each one up in the table, as
  `useSkills` does by reference.
- Enemy, skill and item names are enums. The scene dispatches on display
  strings instead.

The game's goal is floor 33: the player's quote "I must reach the 33rd
floor" (GameScene.js:205) and the final boss requested on floor 33
(GameScene.js:2429-2438). The code never caps the floor, though:
`advanceFloor` increments it without a limit and only special-cases
floor 33. The model follows the code, and
`GameRules.AdvanceFloorEffect` states the uncapped increment.

The class models the code as written, including both defects listed under
"## Findings". The corrected definitions sit beside it in `Findings`.

## Model

| member | source | states |
|---|---|---|
| Curves.QuotaMatchesSteps | src/game/scenes/GameScene.js:2406-2417 | the closed-form kill quota equals 10 on floor 1 plus 10/15/20 per floor climbed |
| Curves.QuotaIncreases | src/game/scenes/GameScene.js:2406-2417 | the kill quota strictly increases with the floor |
| Curves.BaseHealthMatchesSteps | src/game/scenes/GameScene.js:747-759 | regular enemy base health equals 15 on floor 1 plus 3/5/8 per floor climbed |
| Curves.BaseHealthNonDecreasing | src/game/scenes/GameScene.js:747-759 | enemies never get weaker on a higher floor |
| Curves.RoundRatio | src/game/scenes/GameScene.js:761-762 | the result is within half a unit of num/den, with halves rounding up, as Math.round does |
| Curves.Round | src/game/scenes/GameScene.js:766 | Math.round on a real: the nearest integer, halves rounding up |
| Curves.TypedHealth | src/game/scenes/GameScene.js:761-762 | health after the type multiplier is the rounded product of base and percentage |
| Curves.JitterWithinTenPercent | src/game/scenes/GameScene.js:764-766 | the random variation keeps health within 10% of the typed health, up to rounding |
| Curves.ThresholdGrows | src/game/scenes/GameScene.js:2186-2187 | the next experience threshold never shrinks and grows by at least one from 10 up |
| Curves.NextSpawnTime | src/game/scenes/GameScene.js:2424-2425 | the spawn interval is max(200, t - 50): 50 ms shorter, or 200 ms when that would go below 200 |
| Shuffle.ShuffleDownPermutes | src/game/scenes/GameScene.js:2210-2222 | the Fisher-Yates loop yields a permutation and keeps distinct entries distinct |
| Shuffle.OptionsArePermutationPrefix | src/game/scenes/GameScene.js:2210-2222 | the options have length min(count, n), come from the table at most as often as they occur, and are distinct when the table is |
| GameState.FindSkill | src/game/scenes/GameScene.js:2226 | returns the first index whose record has the name, or none exactly when no record has it |
| GameState.HealthPercent | src/game/scenes/GameScene.js:246-283 | every enemy type's health multiplier is positive |
| GameState.FirstBoss | src/game/scenes/GameScene.js:2453-2458 | returns the first live boss, or none exactly when there is no live boss |
| GameState.SpawnCount | src/game/scenes/GameScene.js:312-317 | one tick never spawns more than enemiesPerSpawn |
| GameState.SkillEffect | src/game/scenes/GameScene.js:892-908 | firing a skill never changes the skill table or the skills list; the projectiles it launches are stated by GameRules.FireSkillProjectiles |
| GameState.FireSkill | src/game/scenes/GameScene.js:895-906 | one useSkills step keeps the skills list and the table's length |
| GameState.SpawnBoss | src/game/scenes/GameScene.js:2450-2538 | the returned index is a live boss, no enemy is removed and projectiles are untouched |
| GameState.AdvanceFloor | src/game/scenes/GameScene.js:2399-2448 | no enemy is removed and projectiles are untouched |
| GameState.CountKill | src/game/scenes/GameScene.js:1392-1399 | counting a kill removes no enemy and leaves projectiles untouched |
| GameState.BossDefeated | src/game/scenes/GameScene.js:1403-1419 | a boss death removes no enemy and leaves projectiles untouched |
| GameState.DamageEnemy | src/game/scenes/GameScene.js:1364-1424 | damaging an enemy keeps every entry and leaves projectiles untouched |
| GameRules.NoBossMeansZero | src/game/scenes/GameScene.js:2453-2458 | there is no live boss to find exactly when the live-boss count is zero |
| GameRules.SpawnBossAddsAtMostOne | src/game/scenes/GameScene.js:2450-2538 | an existing boss is returned with nothing changed; otherwise exactly one boss is appended at the end, at the old length as index, with base + floor * 50 health; regular enemies are unaffected |
| GameRules.SpawnBossIdempotent | src/game/scenes/GameScene.js:2450-2458 | asking for a boss twice is the same as asking once |
| GameRules.SpawnedEnemyAlive | src/game/scenes/GameScene.js:747-766 | every spawned enemy starts with at least 11 health on any floor |
| GameRules.SpawnEnemiesAppends | src/game/scenes/GameScene.js:697-778 | spawning appends one live regular enemy per roll, with the rolled type and the floor's health, and changes nothing else |
| GameRules.SpawnTickRespectsCap | src/game/scenes/GameScene.js:309-324 | a tick fires only after the interval and restarts it; it tops regular enemies up by enemiesPerSpawn but never past maxEnemies; bosses are unaffected |
| GameRules.FindInTable | src/game/scenes/GameScene.js:2240-2243 | in the reset table every skill is found at its fixed slot, and getSkillLevel reads that slot |
| GameRules.FireSkillStamps | src/game/scenes/GameScene.js:895-906 | one step stamps the referenced record exactly when it was ready, leaves other records alone, and raises the shield only when the shield fired |
| GameRules.FireSkillProjectiles | src/game/scenes/GameScene.js:892-1195 | a skill that is not ready launches nothing; a ready ray launches one bullet of (15 + damageBoost) * level damage with the held effects when an enemy is alive; a ready missile skill launches three missiles of 20 * level; area attack and shield launch nothing |
| GameRules.UseSkillsFromFrame | src/game/scenes/GameScene.js:892-908 | firing skills changes only the table stamps, appends projectiles and sets invulnerability exactly when a ready shield fired |
| GameRules.UseSkillsFromStamps | src/game/scenes/GameScene.js:892-908 | after the loop each record is stamped with the time exactly when it is listed and was ready |
| GameRules.UseSkillsStamps | src/game/scenes/GameScene.js:892-908 | useSkills over the whole skills list stamps exactly the listed ready records |
| GameRules.UpgradeSkillRaisesOneLevel | src/game/scenes/GameScene.js:2224-2238 | the table changes only in the named record, which gains one level and is marked unlocked; the skill is appended to skills exactly when it was not unlocked before; nothing else changes |
| GameRules.SkillOptionsFromTable | src/game/scenes/GameScene.js:2196-2222 | a level-up offers exactly three different records, each from the table |
| GameRules.FirstDropIsFirstSuccess | src/game/scenes/GameScene.js:1427-1435 | the dropped item is the first type whose roll is below its chance; none drops exactly when every roll fails |
| GameRules.DeathDrops | src/game/scenes/GameScene.js:1385-1390 | a death drops one gem worth 20 and at most one regular item |
| GameRules.CountKillEffect | src/game/scenes/GameScene.js:1392-1399 | a kill is counted, and afterwards a boss is present exactly when one was already or the quota is met |
| GameRules.AdvanceFloorEffect | src/game/scenes/GameScene.js:2399-2448 | the floor increments without a cap, kills reset, the quota is the new floor's, spawns speed up; below floor 33 enemies are untouched; on 33 a boss is present afterwards |
| GameRules.AdvanceFloorProgress | src/game/scenes/GameScene.js:2399-2426 | the new quota equals the step-by-step quota and exceeds the old one; the spawn interval shrinks down to 200 ms |
| GameRules.BossDefeatedEffect | src/game/scenes/GameScene.js:1403-1419 | a boss death moves to the next floor with no kills and its own quota, shortens the spawn interval and speeds enemies up, drops a chicken leg then the boss item, adds no gem, and below floor 33 leaves the enemies as they were |
| GameRules.DeadEnemyIgnored | src/game/scenes/GameScene.js:1364-1366 | damaging an enemy that is gone, or not in the group, changes nothing |
| GameRules.SecondKillIgnored | src/game/scenes/GameScene.js:1364-1422 | a second hit on an enemy the first hit killed changes nothing: one kill, one set of drops |
| GameRules.KillRegularEnemy | src/game/scenes/GameScene.js:1364-1424 | killing a regular enemy removes it, adds a gem and at most one item, and counts the kill; the boss appears exactly when the quota is met; nothing else changes |
| GameRules.KillBoss | src/game/scenes/GameScene.js:1403-1422 | killing the boss advances the floor, drops a gem, a chicken leg and the boss item, and takes the boss away |
| GameRules.DamageEnemyTarget | src/game/scenes/GameScene.js:1364-1424 | the hit enemy is gone exactly when its health reached zero; a survivor has exactly the damage subtracted |
| GameRules.HitEnemyFate | src/game/scenes/GameScene.js:1299-1362 | the enemy takes the projectile's damage (10 if none); the projectile survives only if it pierces; exactly three plain children appear when a splitting shot kills |
| GameRules.HealPlayerClamps | src/game/scenes/GameScene.js:1963-1966 | healing adds the full amount or tops up to maxHealth, never beyond it |
| GameRules.DamagePlayerOutcome | src/game/scenes/GameScene.js:1993-2080 | nothing happens while invulnerable; otherwise the player loses 8 or the projectile's damage, becomes invulnerable, and the game-over screen launches exactly when health reaches zero |
| GameRules.SecondHitIgnored | src/game/scenes/GameScene.js:1993-2000 | a second hit before invulnerability ends changes nothing |
| GameRules.CollectExpLevelsAtMostOnce | src/game/scenes/GameScene.js:2150-2194 | a gem adds 20 experience and is consumed; the player levels up at most once, carrying the surplus, growing the threshold, refilling health and offering skills |
| GameRules.SpecialEffectIsSetInsert | src/game/scenes/GameScene.js:1753-1787 | a special effect is added as to a set: held afterwards, never listed twice, and applying it again changes nothing |
| GameRules.InitialSceneValid | src/game/scenes/GameScene.js:48-299 | the state create() leaves satisfies the scene invariant |
| GameRules.UpdateKeepsInvariant | src/game/scenes/GameScene.js:302-324 | update preserves the scene invariant: at most one boss, regular enemies capped, table shape, experience bounds |
| GameRules.DamageEnemyKeepsInvariant | src/game/scenes/GameScene.js:1364-1424 | damageEnemy preserves the scene invariant |
| GameRules.HitEnemyKeepsInvariant | src/game/scenes/GameScene.js:1299-1362 | hitEnemy preserves the scene invariant |
| GameRules.DamagePlayerKeepsInvariant | src/game/scenes/GameScene.js:1993-2080 | damagePlayer preserves the scene invariant |
| GameRules.CollectExpKeepsInvariant | src/game/scenes/GameScene.js:2150-2177 | collectExp preserves the scene invariant, including experience below the threshold |
| GameRules.UpgradeSkillKeepsInvariant | src/game/scenes/GameScene.js:2224-2238 | upgradeSkill preserves the scene invariant |
| GameRules.CollectItemKeepsInvariant | src/game/scenes/GameScene.js:1685-1750 | collectItem preserves the scene invariant, including health at most maxHealth |
| Scenes.GameScene.constructor | src/game/scenes/GameScene.js:5-39 | construction followed by create() leaves the initial state, which satisfies the invariant |
| Scenes.GameScene.ResetGameState | src/game/scenes/GameScene.js:187-299 | installs the reset stats, settings and skill table and empties skills |
| Scenes.GameScene.SpawnEnemy | src/game/scenes/GameScene.js:697-778 | appends the rolled regular enemy |
| Scenes.GameScene.Update | src/game/scenes/GameScene.js:302-324 | the spawn loop and skill firing compute GameState.Update and keep the invariant |
| Scenes.GameScene.UseSkills | src/game/scenes/GameScene.js:892-908 | the forEach over skills computes GameState.UseSkills |
| Scenes.GameScene.FireSkill | src/game/scenes/GameScene.js:895-906 | one cooldown check, effect and stamp |
| Scenes.GameScene.FireProjectile | src/game/scenes/GameScene.js:910-992 | adds a ray with the damage and effect flags when an enemy is alive |
| Scenes.GameScene.FireHomingMissile | src/game/scenes/GameScene.js:1172-1195 | adds three homing missiles at 20 damage per level |
| Scenes.GameScene.ActivateShield | src/game/scenes/GameScene.js:1243-1254 | makes the player invulnerable |
| Scenes.GameScene.GetRandomSkillOptions | src/game/scenes/GameScene.js:2210-2222 | the in-place Fisher-Yates loop on a copy returns the shuffled prefix |
| Scenes.GameScene.UpgradeSkill | src/game/scenes/GameScene.js:2224-2238 | computes GameState.UpgradeSkill and keeps the invariant |
| Scenes.GameScene.HitEnemy | src/game/scenes/GameScene.js:1299-1362 | computes GameState.HitEnemy and keeps the invariant |
| Scenes.GameScene.DamageEnemy | src/game/scenes/GameScene.js:1364-1424 | computes GameState.DamageEnemy, in the source's order, and keeps the invariant |
| Scenes.GameScene.CountKill | src/game/scenes/GameScene.js:1392-1399 | counts the kill and requests the floor boss when the quota is met |
| Scenes.GameScene.BossDefeated | src/game/scenes/GameScene.js:1403-1419 | advances the floor and drops the two boss rewards |
| Scenes.GameScene.SpawnExpGem | src/game/scenes/GameScene.js:2082-2148 | adds a gem worth 20 |
| Scenes.GameScene.TrySpawnItem | src/game/scenes/GameScene.js:1427-1435 | the loop with early return drops the first successful item |
| Scenes.GameScene.SpawnBoss | src/game/scenes/GameScene.js:2450-2538 | returns the existing boss or the new one, with the new state |
| Scenes.GameScene.AdvanceFloor | src/game/scenes/GameScene.js:2399-2448 | computes GameState.AdvanceFloor, including the final boss on floor 33 |
| Scenes.GameScene.CreateSplitProjectiles | src/game/scenes/GameScene.js:1895-1912 | the loop adds three children at half damage |
| Scenes.GameScene.HealPlayer | src/game/scenes/GameScene.js:1963-1966 | heals with the maxHealth clamp |
| Scenes.GameScene.DamagePlayer | src/game/scenes/GameScene.js:1993-2080 | computes GameState.DamagePlayer and keeps the invariant |
| Scenes.GameScene.GameOver | src/game/scenes/GameScene.js:2388-2397 | pauses and launches the game-over screen |
| Scenes.GameScene.CollectExp | src/game/scenes/GameScene.js:2150-2177 | computes GameState.CollectExp and keeps the invariant |
| Scenes.GameScene.LevelUp | src/game/scenes/GameScene.js:2179-2194 | raises the level, carries the surplus, grows the threshold, refills health and offers skills |
| Scenes.GameScene.ShowSkillSelection | src/game/scenes/GameScene.js:2196-2208 | pauses and launches the selection with three shuffled options |
| Scenes.GameScene.CollectItem | src/game/scenes/GameScene.js:1685-1750 | computes GameState.CollectItem and keeps the invariant |
| Scenes.GameScene.ApplySpecialItemEffect | src/game/scenes/GameScene.js:1753-1798 | records a new effect once and starts the wave timer for the first wave item |
| Findings.FinalBossNeverAppears | src/game/scenes/GameScene.js:1403-1422 | as written, killing the floor-32 boss reaches floor 33 with no boss at all and no enemy added |
| Findings.DamageEnemyFixed | src/game/scenes/GameScene.js:1364-1424 | the corrected damageEnemy removes no entry and leaves projectiles untouched |
| Findings.FixedFinalBossAppears | src/game/scenes/GameScene.js:2429-2447 | with the dying boss destroyed first, floor 33 starts with exactly one boss: Gaia with 5475 health |
| Findings.FinalFloorSpawnsGaia | src/game/scenes/GameScene.js:2429-2438 | clearing floor 32 with no boss left creates Gaia with 5475 health as the only live boss |
| Findings.FixAgreesElsewhere | src/game/scenes/GameScene.js:1364-1424 | the fix changes nothing except for the boss kill on floor 32 |
| Findings.CountKillCommutes | src/game/scenes/GameScene.js:1392-1422 | destroying a regular enemy and counting the kill commute |
| Findings.FloorAdvanceCommutes | src/game/scenes/GameScene.js:1403-1422 | below floor 32, destroying the boss and advancing the floor commute |
| Findings.BossRequestCommutes | src/game/scenes/GameScene.js:1392-1399 | destroying a regular enemy and requesting a floor boss commute |
| Findings.BasicRayListedTwice | src/game/scenes/GameScene.js:293-299 | as written, the first ray upgrade lists the ray twice in skills |
| Findings.DuplicateRayFiresOnce | src/game/scenes/GameScene.js:892-908 | the duplicate entry still fires the ray only once per update |
| Findings.FixedStartMatches | src/game/scenes/GameScene.js:176-178 | with the ray's record marked unlocked, the start lists exactly the unlocked skills, once each, and is valid |
| Findings.UpgradeKeepsSkillsMatching | src/game/scenes/GameScene.js:2224-2238 | upgrades keep skills equal to the unlocked records, each listed once |
| Findings.UpdateKeepsSkillsMatching | src/game/scenes/GameScene.js:302-324 | updates never change which skills are unlocked or listed |

## Left out

- Positions, velocities, physics bodies, collisions and knockback. Hits and pickups are operations on given indices.
- Tweens, particles, the UI, floating text, boss quotes, the camera and sounds. They do not change the state.
- Timers and delayed calls: boost reverts, invulnerability ending after 1000 ms, gem and item lifespans, the gravity wave's pulses and missile retargeting. `isInvulnerable` is cleared by no modelled operation, and the wave timer is only counted.
- The area attack's damage pass, because it selects enemies by distance. Its damage reaches the model through `DamageEnemy`.
- Boss movement, attack patterns, scale and attack cooldown. A boss projectile's damage (15) is the `BossProjectile` parameter of `DamagePlayer`.
- `updateEnemies` and the projectile update, which only move entities.
- Input handling, the other scenes and the overlay scenes' own logic. The launches are recorded in `launched`.
- Floating point. Health and damage are exact reals, so values that differ from JavaScript only by rounding error are not modelled.
- The spawn side and position rolls of spawnEnemy, and the quote roll of spawnBoss. They do not affect the state.
- The English-named first draft of the skill table in the constructor. `ConstructedScene` keeps its values, and `resetGameState` replaces it before use.
- GameRules.SpawnTickRespectsCap: requires `enemiesPerSpawn >= 0`. The scene always has 2, which the invariant records.
- Findings.UpdateKeepsSkillsMatching: requires `enemiesPerSpawn >= 0` for the same reason.
- `paused` is set by the skill selection and the game-over screen but cleared by no modelled operation. The selection scene resumes the game scene from its own code, which is not part of this model.
- GameState.SpawnBoss: states frame facts only. The full effect is in `GameRules.SpawnBossAddsAtMostOne`.

## Findings

| source | as written | input that shows it | evidently intended | confidence | as-written member | corrected member |
|---|---|---|---|---|---|---|
| src/game/scenes/GameScene.js:1403-1422 | the floor advance runs before the dying boss is destroyed, so `spawnBoss` for Gaia returns the dying boss instead of creating one | kill the floor-32 boss: floor 33 begins with no boss | the final boss Gaia appears on floor 33 with (2000 + 33 * 50) * 1.5 = 5475 health | high, not executed | Findings.FinalBossNeverAppears | Findings.FixedFinalBossAppears |
| src/game/scenes/GameScene.js:293-299 | the reset basic-ray record has no `unlocked` flag, so its first upgrade appends it to `skills` again | upgrade the basic ray right after the game starts: `skills` becomes two basic rays | `skills` lists each unlocked skill once | medium, not executed | Findings.BasicRayListedTwice | Findings.UpgradeKeepsSkillsMatching |
