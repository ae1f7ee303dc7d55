/** The bookkeeping state of the game scene as a value, and each of the
    scene's operations as a function from the state before to the state
    after. The class in scene.dfy holds the same state in fields and
    implements these functions step by step; the lemmas in rules.dfy and
    findings.dfy are stated over them.

    Randomness is explicit: every Math.random draw of an operation is a
    parameter. Positions, velocities, timers and rendering are not part of
    the state. The enemy and projectile sequences keep destroyed entries
    with `active == false`, so an index stays the identity of one entity;
    the live entries are the children of the corresponding Phaser group.
    Collected gems and items are removed from their sequences. */
module GameState {
  import opened Curves
  import Shuffle

  datatype Option<T> = None | Some(value: T)

  // ---------------------------------------------------------------- skills

  /** The four skills, identified by an enum rather than by the display
      names the scene dispatches on. */
  datatype SkillId = BasicRay | AreaAttack | HomingMissile | Shield

  /** One record of the skill table; `skills` refers to these records. */
  datatype Skill = Skill(id: SkillId, level: int, cooldown: int, lastFired: int, unlocked: bool)

  /** availableSkills.find(s => s.name === name), as an index. */
  function FindSkill(table: seq<Skill>, id: SkillId): (r: Option<nat>)
    ensures r.Some? ==> r.value < |table| && table[r.value].id == id
    ensures r.Some? ==> forall k :: 0 <= k < r.value ==> table[k].id != id
    ensures r.None? <==> forall k :: 0 <= k < |table| ==> table[k].id != id
  {
    if |table| == 0 then None
    else if table[0].id == id then Some(0)
    else match FindSkill(table[1..], id)
      case None => None
      case Some(k) => Some(k + 1)
  }

  /** getSkillLevel: the level of the named skill, 0 when the table has none. */
  function SkillLevel(table: seq<Skill>, id: SkillId): int {
    match FindSkill(table, id)
    case None => 0
    case Some(i) => table[i].level
  }

  /** A skill fires when its cooldown has run out and it has been learnt. */
  predicate Ready(sk: Skill, time: int) {
    time > sk.lastFired + sk.cooldown && sk.level > 0
  }

  // --------------------------------------------------------- items, effects

  /** The effects that boss-exclusive items grant. */
  datatype Effect = Gravity | Pierce | Split | Wave

  datatype ItemType = ChickenLeg | EnergyDrink | EnhancementChip | BossItem(effect: Effect)

  /** The regular item table, in the order trySpawnItem rolls it. */
  const ItemTypes: seq<ItemType> := [ChickenLeg, EnergyDrink, EnhancementChip]

  /** The boss item table, one entry per special effect. */
  const BossItemTypes: seq<Effect> := [Gravity, Pierce, Split, Wave]

  /** Drop probability of a regular item. */
  function DropChance(t: ItemType): real {
    match t
    case ChickenLeg => 0.08
    case EnergyDrink => 0.04
    case EnhancementChip => 0.02
    case BossItem(_) => 0.0
  }

  // ------------------------------------------------------------- entities

  /** The regular enemy types, in the order of the type table. */
  datatype EnemyType = Guardian | Armed | Hacker

  /** The type's health multiplier as a percentage (1.0, 1.5, 0.8). */
  function HealthPercent(t: EnemyType): (r: nat)
    ensures r > 0
  {
    match t
    case Guardian => 100
    case Armed => 150
    case Hacker => 80
  }

  datatype EnemyName = Robot(kind: EnemyType) | FloorBoss | Gaia

  /** An enemy. The source never sets maxHealth on a regular enemy; the
      model stores 0.0 there and nothing reads it. */
  datatype Enemy = Enemy(name: EnemyName, health: real, maxHealth: real, isBoss: bool, active: bool)

  /** A player projectile and the capability flags it was created with. */
  datatype Projectile = Projectile(damage: real, isPiercing: bool, hasGravity: bool,
                                   canSplit: bool, isHoming: bool, active: bool)

  datatype PlayerStats = PlayerStats(
    level: int, exp: int, expToNextLevel: int,
    health: int, maxHealth: int, speed: int,
    floor: int, enemiesKilled: int, enemiesRequiredForBoss: int,
    damageBoost: int, specialEffects: seq<Effect>)

  /** Overlay scenes the game scene launches (and pauses itself for). */
  datatype Launch = SkillSelection(options: seq<Skill>) | GameOverScreen(level: int, floor: int)

  /** What touched the player: an enemy body, or a boss projectile and its damage. */
  datatype DamageSource = EnemyContact | BossProjectile(damage: nat)

  /** The draws spawnEnemy makes that matter to the state: the enemy type
      and the health variation in [-0.1, 0.1). */
  datatype SpawnRoll = SpawnRoll(kind: EnemyType, variation: real)

  /** The draws an enemy death makes: one roll per regular item type
      (trySpawnItem) and the boss item picked from the boss item table. */
  datatype DeathRolls = DeathRolls(itemRolls: seq<real>, bossItem: Effect)

  datatype Scene = Scene(
    stats: PlayerStats,
    skills: seq<SkillId>,
    available: seq<Skill>,
    enemySpawnTime: int, lastEnemySpawn: int, enemySpeed: int,
    maxEnemies: int, enemiesPerSpawn: int,
    enemies: seq<Enemy>,
    projectiles: seq<Projectile>,
    expGems: seq<int>,
    items: seq<ItemType>,
    isInvulnerable: bool,
    gravityWaveTimers: nat,
    paused: bool,
    launched: seq<Launch>)

  // -------------------------------------------------------- entity counts

  /** Number of live enemies that are bosses (`boss`) or regular (`!boss`). */
  function CountActive(s: seq<Enemy>, boss: bool): nat {
    if |s| == 0 then 0
    else (if s[0].active && s[0].isBoss == boss then 1 else 0) + CountActive(s[1..], boss)
  }

  /** The first live boss in group order. */
  function FirstBoss(s: seq<Enemy>): (r: Option<nat>)
    ensures r.Some? ==> r.value < |s| && s[r.value].active && s[r.value].isBoss
    ensures r.Some? ==> forall k :: 0 <= k < r.value ==> !(s[k].active && s[k].isBoss)
    ensures r.None? <==> forall k :: 0 <= k < |s| ==> !(s[k].active && s[k].isBoss)
  {
    if |s| == 0 then None
    else if s[0].active && s[0].isBoss then Some(0)
    else match FirstBoss(s[1..])
      case None => None
      case Some(k) => Some(k + 1)
  }

  predicate HasLiveEnemy(s: seq<Enemy>) {
    exists k :: 0 <= k < |s| && s[k].active
  }

  function RemoveAt<T>(s: seq<T>, k: nat): (r: seq<T>)
    requires k < |s|
    ensures |r| == |s| - 1
  {
    s[..k] + s[k + 1..]
  }

  // ------------------------------------------------------- initial state

  /** The state the scene's constructor sets up, before create() runs:
      the first draft of the stats, settings and skill table (the records
      then carried English names; here only the identities remain). */
  function ConstructedScene(): Scene {
    Scene(
      PlayerStats(1, 0, 100, 100, 100, 200, 1, 0, 0, 0, []),
      [],
      [Skill(BasicRay, 1, 500, 0, false),
       Skill(AreaAttack, 0, 3000, 0, false),
       Skill(HomingMissile, 0, 2000, 0, false),
       Skill(Shield, 0, 5000, 0, false)],
      1000, 0, 100, 0, 0,
      [], [], [], [],
      false, 0, false, [])
  }

  /** The stats resetGameState starts a run with (no damage boost and no
      special effects yet). */
  const ResetStats: PlayerStats := PlayerStats(1, 0, 80, 150, 150, 220, 1, 0, 10, 0, [])

  /** The skill table resetGameState installs. The basic ray's record
      carries no `unlocked` key, which reads as false. */
  const ResetTable: seq<Skill> := [Skill(BasicRay, 1, 400, 0, false),
                                   Skill(AreaAttack, 0, 2500, 0, false),
                                   Skill(HomingMissile, 0, 1800, 0, false),
                                   Skill(Shield, 0, 4000, 0, false)]

  /** resetGameState: fresh stats, spawn settings and skill table; `skills`
      is emptied. Entity groups are not touched. */
  function ResetGameState(sc: Scene): Scene {
    sc.(stats := ResetStats,
        enemySpawnTime := 1000, lastEnemySpawn := 0, enemySpeed := 85,
        maxEnemies := 15, enemiesPerSpawn := 2,
        skills := [], available := ResetTable)
  }

  /** The state create() leaves: the reset state with empty entity groups
      and the first record of the table, the basic ray, as the only entry
      of `skills`. */
  function InitialScene(): Scene {
    var s := ResetGameState(ConstructedScene());
    s.(skills := [s.available[0].id])
  }

  // ------------------------------------------------------------- spawning

  /** spawnEnemy: a regular enemy of the rolled type whose health follows
      the floor curve, the type modifier and the variation. */
  function SpawnEnemy(sc: Scene, roll: SpawnRoll): Scene {
    var typed := TypedHealth(BaseEnemyHealth(sc.stats.floor), HealthPercent(roll.kind));
    var health := Jittered(typed, roll.variation) as real;
    sc.(enemies := sc.enemies + [Enemy(Robot(roll.kind), health, 0.0, false, true)])
  }

  /** How many enemies one spawn tick creates. */
  function SpawnCount(sc: Scene): (r: nat)
    ensures r <= (if sc.enemiesPerSpawn < 0 then 0 else sc.enemiesPerSpawn)
  {
    var regular := CountActive(sc.enemies, false);
    if regular < sc.maxEnemies then
      var n := if sc.enemiesPerSpawn < sc.maxEnemies - regular then sc.enemiesPerSpawn
               else sc.maxEnemies - regular;
      if n < 0 then 0 else n
    else 0
  }

  /** spawnEnemy called once per roll, in order. */
  function SpawnEnemies(sc: Scene, rolls: seq<SpawnRoll>): Scene {
    if |rolls| == 0 then sc
    else SpawnEnemy(SpawnEnemies(sc, rolls[..|rolls| - 1]), rolls[|rolls| - 1])
  }

  /** The spawning part of update(time). */
  function SpawnTick(sc: Scene, time: int, rolls: seq<SpawnRoll>): Scene
    requires |rolls| >= sc.enemiesPerSpawn
  {
    if time > sc.lastEnemySpawn + sc.enemySpawnTime then
      SpawnEnemies(sc, rolls[..SpawnCount(sc)]).(lastEnemySpawn := time)
    else sc
  }

  // --------------------------------------------------------------- skills

  /** A projectile of the basic ray, with the flags of the effects held. */
  function Bullet(damage: real, effects: seq<Effect>): Projectile {
    Projectile(damage, Pierce in effects, Gravity in effects, Split in effects, false, true)
  }

  function Missile(damage: real): Projectile {
    Projectile(damage, false, false, false, true, true)
  }

  /** What firing a skill does to the state. The basic ray needs a live
      enemy to aim at; the area attack's damage pass depends on positions
      and is applied by the caller through DamageEnemy. */
  function SkillEffect(sc: Scene, id: SkillId): (r: Scene)
    ensures r.available == sc.available && r.skills == sc.skills
  {
    match id
    case BasicRay =>
      if HasLiveEnemy(sc.enemies) then
        var damage := ((15 + sc.stats.damageBoost) * SkillLevel(sc.available, BasicRay)) as real;
        sc.(projectiles := sc.projectiles + [Bullet(damage, sc.stats.specialEffects)])
      else sc
    case AreaAttack => sc
    case HomingMissile =>
      var m := Missile((20 * SkillLevel(sc.available, HomingMissile)) as real);
      sc.(projectiles := sc.projectiles + [m, m, m])
    case Shield => sc.(isInvulnerable := true)
  }

  /** One step of useSkills' forEach: fire the referenced record if ready,
      then stamp it with the time whether or not a target was found. */
  function FireSkill(sc: Scene, id: SkillId, time: int): (r: Scene)
    ensures r.skills == sc.skills && |r.available| == |sc.available|
  {
    match FindSkill(sc.available, id)
    case None => sc
    case Some(i) =>
      var sk := sc.available[i];
      if Ready(sk, time) then
        var s := SkillEffect(sc, id);
        s.(available := s.available[i := sk.(lastFired := time)])
      else sc
  }

  function UseSkillsFrom(sc: Scene, ids: seq<SkillId>, time: int): Scene
    decreases |ids|
  {
    if |ids| == 0 then sc else UseSkillsFrom(FireSkill(sc, ids[0], time), ids[1..], time)
  }

  /** useSkills(time): every entry of `skills`, in order. */
  function UseSkills(sc: Scene, time: int): Scene {
    UseSkillsFrom(sc, sc.skills, time)
  }

  /** update(time): nothing once the player is dead; otherwise the spawn
      tick, then the skills. */
  function Update(sc: Scene, time: int, rolls: seq<SpawnRoll>): Scene
    requires |rolls| >= sc.enemiesPerSpawn
  {
    if sc.stats.health <= 0 then sc else UseSkills(SpawnTick(sc, time, rolls), time)
  }

  // ------------------------------------------------- drops, bosses, floors

  function SpawnExpGem(sc: Scene): Scene {
    sc.(expGems := sc.expGems + [20])
  }

  /** The first regular item type, from position k on, whose roll succeeds. */
  function FirstDrop(rolls: seq<real>, k: nat): Option<ItemType>
    requires |rolls| >= |ItemTypes|
    decreases |ItemTypes| - k
  {
    if k >= |ItemTypes| then None
    else if rolls[k] < DropChance(ItemTypes[k]) then Some(ItemTypes[k])
    else FirstDrop(rolls, k + 1)
  }

  /** trySpawnItem: at most one regular item. */
  function TrySpawnItem(sc: Scene, rolls: seq<real>): Scene
    requires |rolls| >= |ItemTypes|
  {
    match FirstDrop(rolls, 0)
    case None => sc
    case Some(t) => sc.(items := sc.items + [t])
  }

  /** spawnBoss(name, base): the first live boss if there is one, otherwise
      a new boss with `base + floor * 50` health. Returns the boss's index. */
  function SpawnBoss(sc: Scene, name: EnemyName, base: int): (r: (Scene, nat))
    ensures r.1 < |r.0.enemies| && r.0.enemies[r.1].isBoss && r.0.enemies[r.1].active
    ensures |r.0.enemies| >= |sc.enemies|
    ensures r.0.projectiles == sc.projectiles
  {
    match FirstBoss(sc.enemies)
    case Some(b) => (sc, b)
    case None =>
      var h := BossHealth(base, sc.stats.floor) as real;
      (sc.(enemies := sc.enemies + [Enemy(name, h, h, true, true)]), |sc.enemies|)
  }

  /** advanceFloor: next floor, fresh kill quota, faster and more frequent
      spawns; on floor 33 the final boss is requested and given 50% more
      health. */
  function AdvanceFloor(sc: Scene): (r: Scene)
    ensures |r.enemies| >= |sc.enemies| && r.projectiles == sc.projectiles
  {
    var f := sc.stats.floor + 1;
    var s := sc.(stats := sc.stats.(floor := f, enemiesKilled := 0,
                                    enemiesRequiredForBoss := EnemiesRequiredForBoss(f)),
                 enemySpawnTime := NextSpawnTime(sc.enemySpawnTime),
                 enemySpeed := sc.enemySpeed + 5);
    if f == 33 then
      var spawned := SpawnBoss(s, Gaia, 2000);
      var boss := spawned.0.enemies[spawned.1];
      var h := boss.health * 1.5;
      spawned.0.(enemies := spawned.0.enemies[spawned.1 := boss.(health := h, maxHealth := h)])
    else s
  }

  /** A regular enemy died: count it and request the boss once the quota is met. */
  function CountKill(sc: Scene): (r: Scene)
    ensures |r.enemies| >= |sc.enemies| && r.projectiles == sc.projectiles
  {
    var s := sc.(stats := sc.stats.(enemiesKilled := sc.stats.enemiesKilled + 1));
    if s.stats.enemiesKilled >= s.stats.enemiesRequiredForBoss then SpawnBoss(s, FloorBoss, 500).0 else s
  }

  /** A boss died: advance the floor and drop a chicken leg and the boss item. */
  function BossDefeated(sc: Scene, bossItem: Effect): (r: Scene)
    ensures |r.enemies| >= |sc.enemies| && r.projectiles == sc.projectiles
  {
    var s := AdvanceFloor(sc);
    s.(items := s.items + [ChickenLeg, BossItem(bossItem)])
  }

  /** enemy.destroy(): the enemy leaves its group. */
  function Destroy(sc: Scene, e: nat): Scene
    requires e < |sc.enemies|
  {
    sc.(enemies := sc.enemies[e := sc.enemies[e].(active := false)])
  }

  /** damageEnemy(enemy, damage), with the death branch as the source
      orders it: gem, item roll, then the kill count or the floor advance,
      and the enemy is destroyed last. */
  function DamageEnemy(sc: Scene, e: int, damage: real, rolls: DeathRolls): (r: Scene)
    requires |rolls.itemRolls| >= |ItemTypes|
    ensures |r.enemies| >= |sc.enemies| && r.projectiles == sc.projectiles
  {
    if !(0 <= e < |sc.enemies|) || !sc.enemies[e].active then sc
    else
      var hit := sc.enemies[e].(health := sc.enemies[e].health - damage);
      var s := sc.(enemies := sc.enemies[e := hit]);
      if hit.health > 0.0 then s
      else
        var dropped := TrySpawnItem(SpawnExpGem(s), rolls.itemRolls);
        var settled := if !hit.isBoss then CountKill(dropped) else BossDefeated(dropped, rolls.bossItem);
        Destroy(settled, e)
  }

  /** createSplitProjectiles: three plain children at half the parent's damage. */
  function CreateSplitProjectiles(sc: Scene, parent: Projectile): Scene {
    var child := Projectile(parent.damage * 0.5, false, false, false, false, true);
    sc.(projectiles := sc.projectiles + [child, child, child])
  }

  /** hitEnemy(projectile, enemy): damage (10 when the projectile carries
      none), split when the enemy is dead afterwards, and destroy the
      projectile unless it pierces. */
  function HitEnemy(sc: Scene, p: nat, e: nat, rolls: DeathRolls): Scene
    requires p < |sc.projectiles| && e < |sc.enemies|
    requires |rolls.itemRolls| >= |ItemTypes|
  {
    var proj := sc.projectiles[p];
    var damage := if proj.damage == 0.0 then 10.0 else proj.damage;
    var s1 := DamageEnemy(sc, e, damage, rolls);
    var s2 := if proj.canSplit && s1.enemies[e].health <= 0.0 then CreateSplitProjectiles(s1, proj) else s1;
    if !proj.isPiercing then s2.(projectiles := s2.projectiles[p := s2.projectiles[p].(active := false)])
    else s2
  }

  // --------------------------------------------------------------- player

  /** healPlayer(amount). */
  function HealPlayer(sc: Scene, amount: int): Scene {
    var h := sc.stats.health + amount;
    sc.(stats := sc.stats.(health := if h < sc.stats.maxHealth then h else sc.stats.maxHealth))
  }

  /** gameOver(): pause and launch the game-over screen with the run's level and floor. */
  function GameOver(sc: Scene): Scene {
    sc.(paused := true, launched := sc.launched + [GameOverScreen(sc.stats.level, sc.stats.floor)])
  }

  /** damagePlayer: nothing while invulnerable; otherwise lose the boss
      projectile's damage or 8, become invulnerable, and end the game when
      health is gone. */
  function DamagePlayer(sc: Scene, source: DamageSource): Scene {
    if sc.isInvulnerable then sc
    else
      var amount := match source case BossProjectile(d) => d case EnemyContact => 8;
      var s := sc.(stats := sc.stats.(health := sc.stats.health - amount), isInvulnerable := true);
      if s.stats.health <= 0 then GameOver(s) else s
  }

  // ---------------------------------------------------- experience, levels

  /** showSkillSelection: pause and offer three shuffled skills. */
  function ShowSkillSelection(sc: Scene, picks: seq<int>): Scene
    requires Shuffle.Draws(|sc.available|, picks)
  {
    sc.(paused := true,
        launched := sc.launched + [SkillSelection(Shuffle.Options(sc.available, 3, picks))])
  }

  /** levelUp. */
  function LevelUp(sc: Scene, picks: seq<int>): Scene
    requires Shuffle.Draws(|sc.available|, picks)
  {
    var st := sc.stats;
    var s := sc.(stats := st.(level := st.level + 1, exp := st.exp - st.expToNextLevel,
                              expToNextLevel := NextThreshold(st.expToNextLevel),
                              health := st.maxHealth));
    ShowSkillSelection(s, picks)
  }

  /** collectExp(player, gem): one level-up at most per gem. */
  function CollectExp(sc: Scene, g: nat, picks: seq<int>): Scene
    requires g < |sc.expGems|
    requires Shuffle.Draws(|sc.available|, picks)
  {
    var s := sc.(stats := sc.stats.(exp := sc.stats.exp + sc.expGems[g]),
                 expGems := RemoveAt(sc.expGems, g));
    if s.stats.exp >= s.stats.expToNextLevel then LevelUp(s, picks) else s
  }

  /** upgradeSkill(name): one more level; the first upgrade of a record that
      is not marked unlocked also appends it to `skills`. */
  function UpgradeSkill(sc: Scene, id: SkillId): Scene {
    match FindSkill(sc.available, id)
    case None => sc
    case Some(i) =>
      var sk := sc.available[i];
      if !sk.unlocked then
        sc.(available := sc.available[i := sk.(level := sk.level + 1, unlocked := true)],
            skills := sc.skills + [id])
      else
        sc.(available := sc.available[i := sk.(level := sk.level + 1)])
  }

  // ---------------------------------------------------------------- items

  /** applySpecialItemEffect: record an effect once; the first wave item
      also starts the repeating gravity-wave timer. */
  function ApplySpecialItemEffect(sc: Scene, effect: Effect): Scene {
    if effect in sc.stats.specialEffects then sc
    else
      var s := sc.(stats := sc.stats.(specialEffects := sc.stats.specialEffects + [effect]));
      if effect == Wave then s.(gravityWaveTimers := s.gravityWaveTimers + 1) else s
  }

  /** What picking up an item of type `t` does to the player. The speed
      and damage boosts revert on a timer, which is not modelled. */
  function ItemEffect(sc: Scene, t: ItemType): Scene {
    match t
    case ChickenLeg => HealPlayer(sc, 30)
    case EnergyDrink => sc.(stats := sc.stats.(speed := sc.stats.speed + 20))
    case EnhancementChip => sc.(stats := sc.stats.(damageBoost := sc.stats.damageBoost + 5))
    case BossItem(effect) => ApplySpecialItemEffect(sc, effect)
  }

  /** collectItem(player, item): apply the item, then destroy it. */
  function CollectItem(sc: Scene, k: int): Scene {
    if !(0 <= k < |sc.items|) then sc
    else ItemEffect(sc, sc.items[k]).(items := RemoveAt(sc.items, k))
  }

  // ------------------------------------------------------------ invariant

  /** The fixed shape of the skill table: the four skills in order with
      their cooldowns, levels never negative. */
  ghost predicate TableShape(t: seq<Skill>) {
    && |t| == 4
    && t[0].id == BasicRay && t[0].cooldown == 400
    && t[1].id == AreaAttack && t[1].cooldown == 2500
    && t[2].id == HomingMissile && t[2].cooldown == 1800
    && t[3].id == Shield && t[3].cooldown == 4000
    && forall k :: 0 <= k < 4 ==> t[k].level >= 0
  }

  /** What every reachable state satisfies. */
  ghost predicate Invariant(sc: Scene) {
    && TableShape(sc.available)
    && CountActive(sc.enemies, true) <= 1
    && sc.maxEnemies == 15 && sc.enemiesPerSpawn == 2
    && CountActive(sc.enemies, false) <= sc.maxEnemies
    && sc.stats.health <= sc.stats.maxHealth
    && 0 <= sc.stats.exp < sc.stats.expToNextLevel
    && sc.stats.expToNextLevel >= 80
    && (forall k :: 0 <= k < |sc.expGems| ==> sc.expGems[k] == 20)
    && Shuffle.Distinct(sc.stats.specialEffects)
    && sc.gravityWaveTimers == (if Wave in sc.stats.specialEffects then 1 else 0)
    && sc.stats.floor >= 1
    && sc.stats.enemiesRequiredForBoss == EnemiesRequiredForBoss(sc.stats.floor)
    && sc.enemySpawnTime >= 200
  }
}
