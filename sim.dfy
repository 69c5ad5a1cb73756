/**
 * The state of a game of survivor/games/survivor.py as one value, and the
 * rules of a frame as functions on it: enemy waves and top-ups, damage,
 * death, experience pickup, the weapon passes and the firing of weapons.
 * The class in game.dfy keeps the same state in fields and is proved
 * against these functions.
 *
 * Randomness and trigonometry are parameters: where the source draws an
 * angle and places an entity with cos and sin, the caller passes the
 * resulting position; where it aims with atan2, it passes an aiming
 * function.
 */
module Sim {
  import opened Wrappers
  import opened Lists
  import opened Health
  import opened Catalog
  import opened Entities
  import opened Rules
  import Text

  datatype Mode = StartMenu | Playing | UpgradeMenu | GameOver

  /**
   * The Game object's fields that the rules read and write, with its
   * particle list split by kind. `options` is the upgrade menu.
   */
  datatype World = World(
    player: Option<Player>,
    enemies: seq<Enemy>,
    weapons: seq<Weapon>,
    orbs: seq<XpOrb>,
    texts: seq<DamageText>,
    score: int,
    timer: int,
    progress: Progress,
    waveTimer: int,
    currentWave: int,
    minEnemies: int,
    nextSpawnTimer: int,
    eliteSpawned: bool,
    nextId: int,
    mode: Mode,
    options: seq<UpgradeOption>)

  /** Every id handed out so far is below `nextId`. */
  predicate IdsBelow(w: World)
  {
    (w.player.Some? ==> w.player.value.id < w.nextId)
    && (forall i :: 0 <= i < |w.enemies| ==> w.enemies[i].id < w.nextId)
    && (forall i :: 0 <= i < |w.weapons| ==> w.weapons[i].id < w.nextId)
    && (forall i :: 0 <= i < |w.orbs| ==> w.orbs[i].id < w.nextId)
    && (forall i :: 0 <= i < |w.texts| ==> w.texts[i].id < w.nextId)
  }

  /**
   * The invariant of a game: ids are allocated from `nextId` upwards,
   * experience obeys the levelling rule, the wave minimum stays between
   * 30 and 60, and there are at most 61 enemies (60 plus a wave's elite).
   */
  predicate Valid(w: World)
  {
    0 <= w.nextId && IdsBelow(w) && ProgressValid(w.progress)
    && MinEnemiesPerWave <= w.minEnemies <= MaxEnemies
    && |w.enemies| <= MaxEnemies + 1
    && 0 <= w.currentWave
  }

  /** The world differs from `w` at most in its entities other than the player, its score and its wave state. */
  predicate Unmoved(w: World, r: World)
  {
    r.player == w.player && r.timer == w.timer && r.mode == w.mode && r.progress == w.progress && r.options == w.options
  }

  /** `nextId` is not the id of anything in a valid world. */
  lemma FreshId(w: World)
    requires Valid(w)
    ensures w.player.Some? ==> w.player.value.id != w.nextId
    ensures forall e :: e in w.enemies ==> e.id != w.nextId
    ensures forall x :: x in w.weapons ==> x.id != w.nextId
    ensures forall o :: o in w.orbs ==> o.id != w.nextId
    ensures forall t :: t in w.texts ==> t.id != w.nextId
  {
  }

  // -----------------------------------------------------------------------
  // Enemies: spawn_enemy, spawn_elite_enemy, spawn_enemy_wave, the top-up
  // -----------------------------------------------------------------------

  /** A spawn point clamped to the screen widened by the entity's size on every side. */
  function Clamped(at: Pos, size: int): (p: Pos)
    requires size >= 0
    ensures -size <= p.x <= ScreenWidth + size && -size <= p.y <= ScreenHeight + size
  {
    Pos(Clamp(at.x, -size, ScreenWidth + size), Clamp(at.y, -size, ScreenHeight + size))
  }

  /** A regular enemy: 10 hp, 1 damage, speed 2, worth 10 experience. */
  function RegularEnemy(id: int, at: Pos, wave: int): Enemy
  {
    Enemy(id, false, Clamped(at, EnemySize), Some(Fresh(10, Some(10))), 1, 10, wave, 2, 0, false, 0)
  }

  /** An elite enemy: 30 hp, 2 damage, speed 3, worth 30 experience. */
  function EliteEnemy(id: int, at: Pos, wave: int): Enemy
  {
    Enemy(id, true, Clamped(at, EliteSize), Some(Fresh(30, Some(30))), 2, 30, wave, 3, 0, false, 0)
  }

  /** The world differs from `w` at most in its enemies and its next id. */
  predicate OnlyEnemies(w: World, r: World)
  {
    r == w.(enemies := r.enemies, nextId := r.nextId)
  }

  /** spawn_enemy: nothing at 60 enemies or without a player; otherwise one regular enemy. */
  function SpawnEnemyW(w: World, at: Pos): (r: World)
    ensures Valid(w) ==> Valid(r)
    ensures OnlyEnemies(w, r) && w.enemies <= r.enemies
    ensures |r.enemies| == if |w.enemies| < MaxEnemies && w.player.Some? then |w.enemies| + 1 else |w.enemies|
    ensures r.nextId == w.nextId + |r.enemies| - |w.enemies|
    ensures |r.enemies| > |w.enemies| ==> r.enemies[|w.enemies|] == RegularEnemy(w.nextId, at, w.currentWave)
  {
    if |w.enemies| >= MaxEnemies || w.player.None? then w
    else w.(enemies := w.enemies + [RegularEnemy(w.nextId, at, w.currentWave)], nextId := w.nextId + 1)
  }

  /** spawn_elite_enemy: one elite whenever there is a player, whatever the enemy count. */
  function SpawnEliteW(w: World, at: Pos): (r: World)
    ensures OnlyEnemies(w, r) && w.enemies <= r.enemies
    ensures |r.enemies| == if w.player.Some? then |w.enemies| + 1 else |w.enemies|
    ensures r.nextId == w.nextId + |r.enemies| - |w.enemies|
    ensures |r.enemies| > |w.enemies| ==> r.enemies[|w.enemies|] == EliteEnemy(w.nextId, at, w.currentWave)
  {
    if w.player.None? then w
    else w.(enemies := w.enemies + [EliteEnemy(w.nextId, at, w.currentWave)], nextId := w.nextId + 1)
  }

  /** `k` calls of spawn_enemy, the `i`-th at `spots(i)`. */
  function SpawnEnemiesW(w: World, spots: nat -> Pos, k: nat): (r: World)
    ensures Valid(w) ==> Valid(r)
    ensures OnlyEnemies(w, r) && w.enemies <= r.enemies
    ensures |r.enemies| == if |w.enemies| < MaxEnemies && w.player.Some? then Min(|w.enemies| + k, MaxEnemies) else |w.enemies|
    ensures r.nextId == w.nextId + |r.enemies| - |w.enemies|
    ensures forall i :: |w.enemies| <= i < |r.enemies| ==>
      r.enemies[i] == RegularEnemy(w.nextId + i - |w.enemies|, spots(i - |w.enemies|), w.currentWave)
  {
    if k == 0 then w else SpawnEnemyW(SpawnEnemiesW(w, spots, k - 1), spots(k - 1))
  }

  function Min(a: int, b: int): int
  {
    if a <= b then a else b
  }

  /** How many regular enemies a wave spawns: up to the wave minimum (at most 60), and at least one. */
  function WaveSize(count: int, minimum: int): int
  {
    var n := Min(minimum, MaxEnemies) - count;
    if n > 0 then n else 1
  }

  /**
   * spawn_enemy_wave: nothing at 60 enemies or more; otherwise the wave's
   * regular enemies, one elite, a minimum of `min(30 + wave, 60)` for the
   * next wave, the wave timer back to 0 and the wave number one up.
   */
  function SpawnWaveW(w: World, spots: nat -> Pos, eliteAt: Pos): (r: World)
    ensures r.player == w.player && r.timer == w.timer && r.mode == w.mode && r.progress == w.progress
  {
    if |w.enemies| >= MaxEnemies then w
    else WaveEndW(SpawnEnemiesW(w, spots, WaveSize(|w.enemies|, w.minEnemies)), eliteAt)
  }

  /** The end of a wave: its elite unless one is already out, then the counters for the next wave. */
  function WaveEndW(w: World, eliteAt: Pos): (r: World)
    ensures r.player == w.player && r.timer == w.timer && r.mode == w.mode && r.progress == w.progress
  {
    var w1 := if !w.eliteSpawned then SpawnEliteW(w, eliteAt) else w;
    w1.(minEnemies := Min(MinEnemiesPerWave + w.currentWave, MaxEnemies), waveTimer := 0,
        currentWave := w.currentWave + 1, eliteSpawned := false)
  }

  /**
   * A wave below the cap brings the regular enemies up to the wave
   * minimum, or adds one when the minimum is already met, then adds the
   * elite: at most 61 enemies, each new one with a fresh id. At the cap
   * the wave does nothing at all, not even reset its timer.
   */
  lemma SpawnWaveCounts(w: World, spots: nat -> Pos, eliteAt: Pos)
    requires Valid(w)
    ensures var r := SpawnWaveW(w, spots, eliteAt);
      Valid(r)
      && (|w.enemies| >= MaxEnemies ==> r == w)
      && (|w.enemies| < MaxEnemies && w.player.Some? && !w.eliteSpawned ==>
            |r.enemies| == (if |w.enemies| < w.minEnemies then w.minEnemies else |w.enemies| + 1) + 1
            && r.enemies[|r.enemies| - 1].elite
            && r.nextId == w.nextId + |r.enemies| - |w.enemies|)
      && (|w.enemies| < MaxEnemies ==>
            r.minEnemies == Min(MinEnemiesPerWave + w.currentWave, MaxEnemies)
            && r.waveTimer == 0 && r.currentWave == w.currentWave + 1 && !r.eliteSpawned)
  {
    if |w.enemies| < MaxEnemies {
      var w1 := SpawnEnemiesW(w, spots, WaveSize(|w.enemies|, w.minEnemies));
      WaveEndValid(w1, eliteAt);
    }
  }

  /** The end of a wave keeps the invariant when at most 60 enemies are out before its elite. */
  lemma WaveEndValid(w: World, eliteAt: Pos)
    requires Valid(w) && |w.enemies| <= MaxEnemies
    ensures Valid(WaveEndW(w, eliteAt))
  {
    var w1 := if !w.eliteSpawned then SpawnEliteW(w, eliteAt) else w;
    assert |w1.enemies| <= MaxEnemies + 1;
    assert IdsBelow(w1) by {
      if !w.eliteSpawned && w.player.Some? {
        assert forall i :: 0 <= i < |w.enemies| ==> w1.enemies[i] == w.enemies[i];
      }
    }
  }

  /**
   * The spawn timer of the top-up: one more enemy, and the timer re-armed
   * with `delay`, once it has run out; else the timer counts down.
   */
  function SpawnTimerW(w: World, at: Pos, delay: int): (r: World)
    ensures r.player == w.player && r.timer == w.timer && r.mode == w.mode && r.progress == w.progress
    ensures Valid(w) ==> Valid(r)
    ensures w.nextSpawnTimer <= 0 ==>
      r.nextSpawnTimer == delay &&
      |r.enemies| == if |w.enemies| < MaxEnemies && w.player.Some? then |w.enemies| + 1 else |w.enemies|
    ensures w.nextSpawnTimer > 0 ==> r == w.(nextSpawnTimer := w.nextSpawnTimer - 1)
  {
    if w.nextSpawnTimer <= 0 then SpawnEnemyW(w, at).(nextSpawnTimer := delay)
    else w.(nextSpawnTimer := w.nextSpawnTimer - 1)
  }

  /**
   * The top-up of step: below the wave minimum and below 60, spawn the
   * missing enemies, then run the spawn timer.
   */
  function TopUpW(w: World, spots: nat -> Pos, delay: int): (r: World)
    ensures r.player == w.player && r.timer == w.timer && r.mode == w.mode && r.progress == w.progress
  {
    var count := |w.enemies|;
    if count < w.minEnemies && count < MaxEnemies then
      var k := w.minEnemies - count;
      SpawnTimerW(SpawnEnemiesW(w, spots, k), spots(k), delay)
    else w
  }

  /** A top-up below the minimum: the `k` missing enemies, then the spawn timer. */
  lemma TopUpSpawns(w: World, spots: nat -> Pos, delay: int, k: nat)
    requires 0 < k == w.minEnemies - |w.enemies| && |w.enemies| < MaxEnemies
    ensures TopUpW(w, spots, delay) == SpawnTimerW(SpawnEnemiesW(w, spots, k), spots(k), delay)
  {
  }

  /**
   * With a player present, a top-up below the minimum reaches the
   * minimum exactly, plus one while the timer fires below the cap; it
   * keeps the invariant.
   */
  lemma TopUpCounts(w: World, spots: nat -> Pos, delay: int)
    requires Valid(w)
    ensures Valid(TopUpW(w, spots, delay))
    ensures w.player.Some? && |w.enemies| < w.minEnemies ==>
      |TopUpW(w, spots, delay).enemies| ==
        if w.nextSpawnTimer <= 0 && w.minEnemies < MaxEnemies then w.minEnemies + 1 else w.minEnemies
    ensures |w.enemies| >= w.minEnemies ==> TopUpW(w, spots, delay) == w
  {
  }

  /** The wave part of step: the wave timer counts up and a wave comes once it reaches 3600 frames. */
  function WaveTickW(w: World, spots: nat -> Pos, eliteAt: Pos): (r: World)
    ensures r.player == w.player && r.timer == w.timer && r.mode == w.mode && r.progress == w.progress
  {
    var w1 := w.(waveTimer := w.waveTimer + 1);
    if w1.waveTimer >= WaveInterval then SpawnWaveW(w1, spots, eliteAt) else w1
  }

  /** The two ways a wave tick goes: with a wave, or with the timer counted up only. */
  lemma WaveTickCases(w: World, spots: nat -> Pos, eliteAt: Pos)
    ensures w.waveTimer + 1 >= WaveInterval ==>
      WaveTickW(w, spots, eliteAt) == SpawnWaveW(w.(waveTimer := w.waveTimer + 1), spots, eliteAt)
    ensures w.waveTimer + 1 < WaveInterval ==> WaveTickW(w, spots, eliteAt) == w.(waveTimer := w.waveTimer + 1)
  {
  }

  /**
   * A wave comes exactly when the timer reaches 3600; below the cap the
   * timer then restarts from 0.
   */
  lemma WaveTickTimer(w: World, spots: nat -> Pos, eliteAt: Pos)
    requires Valid(w)
    ensures WaveTickW(w, spots, eliteAt).currentWave ==
      if w.waveTimer + 1 >= WaveInterval && |w.enemies| < MaxEnemies then w.currentWave + 1 else w.currentWave
    ensures WaveTickW(w, spots, eliteAt).waveTimer ==
      if w.waveTimer + 1 >= WaveInterval && |w.enemies| < MaxEnemies then 0 else w.waveTimer + 1
  {
    var w1 := w.(waveTimer := w.waveTimer + 1);
    WaveTimerValid(w, w.waveTimer + 1);
    if w1.waveTimer >= WaveInterval {
      SpawnWaveCounts(w1, spots, eliteAt);
    }
  }

  /** The invariant does not read the wave timer. */
  lemma WaveTimerValid(w: World, t: int)
    requires Valid(w)
    ensures Valid(w.(waveTimer := t))
  {
    var w1 := w.(waveTimer := t);
    assert w1.enemies == w.enemies && w1.weapons == w.weapons && w1.orbs == w.orbs && w1.texts == w.texts;
  }

  /** The wave tick keeps the invariant. */
  lemma WaveTickValid(w: World, spots: nat -> Pos, eliteAt: Pos)
    requires Valid(w)
    ensures Valid(WaveTickW(w, spots, eliteAt))
  {
    var w1 := w.(waveTimer := w.waveTimer + 1);
    WaveTimerValid(w, w.waveTimer + 1);
    if w1.waveTimer >= WaveInterval {
      SpawnWaveCounts(w1, spots, eliteAt);
    }
  }

  // -----------------------------------------------------------------------
  // Damage and death: spawn_damage_text, spawn_xp, apply_damage, on_particle_death
  // -----------------------------------------------------------------------

  /** spawn_damage_text: nothing for an amount of 0 or less, else the amount's digits for 60 frames. */
  function DamageTextW(w: World, at: Pos, amount: int): (r: World)
    ensures Valid(w) ==> Valid(r)
    ensures r == w.(texts := r.texts, nextId := r.nextId)
    ensures amount <= 0 ==> r == w
    ensures amount > 0 ==>
      r.texts == w.texts + [DamageText(w.nextId, at, Text.NatText(amount), DamageTextDuration)] && r.nextId == w.nextId + 1
  {
    if amount <= 0 then w
    else w.(texts := w.texts + [DamageText(w.nextId, at, Text.NatText(amount), DamageTextDuration)], nextId := w.nextId + 1)
  }

  /** spawn_xp: an experience orb at the given point. */
  function SpawnXpW(w: World, at: Pos): (r: World)
    ensures Valid(w) ==> Valid(r)
    ensures r == w.(orbs := w.orbs + [XpOrb(w.nextId, at)], nextId := w.nextId + 1)
  {
    w.(orbs := w.orbs + [XpOrb(w.nextId, at)], nextId := w.nextId + 1)
  }

  /**
   * on_particle_death with the animation, for enemy `i`: 10 points for a
   * regular enemy and 30 for an elite, an orb where it died when it is an
   * elite or the drop roll succeeds, and the enemy marked dying.
   */
  function EnemyDeathW(w: World, i: nat, drop: bool): (r: World)
    requires i < |w.enemies|
    ensures Valid(w) ==> Valid(r)
    ensures r.weapons == w.weapons && |r.enemies| == |w.enemies| && Unmoved(w, r)
  {
    var e := w.enemies[i];
    var w1 := w.(score := w.score + if e.elite then 30 else 10);
    var w2 := if e.elite || drop then SpawnXpW(w1, e.pos) else w1;
    w2.(enemies := w2.enemies[i := MarkDying(e)])
  }

  /** `hit_cooldown.get(eid, 0) > 0`: the book still ignores this enemy. */
  predicate Cooling(a: Weapon, eid: int)
  {
    eid in a.hitCooldown && a.hitCooldown[eid] > 0
  }

  /** The damage a hit deals: a book's level damage, and at least 1. */
  function HitDamage(a: Weapon, damage: int): (d: int)
    ensures d >= 1
    ensures a.name == "KingBible" ==> d == KingBibleDamage(a.level)
    ensures a.name != "KingBible" ==> d == AtLeastOne(damage)
  {
    AtLeastOne(if a.name == "KingBible" then KingBibleDamage(a.level) else damage)
  }

  /**
   * apply_damage from weapon `wi` to enemy `ei`. A book that still ignores
   * the enemy does nothing and reports it alive; otherwise a book starts a
   * 30-frame cooldown for it. An enemy without health is reported alive.
   * Otherwise the health takes the damage, the hp lost is shown as a
   * damage text, and an enemy that dies goes through on_particle_death.
   * The second component is whether the enemy is alive.
   */
  function WeaponHitW(w: World, wi: nat, ei: nat, damage: int, drop: bool): (r: (World, bool))
    requires wi < |w.weapons| && ei < |w.enemies|
    ensures Valid(w) ==> Valid(r.0)
    ensures |r.0.weapons| == |w.weapons| && |r.0.enemies| == |w.enemies| && Unmoved(w, r.0)
    ensures w.weapons[wi].name != "KingBible" ==> r.0.weapons == w.weapons
    ensures forall j :: 0 <= j < |w.weapons| ==> r.0.weapons[j].id == w.weapons[j].id
  {
    var a, e := w.weapons[wi], w.enemies[ei];
    var book := a.name == "KingBible";
    if book && Cooling(a, e.id) then (w, true)
    else
      var w1 := if book then MarkBook(w, wi, e.id) else w;
      StrikeW(w1, ei, HitDamage(a, damage), drop)
  }

  /** A book starts its 30-frame cooldown for an enemy it hits. */
  function MarkBook(w: World, wi: nat, eid: int): (r: World)
    requires wi < |w.weapons|
    ensures Valid(w) ==> Valid(r)
    ensures r == w.(weapons := r.weapons) && |r.weapons| == |w.weapons|
    ensures forall j :: 0 <= j < |w.weapons| ==> r.weapons[j].id == w.weapons[j].id
    ensures r.weapons[wi] == w.weapons[wi].(hitCooldown := w.weapons[wi].hitCooldown[eid := BibleHitCooldown])
  {
    var a := w.weapons[wi];
    w.(weapons := w.weapons[wi := a.(hitCooldown := a.hitCooldown[eid := BibleHitCooldown])])
  }

  /**
   * The health part of apply_damage on enemy `ei` with damage `d`: none
   * for an enemy without health; else the hp lost shown as a damage text
   * and on_particle_death for an enemy that dies.
   */
  function StrikeW(w: World, ei: nat, d: int, drop: bool): (r: (World, bool))
    requires ei < |w.enemies|
    ensures Valid(w) ==> Valid(r.0)
    ensures r.0.weapons == w.weapons && |r.0.enemies| == |w.enemies| && Unmoved(w, r.0)
  {
    var e := w.enemies[ei];
    match e.health
    case None => (w, true)
    case Some(h) =>
      var h2 := Damaged(h, d);
      var w2 := w.(enemies := w.enemies[ei := e.(health := Some(h2))]);
      var w3 := DamageTextW(w2, e.pos, h.currentHp - h2.currentHp);
      if h2.isAlive then (w3, true) else (EnemyDeathW(w3, ei, drop), false)
  }

  /** A book hitting an enemy it still ignores changes nothing. */
  lemma CoolingBookDoesNothing(w: World, wi: nat, ei: nat, damage: int, drop: bool)
    requires wi < |w.weapons| && ei < |w.enemies|
    requires w.weapons[wi].name == "KingBible" && Cooling(w.weapons[wi], w.enemies[ei].id)
    ensures WeaponHitW(w, wi, ei, damage, drop) == (w, true)
  {
  }

  /**
   * A hit that lands on an enemy with health takes `max(1, damage)` hp
   * (a book's level damage), down to 0; the enemy is reported dead exactly
   * when its hp reaches 0. A book then ignores the enemy for 30 frames.
   */
  lemma WeaponHitDamages(w: World, wi: nat, ei: nat, damage: int, drop: bool)
    requires wi < |w.weapons| && ei < |w.enemies|
    requires !(w.weapons[wi].name == "KingBible" && Cooling(w.weapons[wi], w.enemies[ei].id))
    requires w.enemies[ei].health.Some?
    ensures var (r, alive) := WeaponHitW(w, wi, ei, damage, drop);
      var h := w.enemies[ei].health.value;
      var d := HitDamage(w.weapons[wi], damage);
      r.enemies[ei].health.Some?
      && r.enemies[ei].health.value.currentHp == (if h.currentHp <= d then 0 else h.currentHp - d)
      && (alive <==> r.enemies[ei].health.value.isAlive)
      && (!alive ==> r.enemies[ei].dying && r.enemies[ei].deathTimer == DeathAnimFrames)
      && (alive ==> r.enemies[ei].dying == w.enemies[ei].dying)
      && (w.weapons[wi].name == "KingBible" ==> r.weapons[wi].hitCooldown == w.weapons[wi].hitCooldown[w.enemies[ei].id := BibleHitCooldown])
  {
    var a := w.weapons[wi];
    var w1 := if a.name == "KingBible" then MarkBook(w, wi, w.enemies[ei].id) else w;
    assert w1.enemies == w.enemies;
    StrikeDamages(w1, ei, HitDamage(a, damage), drop);
  }

  /** The health part of a hit on an enemy with health, as WeaponHitDamages states it. */
  lemma StrikeDamages(w: World, ei: nat, d: int, drop: bool)
    requires ei < |w.enemies| && w.enemies[ei].health.Some?
    ensures var (r, alive) := StrikeW(w, ei, d, drop);
      var h := w.enemies[ei].health.value;
      r.weapons == w.weapons
      && r.enemies[ei].health.Some?
      && r.enemies[ei].health.value.currentHp == (if h.currentHp <= d then 0 else h.currentHp - d)
      && (alive <==> r.enemies[ei].health.value.isAlive)
      && (!alive ==> r.enemies[ei].dying && r.enemies[ei].deathTimer == DeathAnimFrames)
      && (alive ==> r.enemies[ei].dying == w.enemies[ei].dying)
  {
    var e := w.enemies[ei];
    var h2 := Damaged(e.health.value, d);
    var w2 := w.(enemies := w.enemies[ei := e.(health := Some(h2))]);
    var w3 := DamageTextW(w2, e.pos, e.health.value.currentHp - h2.currentHp);
    assert w3.enemies == w2.enemies;
    if !h2.isAlive {
      EnemyDeathScores(w3, ei, drop);
    }
  }

  /**
   * on_particle_death adds 10 points for a regular enemy and 30 for an
   * elite, drops an orb where it died exactly when it is an elite or the
   * roll succeeds, and keeps the enemy, marked dying for 30 frames.
   */
  lemma EnemyDeathScores(w: World, i: nat, drop: bool)
    requires i < |w.enemies|
    ensures var r := EnemyDeathW(w, i, drop);
      r.score == w.score + (if w.enemies[i].elite then 30 else 10)
      && |r.enemies| == |w.enemies| && r.enemies[i] == MarkDying(w.enemies[i])
      && (forall j :: 0 <= j < |w.enemies| && j != i ==> r.enemies[j] == w.enemies[j])
      && (w.enemies[i].elite || drop ==> r.orbs == w.orbs + [XpOrb(w.nextId, w.enemies[i].pos)])
      && (!w.enemies[i].elite && !drop ==> r.orbs == w.orbs)
  {
  }

  /**
   * apply_damage from enemy `e` to player `p`, as step's collision check
   * calls it: take_damage of at least 1, and whether the player is still
   * alive. A player without health is left alone and reported alive.
   */
  function Struck(p: Player, e: Enemy): (r: (Player, bool))
    ensures r.0 == p.(health := r.0.health)
    ensures p.health.None? ==> r == (p, true)
  {
    match p.health
    case None => (p, true)
    case Some(h) =>
      var h2 := Damaged(h, AtLeastOne(e.damage));
      (p.(health := Some(h2)), h2.isAlive)
  }

  /**
   * The hit of enemy `ei` on the player, in the world: no damage text, and
   * the game is over once the player is dead.
   */
  function PlayerHitW(w: World, ei: nat): (r: (World, bool))
    requires ei < |w.enemies| && w.player.Some?
    ensures Valid(w) ==> Valid(r.0)
    ensures r.0.enemies == w.enemies && r.0.nextId == w.nextId
    ensures r.0.mode == if r.1 then w.mode else GameOver
  {
    var (p, alive) := Struck(w.player.value, w.enemies[ei]);
    var w1 := w.(player := Some(p));
    if alive then (w1, true) else (w1.(mode := GameOver), false)
  }

  // -----------------------------------------------------------------------
  // The player's side of the enemy loop of step
  // -----------------------------------------------------------------------

  /**
   * Whether enemy `i` strikes the player in the pass of the enemy loop
   * over one kind (`elite`): it is of that kind, it is not dying, and
   * `touches(i)` says that after its move it is still within the despawn
   * distance and collides with the player.
   */
  predicate Strikes(es: seq<Enemy>, touches: nat -> bool, elite: bool, i: nat)
    requires i < |es|
  {
    es[i].elite == elite && !es[i].dying && touches(i)
  }

  /**
   * The pass of the enemy loop over the first `n` enemies of `es` of one
   * kind, as it concerns player `p`, in a game that is already over when
   * `over` holds: each enemy that strikes hits the player, and once the
   * game is over the loop does no more. The result is the player and
   * whether the game is over.
   */
  function ContactsUpTo(p: Player, over: bool, es: seq<Enemy>, touches: nat -> bool, elite: bool, n: nat): (r: (Player, bool))
    requires n <= |es|
    ensures r.0 == p.(health := r.0.health)
    ensures over ==> r == (p, true)
  {
    if n == 0 then (p, over)
    else
      var (q, done) := ContactsUpTo(p, over, es, touches, elite, n - 1);
      if done || !Strikes(es, touches, elite, n - 1) then (q, done)
      else
        var (q2, alive) := Struck(q, es[n - 1]);
        (q2, !alive)
  }

  /** The player's side of the whole enemy loop: the regular enemies, then the elites. */
  function ContactsW(w: World, touches: nat -> bool): (r: World)
    requires w.player.Some?
    ensures r == w.(player := r.player, mode := r.mode)
    ensures r.player.Some? && r.player.value == w.player.value.(health := r.player.value.health)
    ensures r.mode == w.mode || r.mode == GameOver
    ensures Valid(w) ==> Valid(r)
  {
    var (p1, o1) := ContactsUpTo(w.player.value, w.mode == GameOver, w.enemies, touches, false, |w.enemies|);
    var (p2, o2) := ContactsUpTo(p1, o1, w.enemies, touches, true, |w.enemies|);
    w.(player := Some(p2), mode := if o2 then GameOver else w.mode)
  }

  /**
   * One turn of the pass as the Game class runs it on its fields: the
   * world `v` after the first `i` enemies of `w` goes on with a hit from
   * enemy `i` when it strikes.
   */
  lemma ContactPassTurn(w: World, v: World, touches: nat -> bool, elite: bool, i: nat)
    requires w.player.Some? && i < |w.enemies|
    requires var r := ContactsUpTo(w.player.value, w.mode == GameOver, w.enemies, touches, elite, i);
      v == w.(player := Some(r.0), mode := if r.1 then GameOver else w.mode) && v.mode != GameOver
    ensures var r := ContactsUpTo(w.player.value, w.mode == GameOver, w.enemies, touches, elite, i + 1);
      (if Strikes(v.enemies, touches, elite, i) then PlayerHitW(v, i).0 else v)
        == w.(player := Some(r.0), mode := if r.1 then GameOver else w.mode)
  {
  }

  /** Once the game is over, the rest of the pass changes nothing. */
  lemma {:induction false} ContactsStopped(p: Player, over: bool, es: seq<Enemy>, touches: nat -> bool, elite: bool, n: nat, m: nat)
    requires n <= m <= |es| && ContactsUpTo(p, over, es, touches, elite, n).1
    ensures ContactsUpTo(p, over, es, touches, elite, m) == ContactsUpTo(p, over, es, touches, elite, n)
    decreases m
  {
    if m > n {
      ContactsStopped(p, over, es, touches, elite, n, m - 1);
    }
  }

  /** The damage of every enemy that strikes in the pass over the first `n` enemies, in loop order. */
  function Blows(es: seq<Enemy>, touches: nat -> bool, elite: bool, n: nat): (r: seq<int>)
    requires n <= |es|
    ensures forall k :: 0 <= k < |r| ==> r[k] >= 1
  {
    if n == 0 then []
    else Blows(es, touches, elite, n - 1) + if Strikes(es, touches, elite, n - 1) then [AtLeastOne(es[n - 1].damage)] else []
  }

  /** The sum of `ds`. */
  function Total(ds: seq<int>): int
  {
    if ds == [] then 0 else Total(ds[..|ds| - 1]) + ds[|ds| - 1]
  }

  /** The health after the blows `ds` taken all at once; with no blow it is left as it is. */
  function Hurt(h: HealthState, ds: seq<int>): HealthState
  {
    if ds == [] then h else Damaged(h, Total(ds))
  }

  /**
   * One more blow: after the blows that killed, it changes nothing; after
   * blows that did not, it is take_damage of what they left.
   */
  lemma HurtMore(h: HealthState, ds: seq<int>, d: int)
    requires h.isAlive && d >= 0
    ensures !Hurt(h, ds).isAlive ==> Hurt(h, ds + [d]) == Hurt(h, ds)
    ensures Hurt(h, ds).isAlive ==> Hurt(h, ds + [d]) == Damaged(Hurt(h, ds), d)
  {
    assert (ds + [d])[..|ds|] == ds;
    assert Total(ds + [d]) == Total(ds) + d;
  }

  /**
   * The player and game-over flag `r` are what the blows `ds` leave of a
   * living player of health `h`: its health is `h` after them, and the
   * game is over exactly when they kill.
   */
  predicate HurtBy(r: (Player, bool), h: HealthState, ds: seq<int>)
  {
    r.0.health == Some(Hurt(h, ds)) && (r.1 <==> !Hurt(h, ds).isAlive)
  }

  /**
   * The pass over the first `n` enemies, from a player whose health is
   * `h` after the blows `before`, the game being over exactly when those
   * killed: the health is `h` after those blows and the pass's, and the
   * game is over exactly when that kills.
   */
  lemma {:induction false} ContactsUpToHurts(p: Player, over: bool, es: seq<Enemy>, touches: nat -> bool, elite: bool, n: nat, h: HealthState, before: seq<int>)
    requires n <= |es| && h.isAlive && HurtBy((p, over), h, before)
    ensures HurtBy(ContactsUpTo(p, over, es, touches, elite, n), h, before + Blows(es, touches, elite, n))
  {
    if n == 0 {
      assert before + Blows(es, touches, elite, 0) == before;
    } else {
      ContactsUpToHurts(p, over, es, touches, elite, n - 1, h, before);
      ContactsUpToHurtsStep(p, over, es, touches, elite, n, h, before);
    }
  }

  /** The step of ContactsUpToHurts, from the first `n - 1` enemies to the first `n`. */
  lemma ContactsUpToHurtsStep(p: Player, over: bool, es: seq<Enemy>, touches: nat -> bool, elite: bool, n: nat, h: HealthState, before: seq<int>)
    requires 0 < n <= |es| && h.isAlive
    requires HurtBy(ContactsUpTo(p, over, es, touches, elite, n - 1), h, before + Blows(es, touches, elite, n - 1))
    ensures HurtBy(ContactsUpTo(p, over, es, touches, elite, n), h, before + Blows(es, touches, elite, n))
  {
    var ds1 := before + Blows(es, touches, elite, n - 1);
    if Strikes(es, touches, elite, n - 1) {
      assert before + Blows(es, touches, elite, n) == ds1 + [AtLeastOne(es[n - 1].damage)];
      HurtMore(h, ds1, AtLeastOne(es[n - 1].damage));
    } else {
      assert before + Blows(es, touches, elite, n) == ds1;
    }
  }

  /** A player without health is left alone by the pass. */
  lemma {:induction false} ContactsUpToNoHealth(p: Player, over: bool, es: seq<Enemy>, touches: nat -> bool, elite: bool, n: nat)
    requires n <= |es| && p.health.None?
    ensures ContactsUpTo(p, over, es, touches, elite, n) == (p, over)
  {
    if n > 0 {
      ContactsUpToNoHealth(p, over, es, touches, elite, n - 1);
    }
  }

  /**
   * The enemy loop's effect on the player in closed form: a player without
   * health is left alone; a living player's health takes the total of the
   * blows of every enemy that strikes, regular enemies first, and the game
   * is over exactly when that kills. Nothing else in the world changes.
   */
  lemma ContactsHurt(w: World, touches: nat -> bool)
    requires w.player.Some? && w.mode != GameOver
    ensures var r := ContactsW(w, touches);
      var ds := Blows(w.enemies, touches, false, |w.enemies|) + Blows(w.enemies, touches, true, |w.enemies|);
      var h := w.player.value.health;
      (h.None? ==> r == w)
      && (h.Some? && h.value.isAlive ==>
            r.player.value.health == Some(Hurt(h.value, ds))
            && (r.mode == GameOver <==> !Hurt(h.value, ds).isAlive)
            && (r.mode != GameOver ==> r.mode == w.mode))
  {
    var es := w.enemies;
    var (p1, o1) := ContactsUpTo(w.player.value, false, es, touches, false, |es|);
    if w.player.value.health.None? {
      ContactsUpToNoHealth(w.player.value, false, es, touches, false, |es|);
      ContactsUpToNoHealth(p1, o1, es, touches, true, |es|);
    } else if w.player.value.health.value.isAlive {
      var h := w.player.value.health.value;
      assert Hurt(h, []) == h;
      assert HurtBy((w.player.value, false), h, []);
      ContactsUpToHurts(w.player.value, false, es, touches, false, |es|, h, []);
      var bf := Blows(es, touches, false, |es|);
      assert [] + bf == bf;
      ContactsUpToHurts(p1, o1, es, touches, true, |es|, h, bf);
    }
  }

  // -----------------------------------------------------------------------
  // Experience pickup
  // -----------------------------------------------------------------------

  /** The player touches an orb. */
  predicate Touches(p: Player, o: XpOrb)
  {
    CheckCollision(PlayerBody(p), OrbBody(o), PlayerSize, XpSize)
  }

  /** The orbs left after a pickup pass: those the player does not touch, in order. */
  function Kept(p: Player, os: seq<XpOrb>): (r: seq<XpOrb>)
    ensures |r| <= |os|
    ensures forall o :: o in r ==> o in os && !Touches(p, o)
  {
    if os == [] then []
    else Kept(p, os[..|os| - 1]) + if Touches(p, os[|os| - 1]) then [] else [os[|os| - 1]]
  }

  /** The progress after picking up the touched orbs of `os` one by one. */
  function Gains(p: Player, os: seq<XpOrb>, pr: Progress): Progress
  {
    if os == [] then pr
    else
      var q := Gains(p, os[..|os| - 1], pr);
      if Touches(p, os[|os| - 1]) then GainXp(q) else q
  }

  /** Whether some pickup of the pass reached the threshold. */
  function Levelled(p: Player, os: seq<XpOrb>, pr: Progress): bool
  {
    if os == [] then false
    else
      Levelled(p, os[..|os| - 1], pr)
      || (Touches(p, os[|os| - 1]) && LevelsUp(Gains(p, os[..|os| - 1], pr)))
  }

  /**
   * The pickup pass: every touched orb gives 10 experience and goes;
   * reaching a threshold opens the upgrade menu with the options of the
   * player's weapons.
   */
  function PickupW(w: World): World
    requires w.player.Some?
  {
    var p := w.player.value;
    var up := Levelled(p, w.orbs, w.progress);
    w.(orbs := Kept(p, w.orbs), progress := Gains(p, w.orbs, w.progress),
       mode := if up then UpgradeMenu else w.mode,
       options := if up then UpgradeOptions(p.weapons) else w.options)
  }

  /** An orb is kept exactly when the player does not touch it. */
  lemma {:induction false} KeptExactly(p: Player, os: seq<XpOrb>, o: XpOrb)
    requires o in os
    ensures o in Kept(p, os) <==> !Touches(p, o)
  {
    var last := os[|os| - 1];
    if o != last {
      assert o in os[..|os| - 1] by {
        var i :| 0 <= i < |os| && os[i] == o;
        assert i < |os| - 1;
        assert os[..|os| - 1][i] == o;
      }
      KeptExactly(p, os[..|os| - 1], o);
    }
  }

  /**
   * The pass keeps the levelling invariant, adds exactly 10 experience per
   * orb taken, and opens the menu exactly when the level went up.
   */
  lemma {:induction false} GainsKeep(p: Player, os: seq<XpOrb>, pr: Progress)
    requires ProgressValid(pr)
    ensures ProgressValid(Gains(p, os, pr))
    ensures TotalXp(Gains(p, os, pr)) == TotalXp(pr) + XpPerOrb * (|os| - |Kept(p, os)|)
    ensures Gains(p, os, pr).level >= pr.level
    ensures Levelled(p, os, pr) <==> Gains(p, os, pr).level > pr.level
  {
    if os != [] {
      var init := os[..|os| - 1];
      GainsKeep(p, init, pr);
      GainXpKeeps(Gains(p, init, pr));
    }
  }

  /** The pickup pass keeps the invariant. */
  lemma PickupValid(w: World)
    requires Valid(w) && w.player.Some?
    ensures Valid(PickupW(w))
  {
    GainsKeep(w.player.value, w.orbs, w.progress);
    var k := Kept(w.player.value, w.orbs);
    assert forall i :: 0 <= i < |k| ==> k[i] in w.orbs;
  }

  // -----------------------------------------------------------------------
  // Per-frame counters: damage texts, enemy blinks, the death fade
  // -----------------------------------------------------------------------

  /** One frame of a damage text: its timer counts down; None once it reaches 0. */
  function TextTick(t: DamageText): Option<DamageText>
  {
    if t.timer - 1 <= 0 then None else Some(t.(timer := t.timer - 1))
  }

  /** The damage-text pass: texts whose timer runs out go, the rest count down. */
  function TextsTick(ts: seq<DamageText>): (r: seq<DamageText>)
    ensures |r| <= |ts|
  {
    if ts == [] then []
    else TextsTick(ts[..|ts| - 1]) + match TextTick(ts[|ts| - 1]) case Some(t) => [t] case None => []
  }

  /**
   * The texts left after the pass are exactly those whose timer was
   * above 1, each one frame lower.
   */
  lemma {:induction false} TextsTickMembers(ts: seq<DamageText>, t: DamageText)
    ensures t in TextsTick(ts) <==> t.timer > 0 && t.(timer := t.timer + 1) in ts
  {
    if ts != [] {
      var init, last := ts[..|ts| - 1], ts[|ts| - 1];
      TextsTickMembers(init, t);
      var tail := match TextTick(last) case Some(u) => [u] case None => [];
      assert TextsTick(ts) == TextsTick(init) + tail;
      assert t in tail <==> t.timer > 0 && t.(timer := t.timer + 1) == last;
      assert ts == init + [last];
    }
  }

  /** The text pass keeps every id below a bound that the texts' ids were below. */
  lemma {:induction false} TextsTickBelow(ts: seq<DamageText>, n: int)
    requires forall i :: 0 <= i < |ts| ==> ts[i].id < n
    ensures forall i :: 0 <= i < |TextsTick(ts)| ==> TextsTick(ts)[i].id < n
  {
    if ts != [] {
      TextsTickBelow(ts[..|ts| - 1], n);
    }
  }

  /**
   * A damage text lives exactly its 60 frames: after `n` ticks it is
   * still there with `60 - n` left for `n < 60`, and gone on the 60th.
   */
  lemma {:induction false} TextLifetime(t: DamageText, n: nat)
    requires t.timer == DamageTextDuration && 1 <= n
    ensures TextTimes(t, n).Some? <==> n < DamageTextDuration
    ensures n < DamageTextDuration ==> TextTimes(t, n) == Some(t.(timer := DamageTextDuration - n))
  {
    if n > 1 {
      TextLifetime(t, n - 1);
    }
  }

  function TextTimes(t: DamageText, n: nat): Option<DamageText>
  {
    if n == 0 then Some(t)
    else match TextTimes(t, n - 1) case Some(u) => TextTick(u) case None => None
  }

  /** The blink pass: a living enemy's positive blink timer counts down; a dying one is skipped. */
  function BlinkTick(e: Enemy): (r: Enemy)
    ensures r == e.(blinkTimer := r.blinkTimer)
    ensures r.blinkTimer >= 0 || r.blinkTimer == e.blinkTimer
  {
    if !e.dying && e.blinkTimer > 0 then e.(blinkTimer := e.blinkTimer - 1) else e
  }

  /** The death-fade pass on the world. */
  function FadeW(w: World): (r: World)
    ensures Valid(w) ==> Valid(r)
    ensures Unmoved(w, r)
  {
    var r := w.(enemies := Fade(w.enemies));
    FadeSubset(w.enemies);
    r
  }

  /** Every enemy left by the fade was there before, with its timer perhaps lowered. */
  lemma {:induction false} FadeSubset(es: seq<Enemy>)
    ensures forall e :: e in Fade(es) ==> exists f :: f in es && e.id == f.id
    decreases |es|
  {
    if es != [] {
      FadeSubset(es[1..]);
      forall e | e in Fade(es) ensures exists f :: f in es && e.id == f.id {
        var head := match FadeOne(es[0]) case Some(x) => [x] case None => [];
        assert Fade(es) == head + Fade(es[1..]);
        if e in head {
          assert es[0] in es;
        } else {
          var f :| f in es[1..] && e.id == f.id;
          assert f in es;
        }
      }
    }
  }

  // -----------------------------------------------------------------------
  // The weapon pass: timers, then the Magic Wand's pierce, then removal
  // -----------------------------------------------------------------------

  /** Every weapon after one frame of its timers. */
  function Ticked(ws: seq<Weapon>, p: Option<Player>): (r: seq<Weapon>)
    ensures |r| == |ws|
    ensures forall i :: 0 <= i < |ws| ==> r[i] == TickWeapon(ws[i], p).0
  {
    seq(|ws|, i requires 0 <= i < |ws| => TickWeapon(ws[i], p).0)
  }

  /** Which weapons the timers mark for removal. */
  function TimerDoomed(ws: seq<Weapon>, p: Option<Player>): (r: seq<bool>)
    ensures |r| == |ws|
    ensures forall i :: 0 <= i < |ws| ==> r[i] == TickWeapon(ws[i], p).1
  {
    seq(|ws|, i requires 0 <= i < |ws| => TickWeapon(ws[i], p).1)
  }

  /** The first enemy from index `from` on, of the given eliteness, that the missile collides with. */
  function FirstOf(m: Weapon, es: seq<Enemy>, elite: bool, from: nat): (r: Option<nat>)
    ensures r.Some? ==>
      from <= r.value < |es| && es[r.value].elite == elite
      && CheckCollision(WeaponBody(m), EnemyBody(es[r.value]), WeaponSize, if elite then EliteSize else EnemySize)
    ensures r.Some? ==> forall j :: from <= j < r.value && es[j].elite == elite ==>
      !CheckCollision(WeaponBody(m), EnemyBody(es[j]), WeaponSize, if elite then EliteSize else EnemySize)
    ensures r.None? ==> forall j :: from <= j < |es| && es[j].elite == elite ==>
      !CheckCollision(WeaponBody(m), EnemyBody(es[j]), WeaponSize, if elite then EliteSize else EnemySize)
    decreases |es| - from
  {
    if from >= |es| then None
    else if es[from].elite == elite
      && CheckCollision(WeaponBody(m), EnemyBody(es[from]), WeaponSize, if elite then EliteSize else EnemySize)
    then Some(from)
    else FirstOf(m, es, elite, from + 1)
  }

  /**
   * One enemy kind's turn in the pierce step for weapon `i`: the first
   * enemy of that kind the missile collides with takes its damage
   * (apply_damage), and the missile loses one pierce, marked for removal
   * once its pierce runs out.
   */
  function StrikeKindW(w: World, doomed: seq<bool>, i: nat, elite: bool, drop: bool): (r: (World, seq<bool>))
    requires i < |w.weapons| && |doomed| == |w.weapons|
    ensures |r.0.weapons| == |w.weapons| && |r.1| == |w.weapons| && Unmoved(w, r.0)
    ensures Valid(w) ==> Valid(r.0)
    ensures forall j :: 0 <= j < |w.weapons| && j != i ==> r.0.weapons[j] == w.weapons[j] && r.1[j] == doomed[j]
    ensures r.0.weapons[i].id == w.weapons[i].id
  {
    var m := w.weapons[i];
    match FirstOf(m, w.enemies, elite, 0)
    case None => (w, doomed)
    case Some(j) =>
      var w1 := WeaponHitW(w, i, j, m.damage, drop).0;
      var (m2, gone) := PierceHit(w1.weapons[i]);
      (w1.(weapons := w1.weapons[i := m2]), doomed[i := doomed[i] || gone])
  }

  /**
   * The pierce step for weapon `i`: a Magic Wand missile takes the regular
   * enemies' turn, then the elites'. The loop over one kind breaks after
   * its hit but the loop over the two kinds does not, so one missile can
   * strike a regular enemy and an elite in the same pass. The drop roll
   * only matters for a regular enemy: an elite always drops its orb.
   */
  function PierceAt(w: World, doomed: seq<bool>, i: nat, drop: bool): (r: (World, seq<bool>))
    requires i < |w.weapons| && |doomed| == |w.weapons|
    ensures |r.0.weapons| == |w.weapons| && |r.1| == |w.weapons| && Unmoved(w, r.0)
    ensures Valid(w) ==> Valid(r.0)
    ensures forall j :: 0 <= j < |w.weapons| && j != i ==> r.0.weapons[j] == w.weapons[j] && r.1[j] == doomed[j]
    ensures r.0.weapons[i].id == w.weapons[i].id
    ensures w.weapons[i].name != "MagicWand" ==> r == (w, doomed)
  {
    if w.weapons[i].name != "MagicWand" then (w, doomed)
    else
      var (w1, d1) := StrikeKindW(w, doomed, i, false, drop);
      StrikeKindW(w1, d1, i, true, drop)
  }

  /** The pierce pass over the first `n` weapons; `drops(i)` is the drop roll for a kill by weapon `i`. */
  function PierceUpTo(w: World, doomed: seq<bool>, drops: nat -> bool, n: nat): (r: (World, seq<bool>))
    requires n <= |w.weapons| && |doomed| == |w.weapons|
    ensures |r.0.weapons| == |w.weapons| && |r.1| == |w.weapons| && Unmoved(w, r.0)
    ensures Valid(w) ==> Valid(r.0)
    ensures forall j :: n <= j < |w.weapons| ==> r.0.weapons[j] == w.weapons[j] && r.1[j] == doomed[j]
    ensures forall j :: 0 <= j < |w.weapons| ==> r.0.weapons[j].id == w.weapons[j].id
  {
    if n == 0 then (w, doomed)
    else
      var prev := PierceUpTo(w, doomed, drops, n - 1);
      PierceAt(prev.0, prev.1, n - 1, drops(n - 1))
  }

  /** The pass leaves every weapon other than a Magic Wand missile, and its mark, as they were. */
  lemma {:induction false} PierceKeepsOthers(w: World, doomed: seq<bool>, drops: nat -> bool, n: nat, j: nat)
    requires n <= |w.weapons| && |doomed| == |w.weapons| && j < |w.weapons| && w.weapons[j].name != "MagicWand"
    ensures PierceUpTo(w, doomed, drops, n).0.weapons[j] == w.weapons[j]
    ensures PierceUpTo(w, doomed, drops, n).1[j] == doomed[j]
    decreases n
  {
    if n > 0 {
      PierceKeepsOthers(w, doomed, drops, n - 1, j);
      var prev := PierceUpTo(w, doomed, drops, n - 1);
      PierceAtKeeps(prev.0, prev.1, n - 1, drops(n - 1), j);
      PierceUpToStep(w, doomed, drops, n);
    }
  }

  /** One unfolding of the pass. */
  lemma PierceUpToStep(w: World, doomed: seq<bool>, drops: nat -> bool, n: nat)
    requires 0 < n <= |w.weapons| && |doomed| == |w.weapons|
    ensures var prev := PierceUpTo(w, doomed, drops, n - 1);
      PierceUpTo(w, doomed, drops, n) == PierceAt(prev.0, prev.1, n - 1, drops(n - 1))
  {
  }

  /** One pierce step leaves a weapon other than a Magic Wand missile, and its mark, as they were. */
  lemma PierceAtKeeps(w: World, doomed: seq<bool>, i: nat, drop: bool, j: nat)
    requires i < |w.weapons| && |doomed| == |w.weapons| && j < |w.weapons| && w.weapons[j].name != "MagicWand"
    ensures PierceAt(w, doomed, i, drop).0.weapons[j] == w.weapons[j]
    ensures PierceAt(w, doomed, i, drop).1[j] == doomed[j]
  {
  }

  /** The weapons not marked for removal, in order. */
  function Survivors(ws: seq<Weapon>, doomed: seq<bool>): (r: seq<Weapon>)
    requires |doomed| == |ws|
    ensures |r| <= |ws|
    ensures forall x :: x in r ==> x in ws
  {
    if ws == [] then []
    else Survivors(ws[..|ws| - 1], doomed[..|ws| - 1]) + if doomed[|ws| - 1] then [] else [ws[|ws| - 1]]
  }

  /** A weapon survives the flush exactly when it is not marked, given distinct weapons. */
  lemma {:induction false} SurvivorsExactly(ws: seq<Weapon>, doomed: seq<bool>, i: nat)
    requires |doomed| == |ws| && i < |ws|
    requires forall a, b :: 0 <= a < b < |ws| ==> ws[a].id != ws[b].id
    ensures ws[i] in Survivors(ws, doomed) <==> !doomed[i]
  {
    var n := |ws| - 1;
    var init, dinit := ws[..n], doomed[..n];
    var rest := Survivors(init, dinit);
    assert Survivors(ws, doomed) == rest + if doomed[n] then [] else [ws[n]];
    if i < n {
      assert ws[i] == init[i];
      DistinctInit(ws, init);
      SurvivorsExactly(init, dinit, i);
      assert ws[i].id != ws[n].id;
    } else {
      assert forall k :: 0 <= k < |init| ==> init[k].id != ws[n].id;
      assert ws[n] !in init;
    }
  }

  /** Distinct ids stay distinct without the last weapon. */
  lemma DistinctInit(ws: seq<Weapon>, init: seq<Weapon>)
    requires ws != [] && init == ws[..|ws| - 1]
    requires forall a, b :: 0 <= a < b < |ws| ==> ws[a].id != ws[b].id
    ensures forall a, b :: 0 <= a < b < |init| ==> init[a].id != init[b].id
  {
    assert forall a :: 0 <= a < |init| ==> init[a] == ws[a];
  }

  /**
   * The weapon pass of step: every weapon's timers tick, the Magic Wand
   * missiles strike, and the weapons marked by either are removed.
   */
  function WeaponPassW(w: World, drops: nat -> bool): (r: World)
    ensures Unmoved(w, r)
  {
    var ticked := Ticked(w.weapons, w.player);
    var w1 := w.(weapons := ticked);
    var (w2, doomed) := PierceUpTo(w1, TimerDoomed(w.weapons, w.player), drops, |ticked|);
    w2.(weapons := Survivors(w2.weapons, doomed))
  }

  /** The weapon pass keeps the invariant. */
  lemma WeaponPassValid(w: World, drops: nat -> bool)
    requires Valid(w)
    ensures Valid(WeaponPassW(w, drops))
  {
    var ticked := Ticked(w.weapons, w.player);
    var w1 := w.(weapons := ticked);
    SameIdsValid(w, ticked);
    var (w2, doomed) := PierceUpTo(w1, TimerDoomed(w.weapons, w.player), drops, |ticked|);
    FewerWeaponsValid(w2, Survivors(w2.weapons, doomed));
  }

  /** Weapons that keep their ids keep the invariant. */
  lemma SameIdsValid(w: World, ws: seq<Weapon>)
    requires Valid(w) && |ws| == |w.weapons|
    requires forall i :: 0 <= i < |ws| ==> ws[i].id == w.weapons[i].id
    ensures Valid(w.(weapons := ws))
  {
  }

  /** Keeping only weapons already there keeps the invariant. */
  lemma FewerWeaponsValid(w: World, ws: seq<Weapon>)
    requires Valid(w)
    requires forall x :: x in ws ==> x in w.weapons
    ensures Valid(w.(weapons := ws))
  {
    assert forall i :: 0 <= i < |ws| ==> ws[i] in w.weapons;
  }

  /**
   * A weapon other than a Magic Wand missile leaves the pass exactly as its
   * timers made it, and, the weapons' ids being distinct, stays exactly
   * when they did not mark it.
   */
  lemma OtherWeaponsOnlyTick(w: World, drops: nat -> bool, i: nat)
    requires i < |w.weapons| && w.weapons[i].name != "MagicWand"
    requires forall a, b :: 0 <= a < b < |w.weapons| ==> w.weapons[a].id != w.weapons[b].id
    ensures TickWeapon(w.weapons[i], w.player).0 in WeaponPassW(w, drops).weapons <==> !TickWeapon(w.weapons[i], w.player).1
  {
    var ticked := Ticked(w.weapons, w.player);
    var w1 := w.(weapons := ticked);
    var (w2, doomed) := PierceUpTo(w1, TimerDoomed(w.weapons, w.player), drops, |ticked|);
    PierceKeepsOthers(w1, TimerDoomed(w.weapons, w.player), drops, |ticked|, i);
    assert w2.weapons[i] == ticked[i] && doomed[i] == TickWeapon(w.weapons[i], w.player).1;
    SurvivorsExactly(w2.weapons, doomed, i);
  }

  // -----------------------------------------------------------------------
  // Firing: the cooldown loop of step and the spawn routines it calls
  // -----------------------------------------------------------------------

  /** The aiming a homing missile does with atan2, and the random angle of one without a target. */
  datatype Aim = Aim(toward: (Pos, Pos) -> int, wander: nat -> int)

  /** Add a weapon record built with the next id, if there is one. */
  function AddShotW(w: World, x: Option<Weapon>): (r: World)
    requires x.Some? ==> x.value.id == w.nextId
    ensures Valid(w) ==> Valid(r)
    ensures r == w.(weapons := r.weapons, nextId := r.nextId)
    ensures x.None? ==> r == w
    ensures x.Some? ==> r.weapons == w.weapons + [x.value] && r.nextId == w.nextId + 1
  {
    match x
    case None => w
    case Some(v) => w.(weapons := w.weapons + [v], nextId := w.nextId + 1)
  }

  /** A book bound to the player with this id. */
  predicate Bound(x: Weapon, pid: int)
  {
    x.name == "KingBible" && x.orbit.Some? && x.orbit.value.targetPlayerId == pid
  }

  /** The weapons without the player's books, in order. */
  function Unbound(ws: seq<Weapon>, pid: int): (r: seq<Weapon>)
    ensures |r| <= |ws|
    ensures forall x :: x in r ==> x in ws && !Bound(x, pid)
  {
    if ws == [] then []
    else Unbound(ws[..|ws| - 1], pid) + if Bound(ws[|ws| - 1], pid) then [] else [ws[|ws| - 1]]
  }

  /** How many of the weapons are the player's books. */
  function BoundCount(ws: seq<Weapon>, pid: int): nat
  {
    if ws == [] then 0
    else BoundCount(ws[..|ws| - 1], pid) + if Bound(ws[|ws| - 1], pid) then 1 else 0
  }

  lemma BoundCountNone(ws: seq<Weapon>, pid: int)
    requires forall x :: x in ws ==> !Bound(x, pid)
    ensures BoundCount(ws, pid) == 0
  {
    if ws != [] {
      assert forall x :: x in ws[..|ws| - 1] ==> x in ws;
      BoundCountNone(ws[..|ws| - 1], pid);
    }
  }

  lemma BoundCountAppend(ws: seq<Weapon>, x: Weapon, pid: int)
    requires Bound(x, pid)
    ensures BoundCount(ws + [x], pid) == BoundCount(ws, pid) + 1
  {
    assert (ws + [x])[..|ws|] == ws;
  }

  /**
   * spawn_orbiting_book, book `i` of `count`: book 0 first removes the
   * player's current books, then each call adds one book bound to the
   * player.
   */
  function BookW(w: World, name: string, level: int, i: int, count: int): (r: World)
    requires w.player.Some?
    ensures Valid(w) ==> Valid(r)
    ensures r.player == w.player && r.enemies == w.enemies && r.orbs == w.orbs && r.texts == w.texts
    ensures r == w.(weapons := r.weapons, nextId := r.nextId)
  {
    if level <= 0 then w
    else
      var p := w.player.value;
      var w1 := if i == 0 then w.(weapons := Unbound(w.weapons, p.id)) else w;
      assert Valid(w) ==> Valid(w1) by {
        if Valid(w) && i == 0 {
          var u := Unbound(w.weapons, p.id);
          assert forall k :: 0 <= k < |u| ==> u[k] in w.weapons;
        }
      }
      AddShotW(w1, OrbitBook(w1.nextId, name, level, p.pos, i, p.id))
  }

  /** The first `n` books of a group of `count`. */
  function BooksW(w: World, name: string, level: int, count: int, n: nat): (r: World)
    requires w.player.Some?
    ensures Valid(w) ==> Valid(r)
    ensures r.player == w.player && r.enemies == w.enemies && r.orbs == w.orbs && r.texts == w.texts
    ensures r == w.(weapons := r.weapons, nextId := r.nextId)
  {
    if n == 0 then w else BookW(BooksW(w, name, level, count, n - 1), name, level, n - 1, count)
  }

  /** Book 0 leaves the player exactly one book; every later book adds one. */
  lemma BookCounts(w: World, level: int, i: int, count: int)
    requires w.player.Some? && level >= 1
    ensures var pid := w.player.value.id;
      BoundCount(BookW(w, KingBible.name, level, i, count).weapons, pid)
      == if i == 0 then 1 else BoundCount(w.weapons, pid) + 1
  {
    var p := w.player.value;
    var base := if i == 0 then Unbound(w.weapons, p.id) else w.weapons;
    var b := OrbitBook(w.nextId, KingBible.name, level, p.pos, i, p.id).value;
    assert Bound(b, p.id);
    assert BookW(w, KingBible.name, level, i, count).weapons == base + [b];
    BoundCountAppend(base, b, p.id);
    if i == 0 {
      BoundCountNone(base, p.id);
    }
  }

  /**
   * After a King Bible group of `n >= 1` books is spawned, the player has
   * exactly `n` books: the group replaces any earlier one.
   */
  lemma {:induction false} OneGroup(w: World, level: int, count: int, n: nat)
    requires w.player.Some? && level >= 1 && n >= 1
    ensures BoundCount(BooksW(w, KingBible.name, level, count, n).weapons, w.player.value.id) == n
  {
    var prev := BooksW(w, KingBible.name, level, count, n - 1);
    BookCounts(prev, level, n - 1, count);
    if n > 1 {
      OneGroup(w, level, count, n - 1);
    }
  }

  /** The regular enemies, then the elites: the list spawn_homing_missile chooses from. */
  function Ordered(es: seq<Enemy>): (r: seq<Enemy>)
    ensures |r| == |es|
    ensures forall e :: e in r <==> e in es
  {
    KindsSplit(es);
    OfKind(es, false) + OfKind(es, true)
  }

  lemma {:induction false} KindsSplit(es: seq<Enemy>)
    ensures |OfKind(es, false)| + |OfKind(es, true)| == |es|
    ensures forall e :: e in es <==> e in OfKind(es, false) || e in OfKind(es, true)
  {
    if es != [] {
      var init := es[..|es| - 1];
      KindsSplit(init);
      assert es == init + [es[|es| - 1]];
    }
  }

  /** The enemies of one kind, in order. */
  function OfKind(es: seq<Enemy>, elite: bool): (r: seq<Enemy>)
    ensures |r| <= |es|
    ensures forall e :: e in r ==> e in es && e.elite == elite
  {
    if es == [] then []
    else OfKind(es[..|es| - 1], elite) + if es[|es| - 1].elite == elite then [es[|es| - 1]] else []
  }

  /** The ids of the enemies the targets name. */
  function UsedIds(es: seq<Enemy>, ts: seq<Option<nat>>): set<int>
    requires forall k :: 0 <= k < |ts| && ts[k].Some? ==> ts[k].value < |es|
  {
    if ts == [] then {}
    else UsedIds(es, ts[..|ts| - 1]) + match ts[|ts| - 1] case Some(j) => {es[j].id} case None => {}
  }

  /**
   * The greedy choice of spawn_homing_missile: missile `k` takes the
   * nearest enemy whose id no earlier missile took, or none when all are
   * taken.
   */
  function Greedy(p: Pos, es: seq<Enemy>, n: nat): (r: seq<Option<nat>>)
    ensures |r| == n
    ensures forall k :: 0 <= k < n && r[k].Some? ==> r[k].value < |es|
  {
    if n == 0 then []
    else
      var prev := Greedy(p, es, n - 1);
      prev + [Nearest(p, es, UsedIds(es, prev))]
  }

  lemma {:induction false} GreedyPrefix(p: Pos, es: seq<Enemy>, n: nat, m: nat)
    requires m <= n
    ensures Greedy(p, es, n)[..m] == Greedy(p, es, m)
  {
    if m < n {
      GreedyPrefix(p, es, n - 1, m);
      assert Greedy(p, es, n)[..n - 1] == Greedy(p, es, n - 1);
    }
  }

  lemma {:induction false} UsedIdsHas(es: seq<Enemy>, ts: seq<Option<nat>>, k: nat)
    requires forall j :: 0 <= j < |ts| && ts[j].Some? ==> ts[j].value < |es|
    requires k < |ts| && ts[k].Some?
    ensures es[ts[k].value].id in UsedIds(es, ts)
  {
    if k < |ts| - 1 {
      UsedIdsHas(es, ts[..|ts| - 1], k);
    }
  }

  /** The greedy target of missile `b`, in terms of the targets before it. */
  lemma GreedyStep(p: Pos, es: seq<Enemy>, n: nat, b: nat)
    requires b < n
    ensures Greedy(p, es, n)[b] == Nearest(p, es, UsedIds(es, Greedy(p, es, n)[..b]))
  {
    GreedyPrefix(p, es, n, b + 1);
    GreedyPrefix(p, es, n, b);
    assert Greedy(p, es, n)[b] == Greedy(p, es, b + 1)[b];
  }

  /**
   * The loop of spawn_homing_missile builds the greedy targets one at a
   * time: after the first `|ts|` targets, the next is the nearest enemy
   * whose id they did not take.
   */
  lemma GreedyNext(p: Pos, es: seq<Enemy>, n: nat, ts: seq<Option<nat>>)
    requires |ts| < n && ts == Greedy(p, es, |ts|)
    ensures Greedy(p, es, n)[|ts|] == Nearest(p, es, UsedIds(es, ts))
    ensures Greedy(p, es, |ts| + 1) == ts + [Greedy(p, es, n)[|ts|]]
  {
    GreedyStep(p, es, n, |ts|);
    GreedyPrefix(p, es, n, |ts|);
  }

  /** The ids taken grow by the id of each new target. */
  lemma UsedIdsAppend(es: seq<Enemy>, ts: seq<Option<nat>>, x: Option<nat>)
    requires forall k :: 0 <= k < |ts| && ts[k].Some? ==> ts[k].value < |es|
    requires x.Some? ==> x.value < |es|
    ensures x.Some? ==> UsedIds(es, ts + [x]) == UsedIds(es, ts) + {es[x.value].id}
    ensures x.None? ==> UsedIds(es, ts + [x]) == UsedIds(es, ts)
  {
    assert (ts + [x])[..|ts|] == ts;
  }

  /** No two missiles take the same enemy. */
  lemma GreedyDistinct(p: Pos, es: seq<Enemy>, n: nat, a: nat, b: nat)
    requires a < b < n
    ensures var ts := Greedy(p, es, n);
      ts[a].Some? && ts[b].Some? ==> es[ts[a].value].id != es[ts[b].value].id
  {
    var ts := Greedy(p, es, n);
    GreedyStep(p, es, n, b);
    if ts[a].Some? {
      UsedIdsHas(es, ts[..b], a);
    }
  }

  /**
   * Each missile takes the nearest enemy not taken before it, and goes
   * without a target only when every enemy is taken.
   */
  lemma GreedyNearest(p: Pos, es: seq<Enemy>, n: nat, b: nat)
    requires b < n
    ensures var ts := Greedy(p, es, n);
      (ts[b].Some? ==>
        es[ts[b].value].id !in UsedIds(es, ts[..b])
        && forall j :: 0 <= j < |es| && es[j].id !in UsedIds(es, ts[..b]) ==>
             SquaredDistance(p, es[ts[b].value].pos) <= SquaredDistance(p, es[j].pos))
      && (ts[b].None? ==> forall j :: 0 <= j < |es| ==> es[j].id in UsedIds(es, ts[..b]))
  {
    GreedyStep(p, es, n, b);
  }

  /** The first `n` missiles of spawn_homing_missile, aimed at their greedy targets. */
  function MissilesW(w: World, t: WeaponType, level: int, es: seq<Enemy>, aim: Aim, ts: seq<Option<nat>>, n: nat): (r: World)
    requires w.player.Some? && n <= |ts|
    requires forall k :: 0 <= k < |ts| && ts[k].Some? ==> ts[k].value < |es|
    ensures Valid(w) ==> Valid(r)
    ensures r == w.(weapons := r.weapons, nextId := r.nextId)
    ensures r.nextId == w.nextId + n && |r.weapons| == |w.weapons| + n && w.weapons <= r.weapons
  {
    if n == 0 then w
    else
      var w1 := MissilesW(w, t, level, es, aim, ts, n - 1);
      var from := w1.player.value.pos;
      var angle := match ts[n - 1] case Some(j) => aim.toward(from, es[j].pos) case None => aim.wander(n - 1);
      AddShotW(w1, Some(HomingShot(w1.nextId, t, level, from, angle)))
  }

  /** spawn_homing_missile: nothing without enemies; else `amount` missiles. */
  function HomingW(w: World, t: WeaponType, level: int, aim: Aim): (r: World)
    requires w.player.Some?
    ensures Valid(w) ==> Valid(r)
    ensures r == w.(weapons := r.weapons, nextId := r.nextId)
  {
    var es := Ordered(w.enemies);
    if es == [] then w
    else
      var n := HomingAmount(t, level);
      MissilesW(w, t, level, es, aim, Greedy(w.player.value.pos, es, n), n)
  }

  /** Shot `i` of `count` for a weapon of the given behaviour. */
  function ShotW(w: World, t: WeaponType, level: int, i: nat, count: int, aim: Aim): (r: World)
    requires w.player.Some?
    ensures Valid(w) ==> Valid(r)
    ensures r == w.(weapons := r.weapons, nextId := r.nextId)
  {
    var p := w.player.value;
    var id := w.nextId;
    match t.behavior
    case HorizontalSlash => AddShotW(w, CatalogShot(id, t.name, level, p.pos, WhipAngle(i)))
    case HomingMissile => HomingW(w, t, level, aim)
    case StraightShot => AddShotW(w, Rules.StraightShot(id, t.name, level, p.pos))
    case ArcThrow => AddShotW(w, ArcShot(id, t.name, level, p.pos, i, count))
    case Boomerang => AddShotW(w, Some(BoomerangShot(id, t.name, level, p.pos)))
    case Orbit => BookW(w, t.name, level, i, count)
    case FanShot => AddShotW(w, Rules.FanShot(id, t.name, level, p.pos, i, count))
    case Aura => AddShotW(w, AuraShot(id, t.name, level, p.pos))
  }
  /**
   * A Whip slash of the cooldown loop lands beside the player: shot `i`
   * is appended 50 pixels to its right when `i` is even and 50 to its left
   * when odd, level with it, facing away from it.
   */
  lemma SlashBesidePlayer(w: World, t: WeaponType, level: int, i: nat, count: int, aim: Aim)
    requires w.player.Some? && t.behavior == HorizontalSlash && Find(t.name).Some? && level > 0
    requires w.player.value.pos.y >= 0
    ensures var r := ShotW(w, t, level, i, count, aim); var p := w.player.value.pos;
      |r.weapons| == |w.weapons| + 1 && r.weapons[..|w.weapons|] == w.weapons &&
      r.weapons[|w.weapons|].pos == Pos(p.x + (if i % 2 == 0 then 50 else -50), p.y) &&
      r.weapons[|w.weapons|].angle == WhipAngle(i) && r.weapons[|w.weapons|].name == t.name
  {
    SlashesFlank(w.nextId, t.name, level, w.player.value.pos, i);
    var r := ShotW(w, t, level, i, count, aim);
    assert r.weapons == w.weapons + [CatalogShot(w.nextId, t.name, level, w.player.value.pos, WhipAngle(i)).value];
  }


  /** The first `n` shots of a firing of `count`. */
  function ShotsW(w: World, t: WeaponType, level: int, count: int, aim: Aim, n: nat): (r: World)
    requires w.player.Some?
    ensures Valid(w) ==> Valid(r)
    ensures r == w.(weapons := r.weapons, nextId := r.nextId)
  {
    if n == 0 then w else ShotW(ShotsW(w, t, level, count, aim, n - 1), t, level, n - 1, count, aim)
  }

  /** `player.get("<name>_cooldown", 0)`. */
  function CooldownOf(p: Player, name: string): real
  {
    if name in p.cooldowns then p.cooldowns[name] else 0.0
  }

  /** What one firing of a weapon at a level spawns: the King Bible its group, the others `count` shots. */
  function LaunchW(w: World, t: WeaponType, level: int, aim: Aim): (r: World)
    requires w.player.Some? && level >= 1
    ensures Valid(w) ==> Valid(r)
    ensures r == w.(weapons := r.weapons, nextId := r.nextId)
  {
    if t.name == "KingBible" then
      var amount := BibleAmount(level);
      BooksW(w, t.name, level, amount, amount)
    else
      var count := ShotCount(t, level);
      ShotsW(w, t, level, count, aim, if count > 0 then count else 0)
  }

  /**
   * One catalog weapon in the cooldown loop: a weapon the player does not
   * own is skipped; an owned one whose cooldown has run out fires and
   * re-arms; otherwise its cooldown counts down by one.
   */
  function FireOneW(w: World, t: WeaponType, aim: Aim): (r: World)
    requires w.player.Some?
    ensures Valid(w) ==> Valid(r)
    ensures r.player.Some? && r.player.value == w.player.value.(cooldowns := r.player.value.cooldowns)
    ensures r == w.(player := r.player, weapons := r.weapons, nextId := r.nextId)
  {
    var p := w.player.value;
    var level := LevelOf(p.weapons, t.name);
    if level <= 0 then w
    else
      var cd := CooldownOf(p, t.name);
      if cd <= 0.0 then
        var w1 := LaunchW(w, t, level, aim);
        w1.(player := Some(p.(cooldowns := p.cooldowns[t.name := RearmCooldown(t, level) as real])))
      else w.(player := Some(p.(cooldowns := p.cooldowns[t.name := cd - 1.0])))
  }

  /** The cooldown loop over the first `n` catalog weapons. */
  function FireAllW(w: World, aim: Aim, n: nat): (r: World)
    requires w.player.Some? && n <= |WeaponTypes|
    ensures Valid(w) ==> Valid(r)
    ensures r.player.Some? && r.player.value == w.player.value.(cooldowns := r.player.value.cooldowns)
    ensures r == w.(player := r.player, weapons := r.weapons, nextId := r.nextId)
  {
    if n == 0 then w else FireOneW(FireAllW(w, aim, n - 1), WeaponTypes[n - 1], aim)
  }

  /**
   * Firing weapon type `t` once, seen from the cooldown of `name`, between
   * the player before (`p`) and after (`q`): untouched unless it is `t`'s
   * own and `t` is owned; re-armed when it had run out; one lower otherwise.
   */
  ghost predicate OneCooldown(p: Player, q: Player, t: WeaponType, name: string)
  {
    var level := LevelOf(p.weapons, t.name);
    (name != t.name || level <= 0 ==> (name in q.cooldowns <==> name in p.cooldowns) && CooldownOf(q, name) == CooldownOf(p, name))
    && (name == t.name && level > 0 && CooldownOf(p, name) <= 0.0 ==> CooldownOf(q, name) == RearmCooldown(t, level) as real)
    && (name == t.name && level > 0 && CooldownOf(p, name) > 0.0 ==> CooldownOf(q, name) == CooldownOf(p, name) - 1.0)
  }

  /** One weapon of the cooldown loop changes its own cooldown and no other. */
  lemma FireOneCooldown(w: World, t: WeaponType, aim: Aim, name: string)
    requires w.player.Some?
    ensures OneCooldown(w.player.value, FireOneW(w, t, aim).player.value, t, name)
  {
  }

  /**
   * The cooldown of catalog weapon `k` after the loop over the first `n`
   * catalog weapons, between the player before (`p`) and after (`q`):
   * untouched when the player does not own it or `k >= n`; re-armed to the
   * catalog's cooldown at its level, at least 22 frames, when it fired;
   * one frame lower otherwise.
   */
  ghost predicate CooldownsAfter(p: Player, q: Player, k: nat, n: nat)
    requires k < |WeaponTypes|
  {
    var t := WeaponTypes[k];
    var level := LevelOf(p.weapons, t.name);
    (k >= n || level <= 0 ==> (t.name in q.cooldowns <==> t.name in p.cooldowns) && CooldownOf(q, t.name) == CooldownOf(p, t.name))
    && (k < n && level > 0 && CooldownOf(p, t.name) <= 0.0 ==>
          CooldownOf(q, t.name) == (t.cooldown + Gained(t, level, Cooldown)) as real && 22.0 <= CooldownOf(q, t.name))
    && (k < n && level > 0 && CooldownOf(p, t.name) > 0.0 ==> CooldownOf(q, t.name) == CooldownOf(p, t.name) - 1.0)
  }

  /**
   * After the cooldown loop over the first `n` catalog weapons, weapon
   * `k`'s cooldown is as `CooldownsAfter` says: so the King Bible's 180
   * frames set just before are overwritten, and the floor of 5 is never
   * reached.
   */
  lemma {:induction false} FireAllCooldowns(w: World, aim: Aim, n: nat, k: nat)
    requires w.player.Some? && n <= |WeaponTypes| && k < |WeaponTypes|
    ensures CooldownsAfter(w.player.value, FireAllW(w, aim, n).player.value, k, n)
  {
    if n > 0 {
      var prev := FireAllW(w, aim, n - 1);
      FireAllCooldowns(w, aim, n - 1, k);
      FireOneCooldown(prev, WeaponTypes[n - 1], aim, WeaponTypes[k].name);
      CooldownsStep(w.player.value, prev.player.value, FireAllW(w, aim, n).player.value, k, n);
    }
  }

  /** One more weapon of the loop: its firing keeps what the loop before it established about weapon `k`. */
  lemma CooldownsStep(p: Player, pv: Player, q: Player, k: nat, n: nat)
    requires 0 < n <= |WeaponTypes| && k < |WeaponTypes|
    requires pv.weapons == p.weapons
    requires CooldownsAfter(p, pv, k, n - 1)
    requires OneCooldown(pv, q, WeaponTypes[n - 1], WeaponTypes[k].name)
    ensures CooldownsAfter(p, q, k, n)
  {
    var t := WeaponTypes[k];
    var u := WeaponTypes[n - 1];
    if k != n - 1 {
      WeaponNamesAgree();
      if k < n - 1 { NamesDiffer(k, n - 1); } else { NamesDiffer(n - 1, k); }
      assert t.name != u.name;
    } else {
      RearmNeverClamped(t, LevelOf(p.weapons, t.name));
    }
  }

  // -----------------------------------------------------------------------
  // apply_upgrade, the upgrade menu, the debug toolbar
  // -----------------------------------------------------------------------

  /** `max(5, c * 0.9)`: one attack-speed upgrade of a cooldown. */
  function Quicker(c: real): (r: real)
    ensures 5.0 <= r
    ensures r <= c || r == 5.0
    ensures r == c * 0.9 || r == 5.0
  {
    if 5.0 < c * 0.9 then c * 0.9 else 5.0
  }

  /**
   * The attack-speed upgrade, entry by entry of the weapons dictionary:
   * the cooldown of each weapon that has one is scaled.
   */
  function SpeedUp(cds: map<string, real>, ws: Levels): (r: map<string, real>)
    ensures r.Keys == cds.Keys
  {
    if ws == [] then cds
    else
      var c := SpeedUp(cds, ws[..|ws| - 1]);
      var name := ws[|ws| - 1].0;
      if name in c then c[name := Quicker(c[name])] else c
  }

  /**
   * With the dictionary's names distinct, each cooldown of a weapon held
   * is scaled once and every other cooldown is kept.
   */
  lemma {:induction false} SpeedUpOnce(cds: map<string, real>, ws: Levels, n: string)
    requires UniqueKeys(ws) && n in cds
    ensures SpeedUp(cds, ws)[n] == if HasKey(ws, n) then Quicker(cds[n]) else cds[n]
  {
    if ws != [] {
      var init := ws[..|ws| - 1];
      assert UniqueKeys(init) by {
        forall a, b | 0 <= a < b < |init| ensures init[a].0 != init[b].0 {
          assert init[a] == ws[a] && init[b] == ws[b];
        }
      }
      SpeedUpOnce(cds, init, n);
      if ws[|ws| - 1].0 == n {
        assert !HasKey(init, n) by {
          forall i | 0 <= i < |init| ensures init[i].0 != n {
            assert init[i] == ws[i];
          }
        }
      }
      assert HasKey(ws, n) <==> HasKey(init, n) || ws[|ws| - 1].0 == n by {
        if HasKey(ws, n) {
          var i :| 0 <= i < |ws| && ws[i].0 == n;
          if i < |ws| - 1 { assert init[i] == ws[i]; }
        }
        if HasKey(init, n) {
          var i :| 0 <= i < |init| && init[i].0 == n;
          assert ws[i] == init[i];
        }
      }
    }
  }

  /** The damage upgrade: every live weapon projectile hits one harder. */
  function Harder(ws: seq<Weapon>): (r: seq<Weapon>)
    ensures |r| == |ws|
    ensures forall k :: 0 <= k < |ws| ==> r[k] == ws[k].(damage := ws[k].damage + 1)
  {
    seq(|ws|, k requires 0 <= k < |ws| => ws[k].(damage := ws[k].damage + 1))
  }

  /** apply_upgrade: nothing without a player; otherwise the option's effect. */
  function ApplyUpgradeW(w: World, o: UpgradeOption): (r: World)
    ensures Valid(w) ==> Valid(r)
    ensures w.player.None? ==> r == w
    ensures r.player.Some? <==> w.player.Some?
    ensures r == w.(player := r.player, weapons := r.weapons)
    ensures |r.weapons| == |w.weapons|
  {
    match w.player
    case None => w
    case Some(p) =>
      match o
      case DamageUp =>
        var r := w.(weapons := Harder(w.weapons));
        assert forall k :: 0 <= k < |r.weapons| ==> r.weapons[k].id == w.weapons[k].id;
        r
      case AttackSpeedUp => w.(player := Some(p.(cooldowns := SpeedUp(p.cooldowns, p.weapons))))
      case _ => w.(player := Some(p.(weapons := UpgradeLevels(p.weapons, o))))
  }

  /**
   * Taking a weapon option the menu offered for the player's weapons
   * raises exactly that weapon by one level, within its bounds, and
   * changes nothing else.
   */
  lemma ApplyOfferedWeapon(w: World, o: UpgradeOption, n: string)
    requires w.player.Some? && LevelsValid(w.player.value.weapons)
    requires o in UpgradeOptions(w.player.value.weapons) && (o.UpgradeWeapon? || o.NewWeapon?)
    ensures var p, r := w.player.value, ApplyUpgradeW(w, o);
      LevelsValid(r.player.value.weapons)
      && LevelOf(r.player.value.weapons, n) == (if n == o.name then LevelOf(p.weapons, n) + 1 else LevelOf(p.weapons, n))
      && r == w.(player := Some(p.(weapons := r.player.value.weapons)))
  {
    OfferedUpgradeRaisesOne(w.player.value.weapons, o, n);
  }

  /** The damage option adds one to every live projectile's damage and changes nothing else. */
  lemma ApplyDamageUp(w: World)
    requires w.player.Some?
    ensures var r := ApplyUpgradeW(w, DamageUp);
      r == w.(weapons := r.weapons)
      && forall k :: 0 <= k < |w.weapons| ==> r.weapons[k] == w.weapons[k].(damage := w.weapons[k].damage + 1)
  {
  }

  /**
   * The speed option scales the cooldown of each weapon held, never below
   * 5 frames and never above what it was (or 5), and changes nothing else.
   */
  lemma ApplySpeedUp(w: World, n: string)
    requires w.player.Some? && UniqueKeys(w.player.value.weapons)
    ensures var p, r := w.player.value, ApplyUpgradeW(w, AttackSpeedUp);
      var q := r.player.value;
      r == w.(player := Some(p.(cooldowns := q.cooldowns)))
      && q.cooldowns.Keys == p.cooldowns.Keys
      && (n in p.cooldowns && HasKey(p.weapons, n) ==> 5.0 <= q.cooldowns[n] && (q.cooldowns[n] <= p.cooldowns[n] || q.cooldowns[n] == 5.0))
      && (n in p.cooldowns && !HasKey(p.weapons, n) ==> q.cooldowns[n] == p.cooldowns[n])
  {
    if n in w.player.value.cooldowns {
      SpeedUpOnce(w.player.value.cooldowns, w.player.value.weapons, n);
    }
  }

  /**
   * A click on option `i` of the upgrade menu: the game resumes and the
   * option is applied. Outside the menu, or with no such option, nothing
   * happens.
   */
  function ChooseUpgradeW(w: World, i: nat): (r: World)
    ensures Valid(w) ==> Valid(r)
    ensures w.mode == UpgradeMenu && i < |w.options| ==>
      r == ApplyUpgradeW(w.(mode := Playing), w.options[i]) && r.mode == Playing
    ensures !(w.mode == UpgradeMenu && i < |w.options|) ==> r == w
  {
    if w.mode == UpgradeMenu && i < |w.options| then ApplyUpgradeW(w.(mode := Playing), w.options[i])
    else w
  }

  /** The debug toolbar's two buttons for catalog weapon `i`, applied to the levels. */
  function DebugAt(ws: Levels, x: int, y: int, i: nat): Levels
    requires i < |WeaponTypes|
  {
    var t := WeaponTypes[i];
    if OnMinus(x, y, i) then DebugDecrease(ws, t.name)
    else if OnPlus(x, y, i) then DebugIncrease(ws, t.name, t.maxLevel)
    else ws
  }

  /** The toolbar loop over the first `n` catalog weapons. */
  function DebugLevels(ws: Levels, x: int, y: int, n: nat): Levels
    requires n <= |WeaponTypes|
  {
    if n == 0 then ws else DebugAt(DebugLevels(ws, x, y, n - 1), x, y, n - 1)
  }

  /** A click while playing: the toolbar loop on the player's weapon levels. */
  function DebugClickW(w: World, x: int, y: int): (r: World)
    ensures Valid(w) ==> Valid(r)
    ensures r == w.(player := r.player)
    ensures r.player.None? <==> w.player.None?
    ensures r.player.Some? ==> r.player.value == w.player.value.(weapons := r.player.value.weapons)
  {
    match w.player
    case None => w
    case Some(p) =>
      if w.mode == Playing then w.(player := Some(p.(weapons := DebugLevels(p.weapons, x, y, |WeaponTypes|))))
      else w
  }

  /** The loop up to `n` changes the levels only if the click is on a button of weapon `i < n`. */
  lemma {:induction false} DebugLevelsOnly(ws: Levels, x: int, y: int, n: nat, i: nat)
    requires n <= |WeaponTypes| && i < |WeaponTypes|
    requires OnMinus(x, y, i) || OnPlus(x, y, i)
    ensures DebugLevels(ws, x, y, n) == if i < n then DebugAt(ws, x, y, i) else ws
  {
    if n > 0 {
      DebugLevelsOnly(ws, x, y, n - 1, i);
      if n - 1 != i {
        DebugButtonsApart(x, y, i, n - 1);
        DebugButtonsApart(x, y, n - 1, i);
      }
    }
  }

  /** A click on no button changes nothing. */
  lemma {:induction false} DebugLevelsMiss(ws: Levels, x: int, y: int, n: nat)
    requires n <= |WeaponTypes|
    requires forall i :: 0 <= i < |WeaponTypes| ==> !OnMinus(x, y, i) && !OnPlus(x, y, i)
    ensures DebugLevels(ws, x, y, n) == ws
  {
    if n > 0 {
      DebugLevelsMiss(ws, x, y, n - 1);
    }
  }

  /**
   * A click on weapon `i`'s "-" button lowers that weapon by one level
   * (down to 0, losing its entry at 1) and no other; levels stay within
   * their bounds.
   */
  lemma DebugClickMinus(ws: Levels, x: int, y: int, i: nat, n: string)
    requires LevelsValid(ws) && i < |WeaponTypes| && OnMinus(x, y, i)
    ensures var r := DebugLevels(ws, x, y, |WeaponTypes|);
      LevelsValid(r)
      && LevelOf(r, n) == if n == WeaponNames[i] && LevelOf(ws, n) > 0 then LevelOf(ws, n) - 1 else LevelOf(ws, n)
  {
    DebugLevelsOnly(ws, x, y, |WeaponTypes|, i);
    WeaponNamesAgree();
    DebugKeepsLevelsValid(ws, WeaponTypes[i].name);
    DebugDecreaseLevels(ws, WeaponTypes[i].name, n);
  }

  /**
   * A click on weapon `i`'s "+" button raises that weapon by one level (up
   * to 8, a missing weapon arriving at 1) and no other; levels stay within
   * their bounds.
   */
  lemma DebugClickPlus(ws: Levels, x: int, y: int, i: nat, n: string)
    requires LevelsValid(ws) && i < |WeaponTypes| && OnPlus(x, y, i)
    ensures var r := DebugLevels(ws, x, y, |WeaponTypes|);
      LevelsValid(r)
      && LevelOf(r, n) == if n == WeaponNames[i] && LevelOf(ws, n) < 8 then LevelOf(ws, n) + 1 else LevelOf(ws, n)
  {
    var t := WeaponTypes[i];
    DebugLevelsOnly(ws, x, y, |WeaponTypes|, i);
    DebugButtonsApart(x, y, i, i);
    WeaponNamesAgree();
    CatalogFindsAll();
    MaxLevelIsEight(t.name);
    DebugKeepsLevelsValid(ws, t.name);
    DebugIncreaseLevels(ws, t.name, t.maxLevel, n);
  }

  // -----------------------------------------------------------------------
  // The timed respawns of step
  // -----------------------------------------------------------------------

  /**
   * One catalog weapon of the respawn on every 900th frame: nothing unless
   * the player owns it; for the King Bible its group of books; for the
   * Whip the slash of spawn_whip; for the Axe and the Fire Wand shot 0 of
   * 1; for any other weapon what its spawn routine makes. The catalog
   * names the King Bible once, so the flag that keeps its books to one
   * group never matters.
   */
  function RespawnOneW(w: World, t: WeaponType, aim: Aim): (r: World)
    requires w.player.Some?
    ensures Valid(w) ==> Valid(r)
    ensures r == w.(weapons := r.weapons, nextId := r.nextId)
    ensures LevelOf(w.player.value.weapons, t.name) <= 0 ==> r == w
  {
    var p := w.player.value;
    var level := LevelOf(p.weapons, t.name);
    var id := w.nextId;
    if level <= 0 then w
    else
      match t.behavior
      case Orbit => if t.name == "KingBible" then BooksW(w, t.name, level, BibleAmount(level), BibleAmount(level)) else w
      case HorizontalSlash => AddShotW(w, WhipShot(id, t.name, level, p.pos))
      case HomingMissile => HomingW(w, t, level, aim)
      case StraightShot => AddShotW(w, Rules.StraightShot(id, t.name, level, p.pos))
      case ArcThrow => AddShotW(w, ArcShot(id, t.name, level, p.pos, 0, 1))
      case Boomerang => AddShotW(w, Some(BoomerangShot(id, t.name, level, p.pos)))
      case FanShot => AddShotW(w, Rules.FanShot(id, t.name, level, p.pos, 0, 1))
      case Aura => AddShotW(w, AuraShot(id, t.name, level, p.pos))
  }

  /** The respawn loop over the first `n` catalog weapons. */
  function RespawnAllW(w: World, aim: Aim, n: nat): (r: World)
    requires w.player.Some? && n <= |WeaponTypes|
    ensures Valid(w) ==> Valid(r)
    ensures r == w.(weapons := r.weapons, nextId := r.nextId)
  {
    if n == 0 then w else RespawnOneW(RespawnAllW(w, aim, n - 1), WeaponTypes[n - 1], aim)
  }

  /**
   * The King Bible's respawn on every 600th frame: a player without it, or
   * holding it at level 0 or below, is given it at level 1; then a group
   * of books of its level is spawned.
   */
  function BibleRespawnW(w: World): (r: World)
    requires w.player.Some?
    ensures r.player.Some? && r.player.value == w.player.value.(weapons := r.player.value.weapons)
    ensures r == w.(player := r.player, weapons := r.weapons, nextId := r.nextId)
  {
    var p := w.player.value;
    var ws := if LevelOf(p.weapons, KingBible.name) <= 0 then Assign(p.weapons, KingBible.name, 1) else p.weapons;
    var level := LevelOf(ws, KingBible.name);
    var w1 := w.(player := Some(p.(weapons := ws)));
    if level > 0 then BooksW(w1, KingBible.name, level, BibleAmount(level), BibleAmount(level)) else w1
  }

  /**
   * After the King Bible's respawn the player holds it at level 1 if it
   * held it at 0 or below or not at all, and at its old level otherwise;
   * every other weapon keeps its level, and the invariant survives.
   */
  lemma BibleRespawnLevels(w: World, name: string)
    requires w.player.Some?
    ensures var old_ := LevelOf(w.player.value.weapons, name);
      LevelOf(BibleRespawnW(w).player.value.weapons, name)
        == if name == KingBible.name && old_ <= 0 then 1 else old_
    ensures Valid(w) ==> Valid(BibleRespawnW(w))
  {
    var p := w.player.value;
    AssignLookup(p.weapons, KingBible.name, 1, name);
    AssignLookup(p.weapons, KingBible.name, 1, KingBible.name);
    var ws := if LevelOf(p.weapons, KingBible.name) <= 0 then Assign(p.weapons, KingBible.name, 1) else p.weapons;
    var w1 := w.(player := Some(p.(weapons := ws)));
    assert Valid(w) ==> Valid(w1);
  }

  /**
   * The timed respawns of step on frame `w.timer`: every weapon the player
   * owns on every frame that is 1 modulo 900, then the King Bible on
   * every frame that is 1 modulo 600; on other frames nothing.
   */
  function RespawnW(w: World, aim: Aim): (r: World)
    requires w.player.Some?
    ensures r.player.Some? && r.player.value == w.player.value.(weapons := r.player.value.weapons)
    ensures r == w.(player := r.player, weapons := r.weapons, nextId := r.nextId)
    ensures w.timer % 900 != 1 && w.timer % 600 != 1 ==> r == w
  {
    var w1 := if w.timer % 900 == 1 then RespawnAllW(w, aim, |WeaponTypes|) else w;
    if w.timer % 600 == 1 then BibleRespawnW(w1) else w1
  }

  /**
   * The respawns keep the invariant; on a frame that is 1 modulo 600 the
   * player holds the King Bible at level 1 or above afterwards, and no
   * other weapon's level ever changes.
   */
  lemma RespawnLevels(w: World, aim: Aim, name: string)
    requires w.player.Some?
    ensures Valid(w) ==> Valid(RespawnW(w, aim))
    ensures w.timer % 600 == 1 ==> LevelOf(RespawnW(w, aim).player.value.weapons, KingBible.name) >= 1
    ensures name != KingBible.name ==> LevelOf(RespawnW(w, aim).player.value.weapons, name) == LevelOf(w.player.value.weapons, name)
  {
    var w1 := if w.timer % 900 == 1 then RespawnAllW(w, aim, |WeaponTypes|) else w;
    if w.timer % 600 == 1 {
      BibleRespawnLevels(w1, name);
      BibleRespawnLevels(w1, KingBible.name);
    }
  }

  // -----------------------------------------------------------------------
  // One frame of step
  // -----------------------------------------------------------------------

  /**
   * The random draws and trigonometry one frame consumes: the wave's spawn
   * points and the elite's, the top-up's spawn points and its next delay,
   * the homing aim and the aim of the timed respawn, the drop rolls of the two pierce passes, and which
   * enemies touch the player after their move.
   */
  datatype Dice = Dice(
    waveSpots: nat -> Pos,
    eliteAt: Pos,
    topUpSpots: nat -> Pos,
    delay: int,
    aim: Aim,
    respawnAim: Aim,
    drops: nat -> bool,
    lateDrops: nat -> bool,
    touches: nat -> bool,
    keys: Option<Held>)

  /**
   * The movement of step: with `actions` given, the player moves by the keys
   * held; without them (`None` or an empty list) nothing moves.
   */
  function Walk(p: Option<Player>, keys: Option<Held>): (r: Option<Player>)
    ensures r.Some? <==> p.Some?
    ensures r.Some? ==> r.value == p.value.(pos := r.value.pos)
    ensures r.Some? && keys.Some? ==> r.value.pos == Moved(p.value.pos, keys.value)
    ensures keys.None? ==> r == p
  {
    if p.Some? && keys.Some? then Some(p.value.(pos := Moved(p.value.pos, keys.value))) else p
  }

  /** The blink pass on every enemy. */
  function Blinked(es: seq<Enemy>): (r: seq<Enemy>)
    ensures |r| == |es|
    ensures forall k :: 0 <= k < |es| ==> r[k] == BlinkTick(es[k])
  {
    seq(|es|, k requires 0 <= k < |es| => BlinkTick(es[k]))
  }

  /**
   * The Magic Wand pass at the end of step: it strikes as the first one
   * does, but the removals it records are never carried out.
   */
  function LatePierceW(w: World, drops: nat -> bool): (r: World)
    ensures Valid(w) ==> Valid(r)
    ensures |r.weapons| == |w.weapons| && Unmoved(w, r)
  {
    PierceUpTo(w, seq(|w.weapons|, k => false), drops, |w.weapons|).0
  }

  /** The start of a frame: the wave, the top-up, the player's move, and the blink and damage-text timers. */
  function FrameStartW(w: World, d: Dice): (r: World)
    ensures r.player == Walk(w.player, d.keys) && r.timer == w.timer && r.mode == w.mode && r.progress == w.progress
  {
    var w1 := WaveTickW(w, d.waveSpots, d.eliteAt);
    var w2 := TopUpW(w1, d.topUpSpots, d.delay);
    w2.(player := Walk(w2.player, d.keys), enemies := Blinked(w2.enemies), texts := TextsTick(w2.texts))
  }

  lemma FrameStartValid(w: World, d: Dice)
    requires Valid(w)
    ensures Valid(FrameStartW(w, d))
  {
    WaveTickValid(w, d.waveSpots, d.eliteAt);
    var w1 := WaveTickW(w, d.waveSpots, d.eliteAt);
    TopUpCounts(w1, d.topUpSpots, d.delay);
    FrameTimersValid(TopUpW(w1, d.topUpSpots, d.delay), d.keys);
  }

  /** The player's move and the blink and damage-text timers keep the invariant. */
  lemma FrameTimersValid(w: World, keys: Option<Held>)
    requires Valid(w)
    ensures Valid(w.(player := Walk(w.player, keys), enemies := Blinked(w.enemies), texts := TextsTick(w.texts)))
  {
    var r := w.(player := Walk(w.player, keys), enemies := Blinked(w.enemies), texts := TextsTick(w.texts));
    assert forall k :: 0 <= k < |r.enemies| ==> r.enemies[k].id == w.enemies[k].id;
    TextsTickBelow(w.texts, w.nextId);
  }

  /**
   * step outside the float-valued motion and the weapons' side of the
   * collision block: nothing outside play; the game ends when there is no
   * player; otherwise the wave, the top-up, the blink and text timers, the
   * cooldown loop, the timed respawns, the weapon pass, the enemies' hits
   * on the player (which end the frame when they kill), the pickup, the
   * death fade and the late Magic Wand pass.
   */
  function StepW(w: World, d: Dice): (r: World)
    ensures w.mode != Playing ==> r == w
    ensures w.mode == Playing ==> r.timer == w.timer + 1 && (r.player.Some? <==> w.player.Some?)
    ensures w.mode == Playing && w.player.None? ==> r.mode == GameOver
    ensures w.mode == Playing && w.player.Some? ==> r.mode in {Playing, UpgradeMenu, GameOver}
  {
    if w.mode != Playing then w
    else
      var w0 := CountFrame(w);
      if w0.player.None? then w0.(mode := GameOver)
      else
        PlayW(w0, d)
  }

  /** A frame in play with a player, after the game timer has counted it. */
  function PlayW(w: World, d: Dice): (r: World)
    requires w.player.Some?
    ensures r.timer == w.timer && r.player.Some?
    ensures r.mode == w.mode || r.mode == UpgradeMenu || r.mode == GameOver
  {
    var w1 := RespawnW(FireAllW(FrameStartW(w, d), d.aim, |WeaponTypes|), d.respawnAim);
    var w2 := ContactsW(WeaponPassW(w1, d.drops), d.touches);
    if w2.mode == GameOver then w2
    else LatePierceW(FadeW(PickupW(w2)), d.lateDrops)
  }

  /** Every frame keeps the world's invariant. */
  lemma StepValid(w: World, d: Dice)
    requires Valid(w)
    ensures Valid(StepW(w, d))
  {
    if w.mode == Playing {
      var w0 := CountFrame(w);
      if w0.player.None? {
        ModeValid(w0, GameOver);
      } else {
        PlayValid(w0, d);
      }
    }
  }

  /** The invariant does not read the mode. */
  lemma ModeValid(w: World, m: Mode)
    requires Valid(w)
    ensures Valid(w.(mode := m))
  {
    var r := w.(mode := m);
    assert r.enemies == w.enemies && r.weapons == w.weapons && r.orbs == w.orbs && r.texts == w.texts;
  }

  /** `game_timer += 1`, which leaves the invariant alone. */
  function CountFrame(w: World): (r: World)
    ensures r == w.(timer := w.timer + 1)
    ensures Valid(w) ==> Valid(r)
  {
    w.(timer := w.timer + 1)
  }

  /** A frame in play keeps the invariant. */
  lemma PlayValid(w: World, d: Dice)
    requires Valid(w) && w.player.Some?
    ensures Valid(PlayW(w, d))
  {
    FrameStartValid(w, d);
    var w0 := FireAllW(FrameStartW(w, d), d.aim, |WeaponTypes|);
    RespawnLevels(w0, d.respawnAim, KingBible.name);
    var w1 := RespawnW(w0, d.respawnAim);
    WeaponPassValid(w1, d.drops);
    var w2 := ContactsW(WeaponPassW(w1, d.drops), d.touches);
    if w2.mode != GameOver {
      PickupValid(w2);
    }
  }
}
