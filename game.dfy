/**
 * The `Game` class of survivor/games/survivor.py: its fields are updated
 * in place, step by step and loop by loop as the source does, and every
 * method is proved to leave the state that the matching function of
 * module Sim computes from the old state.
 */
module Survivor {
  import opened Wrappers
  import opened Lists
  import opened Health
  import opened Catalog
  import opened Entities
  import opened Rules
  import opened Sim
  import Text

  /** The state of a new Game: the start menu, no particles, level 1. */
  function Initial(): World
  {
    World(None, [], [], [], [], 0, 0, Progress(1, 0, 50), 0, 0, MinEnemiesPerWave, 0, false, 0, StartMenu, [])
  }

  /**
   * The weapons dictionary create_player has built after the first `n`
   * catalog entries: the King Bible at level 1, then every other name
   * met so far at level 0.
   */
  function StartingLevels(n: nat): Levels
    requires n <= |WeaponTypes|
  {
    if n == 0 then [("KingBible", 1)]
    else
      var ws := StartingLevels(n - 1);
      var name := WeaponTypes[n - 1].name;
      if name != "KingBible" then Assign(ws, name, 0) else ws
  }

  /** The dictionary holds the King Bible at 1 and each catalog name met so far at 0, and nothing else. */
  lemma {:induction false} StartingLevelsRead(n: nat, m: string)
    requires n <= |WeaponTypes|
    ensures Lookup(StartingLevels(n), m) ==
      if m == "KingBible" then Some(1) else if m in WeaponNames[..n] then Some(0) else None
  {
    WeaponNamesAgree();
    if n > 0 {
      var name := WeaponTypes[n - 1].name;
      StartingLevelsRead(n - 1, m);
      assert WeaponNames[..n] == WeaponNames[..n - 1] + [name];
      if name != "KingBible" {
        AssignLookup(StartingLevels(n - 1), name, 0, m);
      }
    }
  }

  /** The player create_player makes, with id `id`, in the middle of the field. */
  function NewPlayer(id: int): Player
  {
    Player(id, Pos(SpatialResolution / 2, SpatialResolution / 2), Some(Fresh(100, Some(100))),
      StartingLevels(|WeaponTypes|), map["KingBible" := 0.0])
  }

  /**
   * The new player holds the King Bible at level 1 and every other
   * catalog weapon at level 0, each as an entry of the dictionary; its
   * levels are within their maxima.
   */
  lemma NewPlayerLevels(id: int, m: string)
    ensures Lookup(NewPlayer(id).weapons, m) ==
      if m == "KingBible" then Some(1) else if m in WeaponNames then Some(0) else None
    ensures LevelsValid(NewPlayer(id).weapons)
  {
    StartingLevelsRead(|WeaponTypes|, m);
    WeaponNamesAgree();
    assert WeaponNames[..|WeaponTypes|] == WeaponNames;
    forall n ensures 0 <= LevelOf(NewPlayer(id).weapons, n) <= MaxLevelOf(n) {
      StartingLevelsRead(|WeaponTypes|, n);
      MaxLevelIsEight(n);
    }
  }

  /** The dictionary gains one entry per catalog name, the King Bible's being there from the start. */
  lemma {:induction false} StartingLevelsSize(n: nat)
    requires n <= |WeaponTypes|
    ensures |StartingLevels(n)| == if n <= 5 then n + 1 else n
  {
    if n > 0 {
      StartingLevelsSize(n - 1);
      var name := WeaponTypes[n - 1].name;
      if name != "KingBible" {
        WeaponNamesAgree();
        forall k | 0 <= k < n - 1 ensures WeaponNames[k] != name {
          NamesDiffer(k, n - 1);
        }
        assert name !in WeaponNames[..n - 1];
        StartingLevelsRead(n - 1, name);
        LookupFinds(StartingLevels(n - 1), name);
      }
    }
  }

  /**
   * Since create_player enters all eight catalog names, the dictionary is
   * never shorter than six: the first menu of a new player offers no new
   * weapon and no upgrade of a weapon at level 0, only the King Bible's
   * upgrade from level 1 and the two general upgrades.
   */
  lemma NewPlayerMenu(id: int, o: UpgradeOption)
    ensures o in UpgradeOptions(NewPlayer(id).weapons) <==>
      o == UpgradeWeapon("KingBible", 1) || o == DamageUp || o == AttackSpeedUp
  {
    StartingLevelsSize(|WeaponTypes|);
    forall m ensures LevelOf(NewPlayer(id).weapons, m) == if m == "KingBible" then 1 else 0 {
      NewPlayerLevels(id, m);
    }
    KingBibleOnlyMenu(NewPlayer(id).weapons, o);
  }

  /** The menu of a dictionary of six or more entries in which only the King Bible is above level 0. */
  lemma KingBibleOnlyMenu(ws: Levels, o: UpgradeOption)
    requires |ws| >= 6
    requires forall m :: LevelOf(ws, m) == if m == "KingBible" then 1 else 0
    ensures o in UpgradeOptions(ws) <==> o == UpgradeWeapon("KingBible", 1) || o == DamageUp || o == AttackSpeedUp
  {
    assert UpgradeOptions(ws) == Upgradable(WeaponTypes, ws) + [DamageUp, AttackSpeedUp];
    UpgradableMembers(WeaponTypes, ws, o);
    assert KingBible in WeaponTypes;
  }

  /** clear_particles and the id and timer restart of initialize_game. */
  function ClearedW(w: World): World
  {
    w.(player := None, enemies := [], weapons := [], orbs := [], texts := [], nextId := 0, timer := 0)
  }

  /** create_player: the new player takes the next id. */
  function WithPlayerW(w: World): World
  {
    w.(player := Some(NewPlayer(w.nextId)), nextId := w.nextId + 1)
  }

  /** The wave counters initialize_game sets: wave 1, due at once, minimum 30, no elite out. */
  function FirstWaveW(w: World): World
  {
    w.(currentWave := 1, waveTimer := WaveInterval, nextSpawnTimer := 0, minEnemies := MinEnemiesPerWave,
       eliteSpawned := false)
  }

  /**
   * initialize_game: clear everything; in play, create the player, set
   * the wave counters and spawn the first wave. Score, experience and the
   * upgrade options survive.
   */
  function InitializeW(w: World, spots: nat -> Pos, eliteAt: Pos): World
  {
    if w.mode != Playing then ClearedW(w)
    else SpawnWaveW(FirstWaveW(WithPlayerW(ClearedW(w))), spots, eliteAt)
  }

  /** reset_game: score and experience back to the start, play mode, then initialize_game. */
  function ResetW(w: World, spots: nat -> Pos, eliteAt: Pos): World
  {
    InitializeW(w.(score := 0, progress := Progress(1, 0, 50), mode := Playing), spots, eliteAt)
  }

  /**
   * From any state, a reset gives a valid game in play whose player has
   * id 0 and the starting weapons, with the first wave out: 30 regular
   * enemies and an elite, ids 1 to 31, the next wave numbered 2.
   */
  lemma ResetCounts(w: World, spots: nat -> Pos, eliteAt: Pos)
    ensures var r := ResetW(w, spots, eliteAt);
      Valid(r) && r.mode == Playing && r.player == Some(NewPlayer(0)) && r.score == 0
      && |r.enemies| == MinEnemiesPerWave + 1 && r.nextId == MinEnemiesPerWave + 2
      && r.currentWave == 2 && r.waveTimer == 0 && r.minEnemies == MinEnemiesPerWave + 1
      && r.weapons == [] && r.orbs == [] && r.texts == []
  {
    var w1 := FirstWaveW(WithPlayerW(ClearedW(w.(score := 0, progress := Progress(1, 0, 50), mode := Playing))));
    assert Valid(w1);
    SpawnWaveCounts(w1, spots, eliteAt);
  }

  class Game {
    var player: Option<Player>
    var enemies: seq<Enemy>
    var weapons: seq<Weapon>
    var orbs: seq<XpOrb>
    var texts: seq<DamageText>
    var score: int
    var gameTimer: int
    var level: int
    var xp: int
    var xpToNextLevel: int
    var waveTimer: int
    var currentWave: int
    var minEnemiesPerWave: int
    var nextSpawnTimer: int
    var eliteSpawned: bool
    var nextId: int
    var mode: Mode
    var upgradeOptions: seq<UpgradeOption>

    function State(): World
      reads this
    {
      World(player, enemies, weapons, orbs, texts, score, gameTimer, Progress(level, xp, xpToNextLevel),
        waveTimer, currentWave, minEnemiesPerWave, nextSpawnTimer, eliteSpawned, nextId, mode, upgradeOptions)
    }

    ghost predicate Valid()
      reads this
    {
      Sim.Valid(State())
    }

    constructor ()
      ensures State() == Initial() && Valid()
    {
      player, enemies, weapons, orbs, texts := None, [], [], [], [];
      score, gameTimer := 0, 0;
      level, xp, xpToNextLevel := 1, 0, 50;
      waveTimer, currentWave, minEnemiesPerWave, nextSpawnTimer := 0, 0, MinEnemiesPerWave, 0;
      eliteSpawned, nextId := false, 0;
      mode, upgradeOptions := StartMenu, [];
    }

    /** create_player: the King Bible at level 1, every other catalog weapon at 0. */
    method CreatePlayer()
      modifies this
      ensures State() == WithPlayerW(old(State()))
    {
      var ws: Levels := [("KingBible", 1)];
      var i := 0;
      while i < |WeaponTypes|
        invariant 0 <= i <= |WeaponTypes|
        invariant ws == StartingLevels(i)
      {
        var name := WeaponTypes[i].name;
        if name != "KingBible" {
          ws := Assign(ws, name, 0);
        }
        i := i + 1;
      }
      player := Some(Player(nextId, Pos(SpatialResolution / 2, SpatialResolution / 2), Some(Fresh(100, Some(100))),
        ws, map["KingBible" := 0.0]));
      nextId := nextId + 1;
    }

    /** clear_particles: no player and no other particle remain. */
    method ClearParticles()
      modifies this
      ensures State() == old(State()).(player := None, enemies := [], weapons := [], orbs := [], texts := [])
    {
      player, enemies, weapons, orbs, texts := None, [], [], [], [];
    }

    method InitializeGame(spots: nat -> Pos, eliteAt: Pos)
      modifies this
      ensures State() == InitializeW(old(State()), spots, eliteAt)
    {
      ClearParticles();
      nextId := 0;
      gameTimer := 0;
      if mode == Playing {
        StartPlay(spots, eliteAt);
      }
    }

    /** The in-play half of initialize_game: the player, the wave counters, the first wave. */
    method StartPlay(spots: nat -> Pos, eliteAt: Pos)
      modifies this
      ensures State() == SpawnWaveW(FirstWaveW(WithPlayerW(old(State()))), spots, eliteAt)
    {
      CreatePlayer();
      currentWave, waveTimer, nextSpawnTimer := 1, WaveInterval, 0;
      minEnemiesPerWave, eliteSpawned := MinEnemiesPerWave, false;
      assert State() == FirstWaveW(WithPlayerW(old(State())));
      SpawnEnemyWave(spots, eliteAt);
    }

    /** The score and experience as a new game starts them: level 1, no experience, 50 to the next level. */
    method RestartScore()
      modifies this
      ensures State() == old(State()).(score := 0, progress := Progress(1, 0, 50))
    {
      score := 0;
      level, xp, xpToNextLevel := 1, 0, 50;
    }

    method ResetGame(spots: nat -> Pos, eliteAt: Pos)
      modifies this
      ensures State() == ResetW(old(State()), spots, eliteAt)
    {
      RestartScore();
      mode := Playing;
      assert State() == old(State()).(score := 0, progress := Progress(1, 0, 50), mode := Playing);
      InitializeGame(spots, eliteAt);
    }

    // ---------------------------------------------------------------------
    // Enemies
    // ---------------------------------------------------------------------

    method SpawnEnemy(at: Pos)
      modifies this
      ensures State() == SpawnEnemyW(old(State()), at)
    {
      if |enemies| >= MaxEnemies || player.None? {
        return;
      }
      enemies := enemies + [RegularEnemy(nextId, at, currentWave)];
      nextId := nextId + 1;
    }

    method SpawnEliteEnemy(at: Pos)
      modifies this
      ensures State() == SpawnEliteW(old(State()), at)
    {
      if player.None? {
        return;
      }
      enemies := enemies + [EliteEnemy(nextId, at, currentWave)];
      nextId := nextId + 1;
    }

    /** `k` calls of spawn_enemy, the `i`-th at `spots(i)`. */
    method SpawnEnemies(spots: nat -> Pos, k: nat)
      modifies this
      ensures State() == SpawnEnemiesW(old(State()), spots, k)
    {
      ghost var w := State();
      var i := 0;
      while i < k
        invariant 0 <= i <= k
        invariant State() == SpawnEnemiesW(w, spots, i)
      {
        SpawnEnemy(spots(i));
        i := i + 1;
      }
    }

    /** The wave: the regular enemies one spawn_enemy at a time, then the elite, then the counters. */
    method SpawnEnemyWave(spots: nat -> Pos, eliteAt: Pos)
      modifies this
      ensures State() == SpawnWaveW(old(State()), spots, eliteAt)
    {
      if |enemies| >= MaxEnemies {
        return;
      }
      SpawnEnemies(spots, WaveSize(|enemies|, minEnemiesPerWave));
      EndWave(eliteAt);
    }

    method EndWave(eliteAt: Pos)
      modifies this
      ensures State() == WaveEndW(old(State()), eliteAt)
    {
      var wave := currentWave;
      if !eliteSpawned {
        SpawnEliteEnemy(eliteAt);
        eliteSpawned := true;
      }
      minEnemiesPerWave := Min(MinEnemiesPerWave + wave, MaxEnemies);
      waveTimer := 0;
      currentWave := wave + 1;
      eliteSpawned := false;
    }

    /** The top-up of step: the missing enemies, then the spawn timer. */
    method TopUp(spots: nat -> Pos, delay: int)
      modifies this
      ensures State() == TopUpW(old(State()), spots, delay)
    {
      var count := |enemies|;
      if count < minEnemiesPerWave && count < MaxEnemies {
        var k := minEnemiesPerWave - count;
        TopUpSpawns(State(), spots, delay, k);
        SpawnEnemies(spots, k);
        SpawnTimer(spots(k), delay);
      }
    }

    /** The spawn timer of the top-up: spawn one more and re-arm once it has run out, else count down. */
    method SpawnTimer(at: Pos, delay: int)
      modifies this
      ensures State() == SpawnTimerW(old(State()), at, delay)
    {
      if nextSpawnTimer <= 0 {
        SpawnEnemy(at);
        ghost var w := State();
        nextSpawnTimer := delay;
        assert State() == w.(nextSpawnTimer := delay);
      } else {
        nextSpawnTimer := nextSpawnTimer - 1;
      }
    }

    /** The wave timer of step. */
    method WaveTick(spots: nat -> Pos, eliteAt: Pos)
      modifies this
      ensures State() == WaveTickW(old(State()), spots, eliteAt)
    {
      ghost var w := State();
      WaveTickCases(w, spots, eliteAt);
      waveTimer := waveTimer + 1;
      assert State() == w.(waveTimer := w.waveTimer + 1);
      if waveTimer >= WaveInterval {
        SpawnEnemyWave(spots, eliteAt);
      }
    }

    // ---------------------------------------------------------------------
    // Firing: the spawn routines and the cooldown loop of step
    // ---------------------------------------------------------------------

    /** Append a weapon record made with the next id, when the spawn routine made one. */
    method AddShot(x: Option<Weapon>)
      requires x.Some? ==> x.value.id == nextId
      modifies this
      ensures State() == AddShotW(old(State()), x)
    {
      if x.Some? {
        weapons := weapons + [x.value];
        nextId := nextId + 1;
      }
    }

    /** The removal loop of spawn_orbiting_book: every book bound to the player goes. */
    method RemoveBooks(pid: int)
      modifies this
      ensures State() == old(State()).(weapons := Unbound(old(weapons), pid))
    {
      var kept: seq<Weapon> := [];
      var i := 0;
      while i < |weapons|
        invariant 0 <= i <= |weapons|
        invariant kept == Unbound(weapons[..i], pid)
      {
        assert weapons[..i + 1][..i] == weapons[..i];
        if !Bound(weapons[i], pid) {
          kept := kept + [weapons[i]];
        }
        i := i + 1;
      }
      assert weapons[..i] == weapons;
      weapons := kept;
    }

    method SpawnOrbitingBook(name: string, level: int, i: int, count: int)
      requires player.Some?
      modifies this
      ensures State() == BookW(old(State()), name, level, i, count)
    {
      if level <= 0 {
        return;
      }
      var p := player.value;
      if i == 0 {
        RemoveBooks(p.id);
      }
      AddShot(OrbitBook(nextId, name, level, p.pos, i, p.id));
    }

    /** A King Bible group: books 0 to `count - 1`. */
    method SpawnBooks(name: string, level: int, count: nat)
      requires player.Some?
      modifies this
      ensures State() == BooksW(old(State()), name, level, count, count)
    {
      ghost var w := State();
      var i := 0;
      while i < count
        invariant 0 <= i <= count
        invariant State() == BooksW(w, name, level, count, i)
      {
        SpawnOrbitingBook(name, level, i, count);
        i := i + 1;
      }
    }

    /**
     * spawn_homing_missile: the regular enemies then the elites are the
     * candidates; each missile takes the nearest one no earlier missile
     * took, and one left without a target flies at a random angle.
     */
    method SpawnHomingMissile(t: WeaponType, level: int, aim: Aim)
      requires player.Some?
      modifies this
      ensures State() == HomingW(old(State()), t, level, aim)
    {
      var es := Ordered(enemies);
      if es == [] {
        return;
      }
      Missiles(t, level, es, aim, HomingAmount(t, level));
    }

    /** The `for i in range(amount)` loop of spawn_homing_missile, over candidates `es`. */
    method Missiles(t: WeaponType, level: int, es: seq<Enemy>, aim: Aim, n: nat)
      requires player.Some?
      modifies this
      ensures State() == MissilesW(old(State()), t, level, es, aim, Greedy(old(player).value.pos, es, n), n)
    {
      var p := player.value;
      ghost var w := State();
      ghost var targets: seq<Option<nat>> := [];
      var used: set<int> := {};
      var i := 0;
      while i < n
        invariant 0 <= i <= n
        invariant targets == Greedy(p.pos, es, i) && used == UsedIds(es, targets)
        invariant State() == MissilesW(w, t, level, es, aim, Greedy(p.pos, es, n), i)
      {
        GreedyNext(p.pos, es, n, targets);
        var target := Nearest(p.pos, es, used);
        UsedIdsAppend(es, targets, target);
        if target.Some? {
          used := used + {es[target.value].id};
        }
        Missile(w, t, level, es, aim, Greedy(p.pos, es, n), i, target);
        targets := targets + [target];
        i := i + 1;
      }
    }

    /** Missile `i`: aimed at its target with atan2, or at a random angle without one. */
    method Missile(ghost w: World, t: WeaponType, level: int, es: seq<Enemy>, aim: Aim, ghost ts: seq<Option<nat>>,
      i: nat, target: Option<nat>)
      requires w.player.Some? && i < |ts| && ts[i] == target
      requires forall k :: 0 <= k < |ts| && ts[k].Some? ==> ts[k].value < |es|
      requires State() == MissilesW(w, t, level, es, aim, ts, i)
      modifies this
      ensures State() == MissilesW(w, t, level, es, aim, ts, i + 1)
    {
      var from := player.value.pos;
      var angle;
      if target.Some? {
        angle := aim.toward(from, es[target.value].pos);
      } else {
        angle := aim.wander(i);
      }
      AddShot(Some(HomingShot(nextId, t, level, from, angle)));
    }

    /** Shot `i` of `count`: the spawn routine the weapon's behaviour names. */
    method Shot(t: WeaponType, level: int, i: nat, count: int, aim: Aim)
      requires player.Some?
      modifies this
      ensures State() == ShotW(old(State()), t, level, i, count, aim)
    {
      var p := player.value;
      match t.behavior
      case HorizontalSlash => AddShot(CatalogShot(nextId, t.name, level, p.pos, WhipAngle(i)));
      case HomingMissile => SpawnHomingMissile(t, level, aim);
      case StraightShot => AddShot(Rules.StraightShot(nextId, t.name, level, p.pos));
      case ArcThrow => AddShot(ArcShot(nextId, t.name, level, p.pos, i, count));
      case Boomerang => AddShot(Some(BoomerangShot(nextId, t.name, level, p.pos)));
      case Orbit => SpawnOrbitingBook(t.name, level, i, count);
      case FanShot => AddShot(Rules.FanShot(nextId, t.name, level, p.pos, i, count));
      case Aura => AddShot(AuraShot(nextId, t.name, level, p.pos));
    }

    /** The `for i in range(count)` loop of a firing. */
    method Shots(t: WeaponType, level: int, count: int, aim: Aim)
      requires player.Some?
      modifies this
      ensures State() == ShotsW(old(State()), t, level, count, aim, if count > 0 then count else 0)
    {
      ghost var w := State();
      var n := if count > 0 then count else 0;
      var i := 0;
      while i < n
        invariant 0 <= i <= n
        invariant State() == ShotsW(w, t, level, count, aim, i)
      {
        NextShot(w, t, level, i, count, aim);
        i := i + 1;
      }
    }

    /** One turn of the shot loop, from the state the first `i` shots left. */
    method NextShot(ghost w: World, t: WeaponType, level: int, i: nat, count: int, aim: Aim)
      requires w.player.Some? && State() == ShotsW(w, t, level, count, aim, i)
      modifies this
      ensures State() == ShotsW(w, t, level, count, aim, i + 1)
    {
      Shot(t, level, i, count, aim);
    }

    /** One firing: the King Bible spawns its group, any other weapon its `count` shots. */
    method Launch(t: WeaponType, level: int, aim: Aim)
      requires player.Some? && level >= 1
      modifies this
      ensures State() == LaunchW(old(State()), t, level, aim)
    {
      if t.name == "KingBible" {
        var amount := BibleAmount(level);
        SpawnBooks(t.name, level, amount);
      } else {
        Shots(t, level, ShotCount(t, level), aim);
      }
    }

    /**
     * One catalog weapon of the cooldown loop. The King Bible's 180-frame
     * cooldown is written and then overwritten by the catalog's, as in
     * step.
     */
    method FireOne(t: WeaponType, aim: Aim)
      requires player.Some?
      modifies this
      ensures State() == FireOneW(old(State()), t, aim)
    {
      var p := player.value;
      var level := LevelOf(p.weapons, t.name);
      if level <= 0 {
        return;
      }
      var cd := CooldownOf(p, t.name);
      if cd <= 0.0 {
        Launch(t, level, aim);
        if t.name == "KingBible" {
          player := Some(p.(cooldowns := p.cooldowns[t.name := 180.0]));
        }
        player := Some(p.(cooldowns := p.cooldowns[t.name := RearmCooldown(t, level) as real]));
      } else {
        player := Some(p.(cooldowns := p.cooldowns[t.name := cd - 1.0]));
      }
    }

    /** The cooldown loop of step, over the catalog in order. */
    method FireWeapons(aim: Aim)
      requires player.Some?
      modifies this
      ensures State() == FireAllW(old(State()), aim, |WeaponTypes|)
    {
      ghost var w := State();
      var i := 0;
      while i < |WeaponTypes|
        invariant 0 <= i <= |WeaponTypes|
        invariant State() == FireAllW(w, aim, i)
      {
        NextWeapon(w, aim, i);
        i := i + 1;
      }
    }

    /** One turn of the cooldown loop: catalog weapon `i`. */
    method NextWeapon(ghost w: World, aim: Aim, i: nat)
      requires w.player.Some? && i < |WeaponTypes| && State() == FireAllW(w, aim, i)
      modifies this
      ensures State() == FireAllW(w, aim, i + 1)
    {
      FireOne(WeaponTypes[i], aim);
    }

    // ---------------------------------------------------------------------
    // The timed respawns of step
    // ---------------------------------------------------------------------

    /** One catalog weapon of the respawn on every 900th frame. */
    method RespawnOne(t: WeaponType, aim: Aim)
      requires player.Some?
      modifies this
      ensures State() == RespawnOneW(old(State()), t, aim)
    {
      var p := player.value;
      var level := LevelOf(p.weapons, t.name);
      if level <= 0 {
        return;
      }
      match t.behavior
      case Orbit =>
        if t.name == "KingBible" {
          SpawnBooks(t.name, level, BibleAmount(level));
        }
      case HorizontalSlash => AddShot(WhipShot(nextId, t.name, level, p.pos));
      case HomingMissile => SpawnHomingMissile(t, level, aim);
      case StraightShot => AddShot(Rules.StraightShot(nextId, t.name, level, p.pos));
      case ArcThrow => AddShot(ArcShot(nextId, t.name, level, p.pos, 0, 1));
      case Boomerang => AddShot(Some(BoomerangShot(nextId, t.name, level, p.pos)));
      case FanShot => AddShot(Rules.FanShot(nextId, t.name, level, p.pos, 0, 1));
      case Aura => AddShot(AuraShot(nextId, t.name, level, p.pos));
    }

    /** The respawn on every 900th frame, over the catalog in order. */
    method RespawnAll(aim: Aim)
      requires player.Some?
      modifies this
      ensures State() == RespawnAllW(old(State()), aim, |WeaponTypes|)
    {
      ghost var w := State();
      var i := 0;
      while i < |WeaponTypes|
        invariant 0 <= i <= |WeaponTypes|
        invariant State() == RespawnAllW(w, aim, i)
      {
        NextRespawn(w, aim, i);
        i := i + 1;
      }
    }

    /** One turn of the respawn loop: catalog weapon `i`. */
    method NextRespawn(ghost w: World, aim: Aim, i: nat)
      requires w.player.Some? && i < |WeaponTypes| && State() == RespawnAllW(w, aim, i)
      modifies this
      ensures State() == RespawnAllW(w, aim, i + 1)
    {
      RespawnOne(WeaponTypes[i], aim);
    }

    /** The King Bible's respawn on every 600th frame. */
    method BibleRespawn()
      requires player.Some?
      modifies this
      ensures State() == BibleRespawnW(old(State()))
    {
      var p := player.value;
      var ws := p.weapons;
      if LevelOf(ws, KingBible.name) <= 0 {
        ws := Assign(ws, KingBible.name, 1);
        player := Some(p.(weapons := ws));
      }
      var level := LevelOf(ws, KingBible.name);
      if level > 0 {
        SpawnBooks(KingBible.name, level, BibleAmount(level));
      }
    }

    /** The timed respawns of step, on the frame count. */
    method Respawn(aim: Aim)
      requires player.Some?
      modifies this
      ensures State() == RespawnW(old(State()), aim)
    {
      if gameTimer % 900 == 1 {
        RespawnAll(aim);
      }
      if gameTimer % 600 == 1 {
        BibleRespawn();
      }
    }

    // ---------------------------------------------------------------------
    // Damage and death
    // ---------------------------------------------------------------------

    method SpawnDamageText(at: Pos, amount: int)
      modifies this
      ensures State() == DamageTextW(old(State()), at, amount)
    {
      if amount <= 0 {
        return;
      }
      texts := texts + [DamageText(nextId, at, Text.NatText(amount), DamageTextDuration)];
      nextId := nextId + 1;
    }

    method SpawnXp(at: Pos)
      modifies this
      ensures State() == SpawnXpW(old(State()), at)
    {
      orbs := orbs + [XpOrb(nextId, at)];
      nextId := nextId + 1;
    }

    /** on_particle_death with the animation, for enemy `i`; `drop` is the drop roll. */
    method OnEnemyDeath(i: nat, drop: bool)
      requires i < |enemies|
      modifies this
      ensures State() == EnemyDeathW(old(State()), i, drop)
    {
      var e := enemies[i];
      score := score + if e.elite then 30 else 10;
      if e.elite || drop {
        SpawnXp(e.pos);
      }
      enemies := enemies[i := MarkDying(e)];
    }

    /** The health part of apply_damage: hp lost, its damage text, and the death of an enemy it kills. */
    method Strike(ei: nat, d: int, drop: bool) returns (alive: bool)
      requires ei < |enemies|
      modifies this
      ensures (State(), alive) == StrikeW(old(State()), ei, d, drop)
    {
      var e := enemies[ei];
      if e.health.None? {
        return true;
      }
      var h := e.health.value;
      var h2 := Damaged(h, d);
      enemies := enemies[ei := e.(health := Some(h2))];
      SpawnDamageText(e.pos, h.currentHp - h2.currentHp);
      alive := h2.isAlive;
      if !alive {
        OnEnemyDeath(ei, drop);
      }
    }

    /** apply_damage from weapon `wi` to enemy `ei`; the result is whether the enemy is alive. */
    method ApplyDamage(wi: nat, ei: nat, damage: int, drop: bool) returns (alive: bool)
      requires wi < |weapons| && ei < |enemies|
      modifies this
      ensures (State(), alive) == WeaponHitW(old(State()), wi, ei, damage, drop)
    {
      var a, e := weapons[wi], enemies[ei];
      var book := a.name == "KingBible";
      if book && Cooling(a, e.id) {
        return true;
      }
      if book {
        weapons := weapons[wi := a.(hitCooldown := a.hitCooldown[e.id := BibleHitCooldown])];
      }
      alive := Strike(ei, HitDamage(a, damage), drop);
    }

    /** apply_damage from enemy `ei` to the player; the game ends when the player dies. */
    method PlayerHit(ei: nat) returns (alive: bool)
      requires ei < |enemies| && player.Some?
      modifies this
      ensures (State(), alive) == PlayerHitW(old(State()), ei)
    {
      var p := player.value;
      if p.health.None? {
        return true;
      }
      var h2 := Damaged(p.health.value, AtLeastOne(enemies[ei].damage));
      player := Some(p.(health := Some(h2)));
      alive := h2.isAlive;
      if !alive {
        mode := GameOver;
      }
    }

    /**
     * The player's side of the enemy loop of step: the regular enemies'
     * pass, then the elites'.
     */
    method Contacts(touches: nat -> bool)
      requires player.Some?
      modifies this
      ensures State() == ContactsW(old(State()), touches)
    {
      ContactPass(touches, false);
      ContactPass(touches, true);
    }

    /** One kind's pass: every enemy that strikes hits the player, until the game is over. */
    method ContactPass(touches: nat -> bool, elite: bool)
      requires player.Some?
      modifies this
      ensures var r := ContactsUpTo(old(player).value, old(mode) == GameOver, old(enemies), touches, elite, |old(enemies)|);
        State() == old(State()).(player := Some(r.0), mode := if r.1 then GameOver else old(mode))
    {
      ghost var w := State();
      var i := 0;
      while i < |enemies| && mode != GameOver
        invariant 0 <= i <= |enemies| == |w.enemies|
        invariant var r := ContactsUpTo(w.player.value, w.mode == GameOver, w.enemies, touches, elite, i);
          State() == w.(player := Some(r.0), mode := if r.1 then GameOver else w.mode)
      {
        ContactPassTurn(w, State(), touches, elite, i);
        if enemies[i].elite == elite && !enemies[i].dying && touches(i) {
          var _ := PlayerHit(i);
        }
        i := i + 1;
      }
      if i < |enemies| {
        ContactsStopped(w.player.value, w.mode == GameOver, w.enemies, touches, elite, i, |enemies|);
      }
    }

    // ---------------------------------------------------------------------
    // The weapon pass of step
    // ---------------------------------------------------------------------

    /** The timer loop: every weapon ticks; the result marks those whose timers ran out. */
    method TickWeapons() returns (doomed: seq<bool>)
      modifies this
      ensures State() == old(State()).(weapons := Ticked(old(weapons), old(player)))
      ensures doomed == TimerDoomed(old(weapons), old(player))
    {
      var ws := weapons;
      var out: seq<Weapon> := [];
      doomed := [];
      var i := 0;
      while i < |ws|
        invariant 0 <= i <= |ws| && |out| == i && |doomed| == i
        invariant forall k :: 0 <= k < i ==> out[k] == TickWeapon(ws[k], player).0 && doomed[k] == TickWeapon(ws[k], player).1
      {
        var (x, gone) := TickWeapon(ws[i], player);
        out := out + [x];
        doomed := doomed + [gone];
        i := i + 1;
      }
      weapons := out;
    }

    /** The inner loop of the pierce pass: the first enemy of the kind the missile collides with. */
    method FindTarget(m: Weapon, elite: bool) returns (r: Option<nat>)
      ensures r == FirstOf(m, enemies, elite, 0)
    {
      var j := 0;
      while j < |enemies|
        invariant 0 <= j <= |enemies|
        invariant FirstOf(m, enemies, elite, 0) == FirstOf(m, enemies, elite, j)
      {
        if enemies[j].elite == elite
          && CheckCollision(WeaponBody(m), EnemyBody(enemies[j]), WeaponSize, if elite then EliteSize else EnemySize)
        {
          return Some(j);
        }
        j := j + 1;
      }
      return None;
    }

    /** One enemy kind's turn for missile `i`: apply_damage to its first hit, then one pierce less. */
    method StrikeKind(doomed: seq<bool>, i: nat, elite: bool, drop: bool) returns (d: seq<bool>)
      requires i < |weapons| && |doomed| == |weapons|
      modifies this
      ensures (State(), d) == StrikeKindW(old(State()), doomed, i, elite, drop)
    {
      var m := weapons[i];
      var target := FindTarget(m, elite);
      if target.None? {
        return doomed;
      }
      var _ := ApplyDamage(i, target.value, m.damage, drop);
      var (m2, gone) := PierceHit(weapons[i]);
      weapons := weapons[i := m2];
      d := doomed[i := doomed[i] || gone];
    }

    /** Weapon `i` in the pierce pass: a Magic Wand missile strikes the regular enemies, then the elites. */
    method PierceStep(doomed: seq<bool>, i: nat, drop: bool) returns (d: seq<bool>)
      requires i < |weapons| && |doomed| == |weapons|
      modifies this
      ensures (State(), d) == PierceAt(old(State()), doomed, i, drop)
    {
      if weapons[i].name != "MagicWand" {
        return doomed;
      }
      d := StrikeKind(doomed, i, false, drop);
      d := StrikeKind(d, i, true, drop);
    }

    /** The pierce pass over every weapon; `drops(i)` is the drop roll for a kill by weapon `i`. */
    method PiercePass(doomed: seq<bool>, drops: nat -> bool) returns (d: seq<bool>)
      requires |doomed| == |weapons|
      modifies this
      ensures (State(), d) == PierceUpTo(old(State()), doomed, drops, |old(weapons)|)
    {
      ghost var w := State();
      d := doomed;
      var n := |weapons|;
      var i := 0;
      while i < n
        invariant 0 <= i <= n == |w.weapons|
        invariant (State(), d) == PierceUpTo(w, doomed, drops, i)
      {
        d := NextPierce(w, doomed, drops, i, d);
        i := i + 1;
      }
    }

    /** One turn of the pierce pass. */
    method NextPierce(ghost w: World, ghost doomed: seq<bool>, drops: nat -> bool, i: nat, d: seq<bool>) returns (d': seq<bool>)
      requires i < |w.weapons| && |doomed| == |w.weapons| && (State(), d) == PierceUpTo(w, doomed, drops, i)
      modifies this
      ensures (State(), d') == PierceUpTo(w, doomed, drops, i + 1)
    {
      d' := PierceStep(d, i, drops(i));
    }

    /** The removal loop: the marked weapons go, the rest keep their order. */
    method FlushWeapons(doomed: seq<bool>)
      requires |doomed| == |weapons|
      modifies this
      ensures State() == old(State()).(weapons := Survivors(old(weapons), doomed))
    {
      var ws := weapons;
      var kept: seq<Weapon> := [];
      var i := 0;
      while i < |ws|
        invariant 0 <= i <= |ws|
        invariant kept == Survivors(ws[..i], doomed[..i])
      {
        assert ws[..i + 1][..i] == ws[..i] && doomed[..i + 1][..i] == doomed[..i];
        if !doomed[i] {
          kept := kept + [ws[i]];
        }
        i := i + 1;
      }
      assert ws[..i] == ws && doomed[..i] == doomed;
      weapons := kept;
    }

    /** The weapon pass: the timers, the pierce pass, then the removals either marked. */
    method WeaponPass(drops: nat -> bool)
      modifies this
      ensures State() == WeaponPassW(old(State()), drops)
    {
      var doomed := TickWeapons();
      doomed := PiercePass(doomed, drops);
      FlushWeapons(doomed);
    }

    /** The Magic Wand pass at the end of step, whose removals are never carried out. */
    method LatePierce(drops: nat -> bool)
      modifies this
      ensures State() == LatePierceW(old(State()), drops)
    {
      var _ := PiercePass(seq(|weapons|, k => false), drops);
    }

    // ---------------------------------------------------------------------
    // Per-frame counters
    // ---------------------------------------------------------------------

    /** The blink loop: a living enemy's positive blink timer counts down. */
    method BlinkEnemies()
      modifies this
      ensures State() == old(State()).(enemies := Blinked(old(enemies)))
    {
      var es := enemies;
      var out: seq<Enemy> := [];
      var i := 0;
      while i < |es|
        invariant 0 <= i <= |es| && |out| == i
        invariant forall k :: 0 <= k < i ==> out[k] == BlinkTick(es[k])
      {
        var e := es[i];
        if !e.dying && e.blinkTimer > 0 {
          e := e.(blinkTimer := e.blinkTimer - 1);
        }
        out := out + [e];
        i := i + 1;
      }
      enemies := out;
    }

    /** The damage-text loop: each timer counts down and the texts that reach 0 are removed. */
    method TickTexts()
      modifies this
      ensures State() == old(State()).(texts := TextsTick(old(texts)))
    {
      texts := LiveTexts(texts);
    }

    static method LiveTexts(ts: seq<DamageText>) returns (kept: seq<DamageText>)
      ensures kept == TextsTick(ts)
    {
      kept := [];
      var i := 0;
      while i < |ts|
        invariant 0 <= i <= |ts|
        invariant kept == TextsTick(ts[..i])
      {
        assert ts[..i + 1][..i] == ts[..i];
        var t := TextTick(ts[i]);
        if t.Some? {
          kept := kept + [t.value];
        }
        i := i + 1;
      }
      assert ts[..i] == ts;
    }

    /** The death-animation loop: a dying enemy's timer counts down, and it goes once the timer is 0. */
    method FadeEnemies()
      modifies this
      ensures State() == FadeW(old(State()))
    {
      ghost var w := State();
      var es := enemies;
      var out: seq<Enemy> := [];
      var i := 0;
      while i < |es|
        invariant 0 <= i <= |es|
        invariant Fade(es) == out + Fade(es[i..])
        invariant State() == w
      {
        FadeFrom(es, i);
        var e := es[i];
        if !e.dying {
          ConcatAssoc(out, [e], Fade(es[i + 1..]));
          out := out + [e];
        } else if e.deathTimer > 0 {
          ConcatAssoc(out, [e.(deathTimer := e.deathTimer - 1)], Fade(es[i + 1..]));
          out := out + [e.(deathTimer := e.deathTimer - 1)];
        }
        i := i + 1;
      }
      assert es[i..] == [];
      assert out + [] == out;
      enemies := out;
      assert State() == w.(enemies := Fade(w.enemies));
    }

    /** The movement of step: the keys held move the player, stopped at the field's edges. */
    method MovePlayer(keys: Option<Held>)
      modifies this
      ensures State() == old(State()).(player := Walk(old(player), keys))
    {
      if player.Some? && keys.Some? {
        player := Some(player.value.(pos := Moved(player.value.pos, keys.value)));
      }
    }

    /** The start of a frame: the wave, the top-up, the player's move, the blink and the damage-text timers. */
    method FrameStart(d: Dice)
      modifies this
      ensures State() == FrameStartW(old(State()), d)
    {
      WaveTick(d.waveSpots, d.eliteAt);
      TopUp(d.topUpSpots, d.delay);
      MovePlayer(d.keys);
      BlinkEnemies();
      TickTexts();
    }

    // ---------------------------------------------------------------------
    // Experience, the upgrade menu, apply_upgrade and the debug toolbar
    // ---------------------------------------------------------------------

    /** The pickup loop: each orb the player touches gives 10 experience and is removed. */
    method Pickup()
      requires player.Some?
      modifies this
      ensures State() == PickupW(old(State()))
    {
      var kept, q, up := Collect(player.value, orbs, Progress(level, xp, xpToNextLevel));
      SetPickedUp(kept, q);
      if up {
        ShowUpgradeMenu();
      }
    }

    /** The orbs left and the progress reached by the pickup loop. */
    method SetPickedUp(kept: seq<XpOrb>, q: Progress)
      modifies this
      ensures State() == old(State()).(orbs := kept, progress := q)
    {
      orbs := kept;
      level, xp, xpToNextLevel := q.level, q.xp, q.threshold;
    }

    /**
     * The orbs the player `p` leaves, the progress after those it picks
     * up, and whether some pickup reached the threshold.
     */
    static method Collect(p: Player, os: seq<XpOrb>, start: Progress) returns (kept: seq<XpOrb>, q: Progress, up: bool)
      ensures kept == Kept(p, os) && q == Gains(p, os, start) && up == Levelled(p, os, start)
    {
      q := start;
      kept := [];
      up := false;
      var i := 0;
      while i < |os|
        invariant 0 <= i <= |os|
        invariant kept == Kept(p, os[..i]) && q == Gains(p, os[..i], start) && up == Levelled(p, os[..i], start)
      {
        assert os[..i + 1][..i] == os[..i];
        if Touches(p, os[i]) {
          var gained := q.xp + XpPerOrb;
          if gained >= q.threshold {
            up := true;
            q := Progress(q.level + 1, gained - q.threshold, (q.level + 1) * 50);
          } else {
            q := q.(xp := gained);
          }
        } else {
          kept := kept + [os[i]];
        }
        i := i + 1;
      }
      assert os[..i] == os;
    }

    /**
     * show_upgrade_menu: the menu opens; with a player, it offers the
     * upgrades of owned weapons below their maximum, the missing weapons
     * while the dictionary holds fewer than six, and the two general
     * upgrades.
     */
    method ShowUpgradeMenu()
      modifies this
      ensures State() == old(State()).(mode := UpgradeMenu,
        options := if old(player).Some? then UpgradeOptions(old(player).value.weapons) else old(upgradeOptions))
    {
      mode := UpgradeMenu;
      if player.None? {
        return;
      }
      var ws := player.value.weapons;
      var ups := UpgradesOf(WeaponTypes, ws);
      var news: seq<UpgradeOption> := [];
      if |ws| < 6 {
        news := MissingOf(WeaponTypes, ws);
      }
      upgradeOptions := ups + news + [DamageUp, AttackSpeedUp];
    }

    /** The first loop of show_upgrade_menu: an upgrade for each owned weapon below its maximum. */
    static method UpgradesOf(ts: seq<WeaponType>, ws: Levels) returns (ups: seq<UpgradeOption>)
      ensures ups == Upgradable(ts, ws)
    {
      ups := [];
      var i := 0;
      while i < |ts|
        invariant 0 <= i <= |ts|
        invariant Upgradable(ts, ws) == ups + Upgradable(ts[i..], ws)
      {
        UpgradableFrom(ts, ws, i);
        var level := LevelOf(ws, ts[i].name);
        if 0 < level < ts[i].maxLevel {
          ConcatAssoc(ups, [UpgradeWeapon(ts[i].name, level)], Upgradable(ts[i + 1..], ws));
          ups := ups + [UpgradeWeapon(ts[i].name, level)];
        }
        i := i + 1;
      }
    }

    /** The second loop of show_upgrade_menu: each weapon missing from the dictionary. */
    static method MissingOf(ts: seq<WeaponType>, ws: Levels) returns (news: seq<UpgradeOption>)
      ensures news == Unowned(ts, ws)
    {
      news := [];
      var i := 0;
      while i < |ts|
        invariant 0 <= i <= |ts|
        invariant Unowned(ts, ws) == news + Unowned(ts[i..], ws)
      {
        UnownedFrom(ts, ws, i);
        if !HasKey(ws, ts[i].name) {
          ConcatAssoc(news, [NewWeapon(ts[i].name)], Unowned(ts[i + 1..], ws));
          news := news + [NewWeapon(ts[i].name)];
        }
        i := i + 1;
      }
    }

    /** apply_upgrade: nothing without a player; otherwise the option's effect. */
    method ApplyUpgrade(o: UpgradeOption)
      modifies this
      ensures State() == ApplyUpgradeW(old(State()), o)
    {
      if player.None? {
        return;
      }
      var p := player.value;
      match o
      case DamageUp => HardenWeapons();
      case AttackSpeedUp => SpeedUpCooldowns();
      case _ => player := Some(p.(weapons := UpgradeLevels(p.weapons, o)));
    }

    /** The damage option's loop: every live weapon projectile hits one harder. */
    method HardenWeapons()
      modifies this
      ensures State() == old(State()).(weapons := Harder(old(weapons)))
    {
      var ws := weapons;
      var out: seq<Weapon> := [];
      var i := 0;
      while i < |ws|
        invariant 0 <= i <= |ws| && |out| == i
        invariant forall k :: 0 <= k < i ==> out[k] == ws[k].(damage := ws[k].damage + 1)
      {
        out := out + [ws[i].(damage := ws[i].damage + 1)];
        i := i + 1;
      }
      weapons := out;
    }

    /** The attack-speed option's loop over the weapons dictionary: each cooldown present is scaled. */
    method SpeedUpCooldowns()
      requires player.Some?
      modifies this
      ensures State() == old(State()).(player := Some(old(player).value.(cooldowns := SpeedUp(old(player).value.cooldowns, old(player).value.weapons))))
    {
      var p := player.value;
      var cds := p.cooldowns;
      var i := 0;
      while i < |p.weapons|
        invariant 0 <= i <= |p.weapons|
        invariant cds == SpeedUp(p.cooldowns, p.weapons[..i])
      {
        assert p.weapons[..i + 1][..i] == p.weapons[..i];
        var name := p.weapons[i].0;
        if name in cds {
          cds := cds[name := Quicker(cds[name])];
        }
        i := i + 1;
      }
      assert p.weapons[..i] == p.weapons;
      player := Some(p.(cooldowns := cds));
    }

    /** A click on option `i` of the upgrade menu: play resumes and the option is applied. */
    method ChooseUpgrade(i: nat)
      modifies this
      ensures State() == ChooseUpgradeW(old(State()), i)
    {
      if mode == UpgradeMenu && i < |upgradeOptions| {
        mode := Playing;
        ApplyUpgrade(upgradeOptions[i]);
      }
    }

    /** The debug branch of handle_input: a click at (x, y) on the toolbar while playing. */
    method DebugClick(x: int, y: int)
      modifies this
      ensures State() == DebugClickW(old(State()), x, y)
    {
      if player.None? || mode != Playing {
        return;
      }
      var p := player.value;
      var ws := p.weapons;
      var i := 0;
      while i < |WeaponTypes|
        invariant 0 <= i <= |WeaponTypes|
        invariant ws == DebugLevels(p.weapons, x, y, i)
      {
        var t := WeaponTypes[i];
        if OnMinus(x, y, i) {
          ws := DebugDecrease(ws, t.name);
        } else if OnPlus(x, y, i) {
          ws := DebugIncrease(ws, t.name, t.maxLevel);
        }
        i := i + 1;
      }
      player := Some(p.(weapons := ws));
    }

    // ---------------------------------------------------------------------
    // step
    // ---------------------------------------------------------------------

    /** One frame of step, as StepW describes it; the world's invariant survives it. */
    method Step(d: Dice)
      modifies this
      ensures State() == StepW(old(State()), d)
      ensures old(Valid()) ==> Valid()
    {
      ghost var w := State();
      if Sim.Valid(w) {
        StepValid(w, d);
      }
      if mode == Playing {
        gameTimer := gameTimer + 1;
        ghost var w0 := State();
        assert w0 == CountFrame(w);
        if player.None? {
          mode := GameOver;
        } else {
          Play(d);
          assert State() == PlayW(w0, d);
        }
      }
      assert State() == StepW(w, d);
    }

    /** A frame in play with a player: the passes in the order step runs them. */
    method Play(d: Dice)
      requires player.Some?
      modifies this
      ensures State() == PlayW(old(State()), d)
    {
      FrameStart(d);
      FireWeapons(d.aim);
      Respawn(d.respawnAim);
      WeaponPass(d.drops);
      Contacts(d.touches);
      if mode == GameOver {
        return;
      }
      Pickup();
      FadeEnemies();
      LatePierce(d.lateDrops);
    }
  }
}
