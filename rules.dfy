/**
 * The rules of survivor/games/survivor.py that compute a new value from
 * old ones: the player's weapon levels (upgrade menu, apply_upgrade, the
 * debug toolbar), experience and levelling, the per-frame timers of
 * weapons, books and dying enemies, pierce counting, the homing missiles'
 * choice of targets, and the records each spawn routine creates.
 */
module Rules {
  import opened Wrappers
  import opened Lists
  import opened Catalog
  import opened Entities

  // -----------------------------------------------------------------------
  // Weapon levels: the player's "weapons" dictionary
  // -----------------------------------------------------------------------

  type Levels = seq<(string, int)>

  /** `weapons.get(name, 0)`. */
  function LevelOf(ws: Levels, name: string): int
  {
    match Lookup(ws, name)
    case Some(l) => l
    case None => 0
  }

  /** The catalog's maximum level for a name, 8 for a name outside it (apply_upgrade's default). */
  function MaxLevelOf(name: string): int
  {
    match Find(name)
    case Some(w) => w.maxLevel
    case None => 8
  }

  /** Every weapon's level lies between 0 and its maximum. */
  ghost predicate LevelsValid(ws: Levels)
  {
    forall n :: 0 <= LevelOf(ws, n) <= MaxLevelOf(n)
  }

  /** `weapons.pop(name)`: the entry under `name` goes, the others keep their order. */
  function RemoveKey(ws: Levels, name: string): (r: Levels)
    ensures |r| <= |ws|
  {
    if ws == [] then []
    else if ws[0].0 == name then RemoveKey(ws[1..], name)
    else [ws[0]] + RemoveKey(ws[1..], name)
  }

  lemma {:induction false} RemoveKeyLookup(ws: Levels, name: string, n: string)
    ensures Lookup(RemoveKey(ws, name), n) == if n == name then None else Lookup(ws, n)
    decreases |ws|
  {
    if ws != [] {
      RemoveKeyLookup(ws[1..], name, n);
    }
  }

  /** `weapons[name] = level`, read back through LevelOf. */
  lemma SetLevel(ws: Levels, name: string, level: int, n: string)
    ensures LevelOf(Assign(ws, name, level), n) == if n == name then level else LevelOf(ws, n)
  {
    AssignLookup(ws, name, level, n);
  }

  /** The debug toolbar's "-" button: level 1 drops the weapon, a higher level loses one. */
  function DebugDecrease(ws: Levels, name: string): Levels
  {
    var level := LevelOf(ws, name);
    if level > 0 then
      if level == 1 then RemoveKey(ws, name) else Assign(ws, name, level - 1)
    else ws
  }

  /** The debug toolbar's "+" button: below the maximum, one level more (a missing weapon arrives at 1). */
  function DebugIncrease(ws: Levels, name: string, maxLevel: int): Levels
  {
    var level := LevelOf(ws, name);
    if level < maxLevel then Assign(ws, name, if level == 0 then 1 else level + 1)
    else ws
  }

  /** "-" lowers the level by one down to 0 and touches no other weapon. */
  lemma DebugDecreaseLevels(ws: Levels, name: string, n: string)
    ensures LevelOf(DebugDecrease(ws, name), n) ==
      if n == name && LevelOf(ws, name) > 0 then LevelOf(ws, name) - 1 else LevelOf(ws, n)
  {
    var level := LevelOf(ws, name);
    if level == 1 {
      RemoveKeyLookup(ws, name, n);
    } else if level > 1 {
      SetLevel(ws, name, level - 1, n);
    }
  }

  /** "+" raises the level by one up to the maximum and touches no other weapon. */
  lemma DebugIncreaseLevels(ws: Levels, name: string, maxLevel: int, n: string)
    ensures LevelOf(DebugIncrease(ws, name, maxLevel), n) ==
      if n == name && LevelOf(ws, name) < maxLevel then LevelOf(ws, name) + 1 else LevelOf(ws, n)
  {
    var level := LevelOf(ws, name);
    if level < maxLevel {
      SetLevel(ws, name, if level == 0 then 1 else level + 1, n);
    }
  }

  /** "+" then "-" leaves every level as it was, for a weapon below its maximum. */
  lemma DebugIncreaseThenDecrease(ws: Levels, name: string, maxLevel: int, n: string)
    requires 0 <= LevelOf(ws, name) < maxLevel
    ensures LevelOf(DebugDecrease(DebugIncrease(ws, name, maxLevel), name), n) == LevelOf(ws, n)
  {
    DebugIncreaseLevels(ws, name, maxLevel, name);
    DebugIncreaseLevels(ws, name, maxLevel, n);
    DebugDecreaseLevels(DebugIncrease(ws, name, maxLevel), name, n);
  }

  /** Both debug buttons keep every level within [0, maximum]. */
  lemma DebugKeepsLevelsValid(ws: Levels, name: string)
    requires LevelsValid(ws)
    ensures LevelsValid(DebugDecrease(ws, name))
    ensures LevelsValid(DebugIncrease(ws, name, MaxLevelOf(name)))
  {
    forall n ensures 0 <= LevelOf(DebugDecrease(ws, name), n) <= MaxLevelOf(n) {
      DebugDecreaseLevels(ws, name, n);
    }
    forall n ensures 0 <= LevelOf(DebugIncrease(ws, name, MaxLevelOf(name)), n) <= MaxLevelOf(n) {
      DebugIncreaseLevels(ws, name, MaxLevelOf(name), n);
    }
  }

  // -----------------------------------------------------------------------
  // The upgrade menu and apply_upgrade
  // -----------------------------------------------------------------------

  datatype UpgradeOption = UpgradeWeapon(name: string, level: int) | NewWeapon(name: string) | DamageUp | AttackSpeedUp

  /** Owned weapons below their maximum, in catalog order. */
  function Upgradable(ts: seq<WeaponType>, ws: Levels): (r: seq<UpgradeOption>)
    ensures |r| <= |ts|
  {
    if ts == [] then []
    else
      var level := LevelOf(ws, ts[0].name);
      (if 0 < level < ts[0].maxLevel then [UpgradeWeapon(ts[0].name, level)] else []) + Upgradable(ts[1..], ws)
  }

  /** One entry of the table at a time: the upgrade of entry `i`, if it has one, then the rest. */
  lemma UpgradableFrom(ts: seq<WeaponType>, ws: Levels, i: nat)
    requires i < |ts|
    ensures var level := LevelOf(ws, ts[i].name);
      if 0 < level < ts[i].maxLevel
      then Upgradable(ts[i..], ws) == [UpgradeWeapon(ts[i].name, level)] + Upgradable(ts[i + 1..], ws)
      else Upgradable(ts[i..], ws) == Upgradable(ts[i + 1..], ws)
  {
    assert ts[i..][1..] == ts[i + 1..];
  }

  /**
   * An option is among the upgrades exactly when it is an upgrade of a
   * weapon of the table that is owned below its maximum, at its current
   * level.
   */
  lemma {:induction false} UpgradableMembers(ts: seq<WeaponType>, ws: Levels, o: UpgradeOption)
    ensures o in Upgradable(ts, ws) <==>
      o.UpgradeWeapon? && exists w :: w in ts && w.name == o.name && o.level == LevelOf(ws, w.name) && 0 < o.level < w.maxLevel
  {
    if ts != [] {
      UpgradableMembers(ts[1..], ws, o);
      assert forall w :: w in ts <==> w == ts[0] || w in ts[1..];
    }
  }

  /** Catalog weapons not in the dictionary at all, in catalog order. */
  function Unowned(ts: seq<WeaponType>, ws: Levels): (r: seq<UpgradeOption>)
    ensures |r| <= |ts|
  {
    if ts == [] then []
    else (if !HasKey(ws, ts[0].name) then [NewWeapon(ts[0].name)] else []) + Unowned(ts[1..], ws)
  }

  /** One entry of the table at a time: the new weapon of entry `i`, if missing, then the rest. */
  lemma UnownedFrom(ts: seq<WeaponType>, ws: Levels, i: nat)
    requires i < |ts|
    ensures HasKey(ws, ts[i].name) ==> Unowned(ts[i..], ws) == Unowned(ts[i + 1..], ws)
    ensures !HasKey(ws, ts[i].name) ==> Unowned(ts[i..], ws) == [NewWeapon(ts[i].name)] + Unowned(ts[i + 1..], ws)
  {
    assert ts[i..][1..] == ts[i + 1..];
  }

  /** An option is among the new weapons exactly when it names a weapon of the table missing from the dictionary. */
  lemma {:induction false} UnownedMembers(ts: seq<WeaponType>, ws: Levels, o: UpgradeOption)
    ensures o in Unowned(ts, ws) <==> o.NewWeapon? && !HasKey(ws, o.name) && exists w :: w in ts && w.name == o.name
  {
    if ts != [] {
      UnownedMembers(ts[1..], ws, o);
      assert forall w :: w in ts <==> w == ts[0] || w in ts[1..];
    }
  }

  /**
   * The candidates of show_upgrade_menu before random.sample: upgrades of
   * owned weapons, new weapons while fewer than six are in the dictionary,
   * and the two general upgrades.
   */
  function UpgradeOptions(ws: Levels): (r: seq<UpgradeOption>)
    ensures |r| >= 2 && r[|r| - 2] == DamageUp && r[|r| - 1] == AttackSpeedUp
  {
    Upgradable(WeaponTypes, ws) + (if |ws| < 6 then Unowned(WeaponTypes, ws) else []) + [DamageUp, AttackSpeedUp]
  }

  /**
   * The menu offers exactly: an upgrade for each owned catalog weapon
   * below its maximum, at its current level; each catalog weapon missing
   * from a dictionary of fewer than six; and the two general upgrades.
   */
  lemma UpgradeOptionsExact(ws: Levels)
    ensures forall o :: o in UpgradeOptions(ws) && o.UpgradeWeapon? ==>
      Find(o.name).Some? && o.level == LevelOf(ws, o.name) && 0 < o.level < MaxLevelOf(o.name)
    ensures forall o :: o in UpgradeOptions(ws) && o.NewWeapon? ==>
      Find(o.name).Some? && !HasKey(ws, o.name) && |ws| < 6
    ensures forall w :: w in WeaponTypes && 0 < LevelOf(ws, w.name) < w.maxLevel ==>
      UpgradeWeapon(w.name, LevelOf(ws, w.name)) in UpgradeOptions(ws)
    ensures forall w :: w in WeaponTypes && !HasKey(ws, w.name) && |ws| < 6 ==> NewWeapon(w.name) in UpgradeOptions(ws)
  {
    forall o | o in UpgradeOptions(ws) && o.UpgradeWeapon?
      ensures Find(o.name).Some? && o.level == LevelOf(ws, o.name) && 0 < o.level < MaxLevelOf(o.name)
    {
      OfferedUpgradeExact(ws, o);
    }
    forall o | o in UpgradeOptions(ws) && o.NewWeapon?
      ensures Find(o.name).Some? && !HasKey(ws, o.name) && |ws| < 6
    {
      OfferedNewExact(ws, o);
    }
    var u, n := Upgradable(WeaponTypes, ws), (if |ws| < 6 then Unowned(WeaponTypes, ws) else []);
    assert UpgradeOptions(ws) == u + n + [DamageUp, AttackSpeedUp];
    forall w | w in WeaponTypes && 0 < LevelOf(ws, w.name) < w.maxLevel
      ensures UpgradeWeapon(w.name, LevelOf(ws, w.name)) in UpgradeOptions(ws)
    {
      UpgradableMembers(WeaponTypes, ws, UpgradeWeapon(w.name, LevelOf(ws, w.name)));
    }
    forall w | w in WeaponTypes && !HasKey(ws, w.name) && |ws| < 6
      ensures NewWeapon(w.name) in UpgradeOptions(ws)
    {
      UnownedMembers(WeaponTypes, ws, NewWeapon(w.name));
    }
  }

  /** An offered weapon upgrade names a catalog weapon below its maximum, at its current level. */
  lemma OfferedUpgradeExact(ws: Levels, o: UpgradeOption)
    requires o in UpgradeOptions(ws) && o.UpgradeWeapon?
    ensures Find(o.name).Some? && o.level == LevelOf(ws, o.name) && 0 < o.level < MaxLevelOf(o.name)
  {
    var u, n := Upgradable(WeaponTypes, ws), (if |ws| < 6 then Unowned(WeaponTypes, ws) else []);
    assert UpgradeOptions(ws) == u + n + [DamageUp, AttackSpeedUp];
    assert o in u by {
      if |ws| < 6 {
        UnownedMembers(WeaponTypes, ws, o);
      }
      assert o !in n && o != DamageUp && o != AttackSpeedUp;
    }
    CatalogFindsAll();
    UpgradableExact(WeaponTypes, ws, o);
  }

  /** Over a table Find agrees with, an upgrade option is exact. */
  lemma UpgradableExact(ts: seq<WeaponType>, ws: Levels, o: UpgradeOption)
    requires o in Upgradable(ts, ws) && o.UpgradeWeapon?
    requires forall w :: w in ts ==> Find(w.name) == Some(w)
    ensures Find(o.name).Some? && o.level == LevelOf(ws, o.name) && 0 < o.level < MaxLevelOf(o.name)
  {
    UpgradableMembers(ts, ws, o);
    var w :| w in ts && w.name == o.name && o.level == LevelOf(ws, w.name) && 0 < o.level < w.maxLevel;
    assert Find(w.name) == Some(w);
  }

  /** An offered new weapon is a catalog weapon missing from a dictionary of fewer than six. */
  lemma OfferedNewExact(ws: Levels, o: UpgradeOption)
    requires o in UpgradeOptions(ws) && o.NewWeapon?
    ensures Find(o.name).Some? && !HasKey(ws, o.name) && |ws| < 6
  {
    var u, n := Upgradable(WeaponTypes, ws), (if |ws| < 6 then Unowned(WeaponTypes, ws) else []);
    assert UpgradeOptions(ws) == u + n + [DamageUp, AttackSpeedUp];
    assert o in n by {
      UpgradableMembers(WeaponTypes, ws, o);
      assert o !in u && o != DamageUp && o != AttackSpeedUp;
    }
    CatalogFindsAll();
    UnownedExact(WeaponTypes, ws, o);
  }

  lemma UnownedExact(ts: seq<WeaponType>, ws: Levels, o: UpgradeOption)
    requires o in Unowned(ts, ws) && o.NewWeapon?
    requires forall w :: w in ts ==> Find(w.name) == Some(w)
    ensures Find(o.name).Some? && !HasKey(ws, o.name)
  {
    UnownedMembers(ts, ws, o);
    var w :| w in ts && w.name == o.name;
    assert Find(w.name) == Some(w);
  }

  lemma CatalogFindsAll()
    ensures forall w :: w in WeaponTypes ==> Find(w.name) == Some(w)
  {
    forall w | w in WeaponTypes ensures Find(w.name) == Some(w) {
      UniqueNames(w);
    }
  }

  /** A catalog weapon is the one Find returns for its name: the names are distinct. */
  lemma UniqueNames(w: WeaponType)
    requires w in WeaponTypes
    ensures Find(w.name) == Some(w)
  {
    var i :| 0 <= i < |WeaponTypes| && WeaponTypes[i] == w;
    WeaponNamesAgree();
    forall j | 0 <= j < i
      ensures WeaponTypes[j].name != w.name
    {
      NamesDiffer(j, i);
    }
  }

  /** Two catalog entries differ in the length or the first letter of their names. */
  lemma NamesDiffer(i: int, j: int)
    requires 0 <= i < j < |WeaponNames|
    ensures WeaponNames[i] != WeaponNames[j]
  {
    var a, b := WeaponNames[i], WeaponNames[j];
    assert |a| != |b| || a[0] != b[0];
  }

  /**
   * apply_upgrade on the weapons dictionary: an upgrade raises the level
   * (`weapons.get(name, 1)`) by one while below the maximum; a new weapon
   * arrives at level 1 while fewer than six are held. The general
   * upgrades leave the dictionary alone.
   */
  function UpgradeLevels(ws: Levels, o: UpgradeOption): Levels
  {
    match o
    case UpgradeWeapon(name, _) =>
      var level := match Lookup(ws, name) case Some(l) => l case None => 1;
      if level < MaxLevelOf(name) then Assign(ws, name, level + 1) else ws
    case NewWeapon(name) =>
      if |ws| < 6 && !HasKey(ws, name) then Assign(ws, name, 1) else ws
    case DamageUp => ws
    case AttackSpeedUp => ws
  }

  /**
   * Taking an offered option raises exactly the named weapon by one level
   * (a new weapon from 0 to 1, appended at the end) and keeps every level
   * within its bounds.
   */
  lemma OfferedUpgradeRaisesOne(ws: Levels, o: UpgradeOption, n: string)
    requires LevelsValid(ws) && o in UpgradeOptions(ws)
    ensures LevelsValid(UpgradeLevels(ws, o))
    ensures o.UpgradeWeapon? || o.NewWeapon? ==>
      LevelOf(UpgradeLevels(ws, o), n) == if n == o.name then LevelOf(ws, n) + 1 else LevelOf(ws, n)
    ensures o.NewWeapon? ==> UpgradeLevels(ws, o) == ws + [(o.name, 1)]
    ensures o.DamageUp? || o.AttackSpeedUp? ==> UpgradeLevels(ws, o) == ws
  {
    if o.UpgradeWeapon? {
      OfferedUpgradeExact(ws, o);
      UpgradeWeaponRaises(ws, o.name, o.level);
    } else if o.NewWeapon? {
      OfferedNewExact(ws, o);
      NewWeaponRaises(ws, o.name);
    }
  }

  lemma UpgradeWeaponRaises(ws: Levels, name: string, level: int)
    requires LevelsValid(ws) && level == LevelOf(ws, name) && 0 < level < MaxLevelOf(name)
    ensures UpgradeLevels(ws, UpgradeWeapon(name, level)) == Assign(ws, name, level + 1)
    ensures LevelsValid(Assign(ws, name, level + 1))
    ensures forall m :: LevelOf(Assign(ws, name, level + 1), m) == if m == name then LevelOf(ws, m) + 1 else LevelOf(ws, m)
  {
    assert Lookup(ws, name) == Some(level);
    RaiseOne(ws, name, level + 1);
  }

  lemma NewWeaponRaises(ws: Levels, name: string)
    requires LevelsValid(ws) && !HasKey(ws, name) && |ws| < 6
    ensures UpgradeLevels(ws, NewWeapon(name)) == Assign(ws, name, 1) == ws + [(name, 1)]
    ensures LevelsValid(Assign(ws, name, 1))
    ensures forall m :: LevelOf(Assign(ws, name, 1), m) == if m == name then LevelOf(ws, m) + 1 else LevelOf(ws, m)
  {
    LookupFinds(ws, name);
    MaxLevelIsEight(name);
    RaiseOne(ws, name, 1);
  }

  /** Setting one weapon to one level above its old one, within its maximum, keeps the levels valid. */
  lemma RaiseOne(ws: Levels, name: string, level: int)
    requires LevelsValid(ws) && level == LevelOf(ws, name) + 1 && level <= MaxLevelOf(name)
    ensures LevelsValid(Assign(ws, name, level))
    ensures forall m :: LevelOf(Assign(ws, name, level), m) == if m == name then LevelOf(ws, m) + 1 else LevelOf(ws, m)
  {
    forall m ensures LevelOf(Assign(ws, name, level), m) == if m == name then LevelOf(ws, m) + 1 else LevelOf(ws, m) {
      SetLevel(ws, name, level, m);
    }
  }

  /** Every catalog weapon, and apply_upgrade's default for any other name, tops out at level 8. */
  lemma MaxLevelIsEight(name: string)
    ensures MaxLevelOf(name) == 8
  {
    match Find(name)
    case None =>
    case Some(w) =>
      assert w in WeaponTypes;
  }

  // -----------------------------------------------------------------------
  // Experience
  // -----------------------------------------------------------------------

  /** The game's `level`, `xp` and `xp_to_next_level`. */
  datatype Progress = Progress(level: int, xp: int, threshold: int)

  /** The levelling invariant: the threshold is 50 per level and the experience is below it. */
  predicate ProgressValid(p: Progress)
  {
    p.level >= 1 && p.threshold == p.level * 50 && 0 <= p.xp < p.threshold
  }

  /** One orb picked up: 10 experience, and a level gained on reaching the threshold. */
  function GainXp(p: Progress): Progress
  {
    var xp := p.xp + XpPerOrb;
    if xp >= p.threshold then Progress(p.level + 1, xp - p.threshold, (p.level + 1) * 50)
    else p.(xp := xp)
  }

  predicate LevelsUp(p: Progress)
  {
    p.xp + XpPerOrb >= p.threshold
  }

  /** All experience ever gained: the thresholds of the levels passed plus the current experience. */
  function TotalXp(p: Progress): int
  {
    25 * p.level * (p.level - 1) + p.xp
  }

  /**
   * A pickup keeps the levelling invariant, gains a level exactly when the
   * threshold is reached, and adds exactly 10 to the total experience.
   */
  lemma GainXpKeeps(p: Progress)
    requires ProgressValid(p)
    ensures ProgressValid(GainXp(p))
    ensures GainXp(p).level == if LevelsUp(p) then p.level + 1 else p.level
    ensures TotalXp(GainXp(p)) == TotalXp(p) + XpPerOrb
  {
    if LevelsUp(p) {
      var l := p.level;
      assert 25 * (l + 1) * l == 25 * l * (l - 1) + 50 * l;
      assert (l + 1) * 50 == l * 50 + 50;
    }
  }

  // -----------------------------------------------------------------------
  // King Bible hit cooldowns
  // -----------------------------------------------------------------------

  /** The per-frame aging of a book's hit cooldowns: positive entries drop by one, the rest are deleted. */
  function AgeCooldowns(m: map<int, int>): (r: map<int, int>)
    ensures forall k :: k in r <==> k in m && m[k] > 0
    ensures forall k :: k in r ==> r[k] == m[k] - 1
  {
    map k | k in m && m[k] > 0 :: m[k] - 1
  }

  function AgeTimes(m: map<int, int>, n: nat): map<int, int>
  {
    if n == 0 then m else AgeCooldowns(AgeTimes(m, n - 1))
  }

  /** After `n` frames an entry is still there exactly when it started at `n` or more, lowered by `n`. */
  lemma {:induction false} AgeTimesEntry(m: map<int, int>, n: nat, k: int)
    ensures k in AgeTimes(m, n) <==> k in m && (n == 0 || m[k] >= n)
    ensures k in AgeTimes(m, n) ==> AgeTimes(m, n)[k] == m[k] - n
  {
    if n > 0 {
      AgeTimesEntry(m, n - 1, k);
    }
  }

  /** Whether a book may hit an enemy: apply_damage's `hit_cooldown.get(eid, 0) > 0` test, negated. */
  predicate MayHit(m: map<int, int>, eid: int)
  {
    !(eid in m && m[eid] > 0)
  }

  /**
   * After a hit sets an enemy's entry to 30, the book ignores that enemy
   * for the next 29 frames and may hit it again from the 30th on.
   */
  lemma BookRehitDelay(m: map<int, int>, eid: int, n: nat)
    ensures !MayHit(AgeTimes(m[eid := BibleHitCooldown], n), eid) <==> n < BibleHitCooldown
  {
    AgeTimesEntry(m[eid := BibleHitCooldown], n, eid);
  }

  // -----------------------------------------------------------------------
  // Dying enemies
  // -----------------------------------------------------------------------

  /** on_particle_death with the animation: the enemy stays, marked dying for 30 frames. */
  function MarkDying(e: Enemy): Enemy
  {
    e.(dying := true, deathTimer := DeathAnimFrames)
  }

  /** One frame of the death fade for one enemy: None once it is removed. */
  function FadeOne(e: Enemy): Option<Enemy>
  {
    if e.dying then
      if e.deathTimer > 0 then Some(e.(deathTimer := e.deathTimer - 1)) else None
    else Some(e)
  }

  /** The death-fade pass over the enemies in list order. */
  function Fade(es: seq<Enemy>): (r: seq<Enemy>)
    ensures |r| <= |es|
  {
    if es == [] then []
    else (match FadeOne(es[0]) case Some(e) => [e] case None => []) + Fade(es[1..])
  }

  /** One enemy at a time: what the fade leaves of enemy `i`, then the rest. */
  lemma FadeFrom(es: seq<Enemy>, i: nat)
    requires i < |es|
    ensures FadeOne(es[i]).Some? ==> Fade(es[i..]) == [FadeOne(es[i]).value] + Fade(es[i + 1..])
    ensures FadeOne(es[i]).None? ==> Fade(es[i..]) == Fade(es[i + 1..])
  {
    assert es[i..][1..] == es[i + 1..];
  }

  function FadeTimes(e: Enemy, n: nat): Option<Enemy>
  {
    if n == 0 then Some(e)
    else match FadeTimes(e, n - 1) case Some(f) => FadeOne(f) case None => None
  }

  /**
   * An enemy marked dying with timer `t >= 0` stays for `t` more frames,
   * its timer counting down, and is removed on the frame after.
   */
  lemma {:induction false} FadeLifetime(e: Enemy, n: nat)
    requires e.dying && e.deathTimer >= 0
    ensures FadeTimes(e, n).Some? <==> n <= e.deathTimer
    ensures FadeTimes(e, n).Some? ==> FadeTimes(e, n).value == e.(deathTimer := e.deathTimer - n)
  {
    if n > 0 {
      FadeLifetime(e, n - 1);
    }
  }

  /** A killed enemy disappears on the 31st fade pass after its death. */
  lemma KilledEnemyLasts(e: Enemy, n: nat)
    ensures FadeTimes(MarkDying(e), n).Some? <==> n <= DeathAnimFrames
  {
    FadeLifetime(MarkDying(e), n);
  }

  /** The fade keeps every enemy that is not dying, in order. */
  lemma {:induction false} FadeKeepsLiving(es: seq<Enemy>)
    ensures Filter(Fade(es)) == Filter(es)
    decreases |es|
  {
    if es != [] {
      FadeKeepsLiving(es[1..]);
      var head := match FadeOne(es[0]) case Some(e) => [e] case None => [];
      FilterAppend(head, Fade(es[1..]));
      assert es == [es[0]] + es[1..];
      FilterAppend([es[0]], es[1..]);
    }
  }

  /** The enemies that are not dying. */
  function Filter(es: seq<Enemy>): seq<Enemy>
  {
    if es == [] then [] else (if es[0].dying then [] else [es[0]]) + Filter(es[1..])
  }

  lemma {:induction false} FilterAppend(a: seq<Enemy>, b: seq<Enemy>)
    ensures Filter(a + b) == Filter(a) + Filter(b)
    decreases |a|
  {
    if a == [] {
      assert a + b == b;
    } else {
      assert (a + b)[1..] == a[1..] + b;
      FilterAppend(a[1..], b);
    }
  }

  // -----------------------------------------------------------------------
  // Weapon timers and pierce
  // -----------------------------------------------------------------------

  function Dec(t: Option<int>): Option<int>
  {
    match t case Some(v) => Some(v - 1) case None => None
  }

  predicate Expired(t: Option<int>)
  {
    t.Some? && t.value <= 0
  }

  /** The target-player lookup of a book: it keeps orbiting only while its player exists. */
  predicate Orphaned(w: Weapon, player: Option<Player>)
  {
    w.orbit.Some? && !(player.Some? && player.value.id == w.orbit.value.targetPlayerId)
  }

  /**
   * One frame of the weapon-timer pass for one weapon: whip timer,
   * duration and boomerang timer count down, a boomerang turns back when
   * its timer reaches exactly 0, and a book's hit cooldowns age. The
   * second component tells whether the weapon is due for removal.
   */
  function TickWeapon(w: Weapon, player: Option<Player>): (r: (Weapon, bool))
    ensures r.0.id == w.id && r.0.name == w.name && r.0.damage == w.damage
  {
    var whip := Dec(w.whipTimer);
    var duration := Dec(w.duration);
    var boomerang := Dec(w.boomerangTimer);
    var turned := if boomerang == Some(0) then !w.reversed else w.reversed;
    var cooldowns := if w.orbit.Some? && w.name == "KingBible" then AgeCooldowns(w.hitCooldown) else w.hitCooldown;
    (w.(whipTimer := whip, duration := duration, boomerangTimer := boomerang, reversed := turned, hitCooldown := cooldowns),
     Expired(whip) || Expired(duration) || Orphaned(w, player))
  }

  function TickTimes(w: Weapon, player: Option<Player>, n: nat): Weapon
  {
    if n == 0 then w else TickWeapon(TickTimes(w, player, n - 1), player).0
  }

  /** A slash with a whip timer of `t >= 1` frames is due for removal exactly on its `t`-th tick. */
  lemma {:induction false} WhipLifetime(w: Weapon, player: Option<Player>, n: nat)
    requires w.whipTimer.Some? && n >= 1
    ensures TickTimes(w, player, n).whipTimer == Some(w.whipTimer.value - n)
    ensures Expired(TickWeapon(TickTimes(w, player, n - 1), player).0.whipTimer) <==> n >= w.whipTimer.value
  {
    if n > 1 {
      WhipLifetime(w, player, n - 1);
    }
  }

  /** A weapon with a duration of `d >= 1` frames is due for removal exactly on its `d`-th tick. */
  lemma {:induction false} DurationLifetime(w: Weapon, player: Option<Player>, n: nat)
    requires w.duration.Some? && n >= 1
    ensures TickTimes(w, player, n).duration == Some(w.duration.value - n)
    ensures Expired(TickWeapon(TickTimes(w, player, n - 1), player).0.duration) <==> n >= w.duration.value
  {
    if n > 1 {
      DurationLifetime(w, player, n - 1);
    }
  }

  /** A boomerang turns back once, on the tick its timer reaches 0, and keeps going back after. */
  lemma {:induction false} BoomerangTurnsOnce(w: Weapon, player: Option<Player>, n: nat)
    requires w.boomerangTimer.Some? && w.boomerangTimer.value >= 1 && !w.reversed
    ensures TickTimes(w, player, n).boomerangTimer == Some(w.boomerangTimer.value - n)
    ensures TickTimes(w, player, n).reversed <==> n >= w.boomerangTimer.value
  {
    if n > 0 {
      BoomerangTurnsOnce(w, player, n - 1);
    }
  }

  /**
   * A weapon with neither timer nor orbit, such as the slash spawn_weapon
   * creates for the Whip, is never due for removal by the timer pass.
   */
  lemma UntimedNeverExpires(w: Weapon, player: Option<Player>, n: nat)
    requires w.whipTimer.None? && w.duration.None? && w.orbit.None?
    ensures !TickWeapon(TickTimes(w, player, n), player).1
  {
    assert TickTimes(w, player, n).whipTimer.None? && TickTimes(w, player, n).duration.None? && TickTimes(w, player, n).orbit.None? by {
      UntimedStays(w, player, n);
    }
  }

  lemma {:induction false} UntimedStays(w: Weapon, player: Option<Player>, n: nat)
    requires w.whipTimer.None? && w.duration.None? && w.orbit.None?
    ensures TickTimes(w, player, n).whipTimer.None? && TickTimes(w, player, n).duration.None? && TickTimes(w, player, n).orbit.None?
  {
    if n > 0 {
      UntimedStays(w, player, n - 1);
    }
  }

  /**
   * The pierce bookkeeping of a missile that hit an enemy: with a pierce
   * count it loses one and expires at 0 or below; without one it expires.
   */
  function PierceHit(w: Weapon): (r: (Weapon, bool))
  {
    match w.pierceCount
    case Some(c) => (w.(pierceCount := Some(c - 1)), c - 1 <= 0)
    case None => (w, true)
  }

  function HitTimes(w: Weapon, n: nat): Weapon
  {
    if n == 0 then w else PierceHit(HitTimes(w, n - 1)).0
  }

  /** A missile with pierce count `p >= 1` expires exactly on its `p`-th hit. */
  lemma {:induction false} PierceLifetime(w: Weapon, n: nat)
    requires w.pierceCount.Some? && n >= 1
    ensures HitTimes(w, n).pierceCount == Some(w.pierceCount.value - n)
    ensures PierceHit(HitTimes(w, n - 1)).1 <==> n >= w.pierceCount.value
  {
    if n > 1 {
      PierceLifetime(w, n - 1);
    }
  }

  // -----------------------------------------------------------------------
  // Homing missiles: greedy choice of distinct nearest targets
  // -----------------------------------------------------------------------

  /**
   * `min(available, key=squared distance)`: the first of the enemies whose
   * id is not yet used that is nearest to `p`, or None when every id is used.
   */
  function Nearest(p: Pos, es: seq<Enemy>, used: set<int>): (r: Option<nat>)
    ensures r.None? <==> forall j :: 0 <= j < |es| ==> es[j].id in used
    ensures r.Some? ==> r.value < |es| && es[r.value].id !in used
    ensures r.Some? ==> forall j :: 0 <= j < |es| && es[j].id !in used ==>
      SquaredDistance(p, es[r.value].pos) <= SquaredDistance(p, es[j].pos)
    ensures r.Some? ==> forall j :: 0 <= j < r.value && es[j].id !in used ==>
      SquaredDistance(p, es[r.value].pos) < SquaredDistance(p, es[j].pos)
    decreases |es|
  {
    if es == [] then None
    else
      var rest := Nearest(p, es[1..], used);
      if es[0].id in used then
        if rest.Some? then Some(rest.value + 1) else None
      else if rest.Some? && SquaredDistance(p, es[rest.value + 1].pos) < SquaredDistance(p, es[0].pos) then
        Some(rest.value + 1)
      else Some(0)
  }

  // -----------------------------------------------------------------------
  // The records the spawn routines create
  // -----------------------------------------------------------------------

  /** A weapon record with only the attributes every spawn routine sets. */
  function Plain(id: int, name: string, level: int, damage: int, pos: Pos, angle: int): Weapon
  {
    Weapon(id, name, level, damage, pos, angle, None, None, None, None, None, false, None, None, map[])
  }

  /** `damage if damage > 0 else 1`. */
  function AtLeastOne(d: int): (r: int)
    ensures r >= 1 && (d >= 1 ==> r == d)
  {
    if d <= 0 then 1 else d
  }

  /**
   * spawn_weapon's spawn point, `int()` of the point 50 pixels from `at`
   * along the angle, for the angles 0 and 180 that the Whip's slashes use.
   * At 180 degrees `50 * sin(pi)` is about 6e-15 rather than 0: added to a
   * `y` in [-64, -1] it lifts the float sum just above `y`, and `int()`,
   * truncating toward zero, gives `y + 1`; every other `y` stays as it is.
   */
  function SlashPoint(at: Pos, angle: int): (r: Pos)
    ensures r.x == at.x + (if angle == 0 then 50 else -50)
    ensures at.y >= 0 || angle == 0 ==> r.y == at.y
    ensures at.y < -64 ==> r.y == at.y
    ensures -64 <= at.y < 0 && angle != 0 ==> r.y == at.y + 1
  {
    if angle == 0 then Pos(at.x + 50, at.y)
    else Pos(at.x - 50, if -64 <= at.y < 0 then at.y + 1 else at.y)
  }

  /**
   * spawn_weapon: the catalog's damage and shape, at the spawn point 50
   * pixels along the angle; nothing for an unknown name or a level of 0 or less.
   */
  function CatalogShot(id: int, name: string, level: int, at: Pos, angle: int): (r: Option<Weapon>)
    ensures r.Some? <==> Find(name).Some? && level > 0
    ensures r.Some? ==> r.value.id == id && r.value.name == name && r.value.level == level && r.value.angle == angle
    ensures r.Some? ==> r.value.damage == CatalogDamage(Find(name).value, level) && r.value.damage >= 1
    ensures r.Some? ==> r.value.pos == SlashPoint(at, angle) && r.value.shape == Some(ShapeOf(Find(name).value))
    ensures r.Some? ==> r.value.whipTimer.None? && r.value.duration.None? && r.value.orbit.None?
  {
    match Find(name)
    case None => None
    case Some(w) =>
      if level <= 0 then None
      else Some(Plain(id, name, level, CatalogDamage(w, level), SlashPoint(at, angle), angle).(shape := Some(ShapeOf(w))))
  }

  /**
   * The Whip's slashes of one firing flank the player: even shots land 50
   * pixels to its right, odd ones 50 to its left, level with it, so two
   * consecutive shots are 100 pixels apart and centred on the player.
   */
  lemma SlashesFlank(id: int, name: string, level: int, at: Pos, i: nat)
    requires Find(name).Some? && level > 0 && at.y >= 0
    ensures CatalogShot(id, name, level, at, WhipAngle(i)).value.pos == Pos(at.x + (if i % 2 == 0 then 50 else -50), at.y)
    ensures CatalogShot(id, name, level, at, WhipAngle(2 * i)).value.pos.x - CatalogShot(id, name, level, at, WhipAngle(2 * i + 1)).value.pos.x == 100
  {
    assert WhipAngle(2 * i) == 0 && WhipAngle(2 * i + 1) == 180;
  }

  /** spawn_homing_missile, one missile: damage `8 + 2 (level - 1)` without a floor, and a pierce count. */
  function HomingShot(id: int, w: WeaponType, level: int, at: Pos, angle: int): Weapon
  {
    Plain(id, w.name, level, 8 + 2 * (level - 1), at, angle).(pierceCount := Some(HomingPierceCount(w, level)))
  }

  /** spawn_straight_shot: one knife at angle 0 living 60 frames. */
  function StraightShot(id: int, name: string, level: int, at: Pos): (r: Option<Weapon>)
    ensures r.Some? <==> level > 0
    ensures r.Some? ==> r.value.angle == 0 && r.value.duration == Some(60) && r.value.damage == 7 + 2 * (level - 1)
  {
    if level <= 0 then None
    else
      var shape := match Find(name) case Some(w) => ShapeOf(w) case None => "circle";
      Some(Plain(id, name, level, AtLeastOne(7 + 2 * (level - 1)), at, 0).(duration := Some(60), shape := Some(shape)))
  }

  /** spawn_arc_throw: shot `i` of `count`, spread by ArcAngle. */
  function ArcShot(id: int, name: string, level: int, at: Pos, i: int, count: int): (r: Option<Weapon>)
    ensures r.Some? <==> level > 0
    ensures r.Some? ==> r.value.angle == ArcAngle(i, count) && r.value.damage == 12 + 3 * (level - 1)
  {
    if level <= 0 then None
    else Some(Plain(id, name, level, AtLeastOne(12 + 3 * (level - 1)), at, ArcAngle(i, count)))
  }

  /** spawn_boomerang: no level check and no damage floor; turns after 30 frames, lives 90. */
  function BoomerangShot(id: int, name: string, level: int, at: Pos): Weapon
  {
    Plain(id, name, level, 10 + 2 * (level - 1), at, 0).(boomerangTimer := Some(30), duration := Some(90))
  }

  /** spawn_orbiting_book: book `i` of the level's amount, 180 frames, bound to the player. */
  function OrbitBook(id: int, name: string, level: int, at: Pos, i: int, playerId: int): (r: Option<Weapon>)
    ensures r.Some? <==> level > 0
    ensures r.Some? ==> r.value.damage == KingBibleDamage(level) && r.value.duration == Some(180)
    ensures r.Some? ==> r.value.orbit.Some? && r.value.orbit.value.targetPlayerId == playerId
  {
    if level <= 0 then None
    else
      var angle := OrbitAngle(i, BibleAmount(level));
      var shape := match Find(name) case Some(w) => ShapeOf(w) case None => "circle";
      Some(Plain(id, name, level, KingBibleDamage(level), at, angle).(
        orbit := Some(Entities.Orbit(OrbitRadius(level), angle, playerId)), duration := Some(180), shape := Some(shape)))
  }

  /** spawn_fan_shot: shot `i` of `count`, spread by FanAngle, 60 frames. */
  function FanShot(id: int, name: string, level: int, at: Pos, i: int, count: int): (r: Option<Weapon>)
    ensures r.Some? <==> level > 0
    ensures r.Some? ==> r.value.angle == FanAngle(i, count) && r.value.damage == 15 + 3 * (level - 1)
  {
    if level <= 0 then None
    else Some(Plain(id, name, level, AtLeastOne(15 + 3 * (level - 1)), at, FanAngle(i, count)).(duration := Some(60)))
  }

  /** spawn_aura: a garlic aura of radius `60 + 10 (level - 1)`, 60 frames. */
  function AuraShot(id: int, name: string, level: int, at: Pos): (r: Option<Weapon>)
    ensures r.Some? <==> level > 0
    ensures r.Some? ==> r.value.auraRadius == Some(60 + 10 * (level - 1)) && r.value.damage == 5 + 2 * (level - 1)
  {
    if level <= 0 then None
    else Some(Plain(id, name, level, AtLeastOne(5 + 2 * (level - 1)), at, 0).(auraRadius := Some(60 + 10 * (level - 1)), duration := Some(60)))
  }

  /** spawn_whip: a slash that lasts 5 frames. */
  function WhipShot(id: int, name: string, level: int, at: Pos): (r: Option<Weapon>)
    ensures r.Some? <==> level > 0
    ensures r.Some? ==> r.value.whipTimer == Some(5) && r.value.damage == 10 + 3 * (level - 1)
  {
    if level <= 0 then None
    else Some(Plain(id, name, level, AtLeastOne(10 + 3 * (level - 1)), at, 0).(whipTimer := Some(5)))
  }
}
