/**
 * The weapon catalog of survivor/games/survivor.py: the eight weapon types
 * with their base numbers and per-level upgrade tables, the King Bible
 * level table, and the arithmetic the game derives from them (damage,
 * projectile count, amount, pierce and cooldown at a level, and the
 * launch angles of the spread weapons).
 */
module Catalog {
  import opened Wrappers

  /** The "behavior" field: which spawn routine a weapon uses when it fires. */
  datatype Behavior = HorizontalSlash | HomingMissile | StraightShot | ArcThrow | Boomerang | Orbit | FanShot | Aura

  /** The integer statistics an upgrade entry can raise or lower. */
  datatype Stat = Damage | Count | Amount | Pierce | Cooldown

  /**
   * One entry of an upgrade table: a single key with its delta. The
   * fractional "area" and "speed" entries are kept but never summed by the
   * game's arithmetic.
   */
  datatype Bonus = Gain(stat: Stat, delta: int) | AreaGain(area: real) | SpeedGain(speed: real)

  datatype WeaponType = WeaponType(
    name: string,
    maxLevel: int,
    baseDamage: int,
    amount: int,
    pierce: int,
    cooldown: int,
    size: int,
    shape: Option<string>,
    behavior: Behavior,
    upgrades: seq<Bonus>)

  const Whip := WeaponType("Whip", 8, 10, 1, 1, 90, 12, Some("rectangle"), HorizontalSlash,
    [Gain(Damage, 5), Gain(Count, 1), AreaGain(0.25), Gain(Damage, 5),
     Gain(Count, 1), AreaGain(0.25), Gain(Cooldown, -10), Gain(Damage, 10)])
  const MagicWand := WeaponType("MagicWand", 8, 10, 1, 0, 72, 10, Some("triangle"), HomingMissile,
    [Gain(Amount, 1), Gain(Cooldown, -12), Gain(Amount, 1), Gain(Damage, 10),
     Gain(Amount, 1), Gain(Pierce, 1), Gain(Damage, 10)])
  const Knife := WeaponType("Knife", 8, 7, 1, 1, 30, 8, Some("triangle"), StraightShot,
    [Gain(Damage, 2), Gain(Count, 1), Gain(Cooldown, -4), Gain(Damage, 2),
     Gain(Count, 1), Gain(Cooldown, -4), Gain(Damage, 3), Gain(Count, 1)])
  const Axe := WeaponType("Axe", 8, 12, 1, 1, 70, 14, Some("cross"), ArcThrow,
    [Gain(Damage, 4), Gain(Count, 1), AreaGain(0.2), Gain(Damage, 4),
     Gain(Count, 1), AreaGain(0.2), Gain(Cooldown, -8), Gain(Damage, 8)])
  const CrossType := WeaponType("Cross", 8, 10, 1, 1, 80, 14, Some("cross"), Boomerang,
    [Gain(Damage, 3), Gain(Count, 1), AreaGain(0.2), Gain(Damage, 3),
     Gain(Count, 1), AreaGain(0.2), Gain(Cooldown, -8), Gain(Damage, 6)])
  const KingBible := WeaponType("KingBible", 8, 8, 1, 1, 180, 14, Some("rectangle"), Orbit,
    [Gain(Damage, 2), Gain(Count, 1), SpeedGain(0.2), AreaGain(0.2),
     Gain(Damage, 2), Gain(Count, 1), Gain(Cooldown, -10), Gain(Damage, 6)])
  const FireWand := WeaponType("FireWand", 8, 15, 1, 1, 100, 14, None, FanShot,
    [Gain(Damage, 5), Gain(Count, 1), AreaGain(0.2), Gain(Damage, 5),
     Gain(Count, 1), AreaGain(0.2), Gain(Cooldown, -10), Gain(Damage, 10)])
  const Garlic := WeaponType("Garlic", 8, 5, 1, 1, 30, 16, None, Aura,
    [Gain(Damage, 2), AreaGain(0.2), Gain(Damage, 2), AreaGain(0.2),
     Gain(Damage, 2), AreaGain(0.2), Gain(Cooldown, -5), Gain(Damage, 4)])

  /** WEAPON_TYPES, in catalog order. */
  const WeaponTypes: seq<WeaponType> := [Whip, MagicWand, Knife, Axe, CrossType, KingBible, FireWand, Garlic]

  /** The names of the catalog, in order. */
  const WeaponNames: seq<string> := ["Whip", "MagicWand", "Knife", "Axe", "Cross", "KingBible", "FireWand", "Garlic"]

  lemma WeaponNamesAgree()
    ensures |WeaponNames| == |WeaponTypes|
    ensures forall i :: 0 <= i < |WeaponTypes| ==> WeaponTypes[i].name == WeaponNames[i]
  {
  }

  /** `next(w for w in WEAPON_TYPES if w["name"] == name)`, or None. */
  function Find(name: string): (r: Option<WeaponType>)
    ensures r.Some? ==> r.value in WeaponTypes && r.value.name == name
    ensures r.None? <==> name !in WeaponNames
  {
    WeaponNamesAgree();
    FindIn(WeaponTypes, name)
  }

  function FindIn(ws: seq<WeaponType>, name: string): (r: Option<WeaponType>)
    ensures r.Some? ==> r.value in ws && r.value.name == name
    ensures r.None? <==> forall i :: 0 <= i < |ws| ==> ws[i].name != name
    ensures forall i :: 0 <= i < |ws| && ws[i].name == name && (forall j :: 0 <= j < i ==> ws[j].name != name) ==> r == Some(ws[i])
  {
    if ws == [] then None
    else if ws[0].name == name then Some(ws[0])
    else
      var r := FindIn(ws[1..], name);
      assert forall i :: 0 < i < |ws| ==> ws[i] == ws[1..][i - 1];
      r
  }

  /** `w.get("shape", "circle")`. */
  function ShapeOf(w: WeaponType): (s: string)
    ensures w.shape.Some? ==> s == w.shape.value
    ensures w.shape.None? ==> s == "circle"
  {
    if w.shape.Some? then w.shape.value else "circle"
  }

  /** `u.get(stat, 0)` for one upgrade entry. */
  function DeltaOf(b: Bonus, s: Stat): int
  {
    if b.Gain? && b.stat == s then b.delta else 0
  }

  /** `sum(u.get(stat, 0) for u in t[:k])`. */
  function SumFirst(t: seq<Bonus>, k: nat, s: Stat): int
    requires k <= |t|
  {
    if k == 0 then 0 else SumFirst(t, k - 1, s) + DeltaOf(t[k - 1], s)
  }

  /** The statistic raises or keeps its value at every entry of the table. */
  predicate Raises(t: seq<Bonus>, s: Stat)
  {
    forall i :: 0 <= i < |t| ==> DeltaOf(t[i], s) >= 0
  }

  /** The statistic lowers or keeps its value at every entry of the table. */
  predicate Lowers(t: seq<Bonus>, s: Stat)
  {
    forall i :: 0 <= i < |t| ==> DeltaOf(t[i], s) <= 0
  }

  /** Where a statistic only rises, its prefix sums are non-negative and grow with the prefix. */
  lemma {:induction false} SumFirstGrows(t: seq<Bonus>, s: Stat, k: nat, m: nat)
    requires Raises(t, s) && k <= m <= |t|
    ensures 0 <= SumFirst(t, k, s) <= SumFirst(t, m, s)
    decreases m
  {
    if k < m {
      SumFirstGrows(t, s, k, m - 1);
    } else if k > 0 {
      SumFirstGrows(t, s, k - 1, k - 1);
    }
  }

  /** Where a statistic only falls, its prefix sums are non-positive and shrink with the prefix. */
  lemma {:induction false} SumFirstShrinks(t: seq<Bonus>, s: Stat, k: nat, m: nat)
    requires Lowers(t, s) && k <= m <= |t|
    ensures SumFirst(t, m, s) <= SumFirst(t, k, s) <= 0
    decreases m
  {
    if k < m {
      SumFirstShrinks(t, s, k, m - 1);
    } else if k > 0 {
      SumFirstShrinks(t, s, k - 1, k - 1);
    }
  }

  /** `max(0, level - 1)`: how many table entries a weapon of this level has taken. */
  function Taken(level: int): nat
  {
    if level <= 1 then 0 else level - 1
  }

  /**
   * The sum of one statistic's deltas over `upgrade_table[:level-1]`;
   * Python's slice stops at the end of the table.
   */
  function Gained(w: WeaponType, level: int, s: Stat): int
  {
    SumFirst(w.upgrades, if Taken(level) < |w.upgrades| then Taken(level) else |w.upgrades|, s)
  }

  /**
   * spawn_weapon's damage: base damage plus the damage deltas of the
   * entries taken, floored to 1.
   */
  function CatalogDamage(w: WeaponType, level: int): (d: int)
    ensures d >= 1
    ensures w.baseDamage + Gained(w, level, Damage) >= 1 ==> d == w.baseDamage + Gained(w, level, Damage)
    ensures w.baseDamage + Gained(w, level, Damage) <= 0 ==> d == 1
  {
    var d := w.baseDamage + Gained(w, level, Damage);
    if d <= 0 then 1 else d
  }

  /** `1 + sum(count deltas of upgrade_table[:level-1])`: shots per firing. */
  function ShotCount(w: WeaponType, level: int): int
  {
    1 + Gained(w, level, Count)
  }

  /** spawn_homing_missile's `amount`, floored to 1. */
  function HomingAmount(w: WeaponType, level: int): (a: int)
    ensures a >= 1
    ensures w.amount + Gained(w, level, Amount) >= 1 ==> a == w.amount + Gained(w, level, Amount)
  {
    var a := w.amount + Gained(w, level, Amount);
    if a < 1 then 1 else a
  }

  /** spawn_homing_missile's `pierce_count`: the pierce statistic plus one. */
  function HomingPierceCount(w: WeaponType, level: int): int
  {
    w.pierce + Gained(w, level, Pierce) + 1
  }

  /** The cooldown a weapon re-arms to after firing, never below 5 frames. */
  function RearmCooldown(w: WeaponType, level: int): (c: int)
    ensures c >= 5
    ensures w.cooldown + Gained(w, level, Cooldown) >= 5 ==> c == w.cooldown + Gained(w, level, Cooldown)
  {
    var c := w.cooldown + Gained(w, level, Cooldown);
    if c < 5 then 5 else c
  }

  /** Damage, count, amount and pierce only grow along a table; the cooldown only shrinks. */
  predicate Signed(w: WeaponType)
  {
    Raises(w.upgrades, Damage) && Raises(w.upgrades, Count) && Raises(w.upgrades, Amount)
    && Raises(w.upgrades, Pierce) && Lowers(w.upgrades, Cooldown)
  }

  /** The cooldown with the whole table taken is at least 22 frames. */
  predicate SlowEnough(w: WeaponType)
  {
    w.cooldown + SumFirst(w.upgrades, |w.upgrades|, Cooldown) >= 22
  }

  lemma WhipFacts() ensures Signed(Whip) && SlowEnough(Whip) {}
  lemma MagicWandFacts() ensures Signed(MagicWand) && SlowEnough(MagicWand)
  {
    var t := MagicWand.upgrades;
    assert SumFirst(t, 2, Cooldown) == -12;
    assert SumFirst(t, 7, Cooldown) == -12;
  }
  lemma KnifeFacts() ensures Signed(Knife) && SlowEnough(Knife) {}
  lemma AxeFacts() ensures Signed(Axe) && SlowEnough(Axe) {}
  lemma CrossFacts() ensures Signed(CrossType) && SlowEnough(CrossType) {}
  lemma KingBibleFacts() ensures Signed(KingBible) && SlowEnough(KingBible) {}
  lemma FireWandFacts() ensures Signed(FireWand) && SlowEnough(FireWand) {}
  lemma GarlicFacts() ensures Signed(Garlic) && SlowEnough(Garlic) {}

  lemma CatalogFacts(w: WeaponType)
    requires w in WeaponTypes
    ensures Signed(w) && SlowEnough(w)
  {
    WhipFacts(); MagicWandFacts(); KnifeFacts(); AxeFacts();
    CrossFacts(); KingBibleFacts(); FireWandFacts(); GarlicFacts();
  }

  /**
   * The floor of 5 frames in the re-arm never binds for the catalog: the
   * shortest cooldown any catalog weapon reaches is 22 frames (the Knife
   * from level 6 on), and no level waits longer than the base cooldown.
   */
  lemma RearmNeverClamped(w: WeaponType, level: int)
    requires w in WeaponTypes
    ensures RearmCooldown(w, level) == w.cooldown + Gained(w, level, Cooldown)
    ensures 22 <= RearmCooldown(w, level) <= w.cooldown
  {
    CatalogFacts(w);
    var k := if Taken(level) < |w.upgrades| then Taken(level) else |w.upgrades|;
    SumFirstShrinks(w.upgrades, Cooldown, k, |w.upgrades|);
  }

  /**
   * The floor of 1 in spawn_weapon never binds for the catalog, and a
   * higher level never deals less damage.
   */
  lemma CatalogDamageGrows(w: WeaponType, level: int, higher: int)
    requires w in WeaponTypes && level <= higher
    ensures CatalogDamage(w, level) == w.baseDamage + Gained(w, level, Damage)
    ensures w.baseDamage <= CatalogDamage(w, level) <= CatalogDamage(w, higher)
  {
    CatalogFacts(w);
    var n := |w.upgrades|;
    SumFirstGrows(w.upgrades, Damage, if Taken(level) < n then Taken(level) else n, if Taken(higher) < n then Taken(higher) else n);
  }

  /** More levels never mean fewer shots, and there is always at least one. */
  lemma ShotCountGrows(w: WeaponType, level: int, higher: int)
    requires w in WeaponTypes && level <= higher
    ensures 1 <= ShotCount(w, level) <= ShotCount(w, higher)
  {
    CatalogFacts(w);
    var n := |w.upgrades|;
    SumFirstGrows(w.upgrades, Count, if Taken(level) < n then Taken(level) else n, if Taken(higher) < n then Taken(higher) else n);
  }

  /** Homing missiles pierce at least once more than the base statistic allows, and the amount is never floored. */
  lemma HomingCounts(w: WeaponType, level: int)
    requires w in WeaponTypes
    ensures HomingPierceCount(w, level) >= w.pierce + 1
    ensures HomingAmount(w, level) == w.amount + Gained(w, level, Amount)
  {
    CatalogFacts(w);
    var n := |w.upgrades|;
    var k := if Taken(level) < n then Taken(level) else n;
    SumFirstGrows(w.upgrades, Pierce, k, k);
    SumFirstGrows(w.upgrades, Amount, k, k);
  }

  // -----------------------------------------------------------------------
  // The King Bible
  // -----------------------------------------------------------------------

  /** One row of KING_BIBLE_LEVELS. */
  datatype BibleProps = BibleProps(damage: int, amount: int, area: real, speed: real, duration: real)

  const KingBibleLevels: seq<BibleProps> := [
    BibleProps(10, 1, 1.0, 1.0, 3.0),
    BibleProps(10, 2, 1.0, 1.0, 3.0),
    BibleProps(10, 2, 1.25, 1.3, 3.0),
    BibleProps(20, 2, 1.25, 1.3, 3.0),
    BibleProps(20, 3, 1.25, 1.3, 3.0),
    BibleProps(20, 3, 1.5, 1.6, 3.0),
    BibleProps(30, 3, 1.5, 1.6, 3.0),
    BibleProps(30, 4, 1.5, 1.6, 3.0)
  ]

  /** `KING_BIBLE_LEVELS[min(level, len) - 1]`: levels past the table use its last row. */
  function BibleLevel(level: int): (p: BibleProps)
    requires level >= 1
    ensures p in KingBibleLevels
  {
    KingBibleLevels[(if level < |KingBibleLevels| then level else |KingBibleLevels|) - 1]
  }

  /** get_kingbible_damage. */
  function KingBibleDamage(level: int): int
  {
    if level <= 3 then 10 else if level <= 6 then 20 else 30
  }

  /** get_kingbible_damage agrees with the damage column of the level table at every level. */
  lemma KingBibleDamageAgrees(level: int)
    requires level >= 1
    ensures KingBibleDamage(level) == BibleLevel(level).damage
  {
  }

  /** The orbit radius of the books: 60 times the level's area. */
  function OrbitRadius(level: int): (r: real)
    requires level >= 1
    ensures 60.0 <= r <= 90.0
  {
    60.0 * BibleLevel(level).area
  }

  /** How many books circle the player, between one and four. */
  function BibleAmount(level: int): (a: int)
    requires level >= 1
    ensures 1 <= a <= 4
  {
    var a := BibleLevel(level).amount;
    if a < 1 then 1 else a
  }

  // -----------------------------------------------------------------------
  // Launch angles, in whole degrees
  // -----------------------------------------------------------------------

  function Max1(n: int): int
  {
    if n < 1 then 1 else n
  }

  /** spawn_arc_throw: `count` axes spread evenly over [-60, 60]. */
  function ArcAngle(i: int, count: int): int
  {
    if count > 1 then -60 + (120 / Max1(count - 1)) * i else 0
  }

  /** spawn_fan_shot: `count` shots spread over [-30, 30]. */
  function FanAngle(i: int, count: int): int
  {
    if count > 1 then -30 + (60 / Max1(count - 1)) * i else 0
  }

  /** spawn_orbiting_book: `amount` books spaced evenly around the circle. */
  function OrbitAngle(i: int, amount: int): int
  {
    if amount > 1 then (360 / amount) * i else 0
  }

  /** The whip strikes right on even shots and left on odd ones. */
  function WhipAngle(i: nat): int
  {
    if i % 2 == 0 then 0 else 180
  }

  /** `q * i` stays within `q * n` when `i <= n`, and grows strictly with `i` when `q > 0`. */
  lemma MulBounds(q: int, i: int, j: int, n: int)
    requires 0 <= q && 0 <= i <= j <= n
    ensures 0 <= q * i <= q * j <= q * n
    ensures q > 0 && i < j ==> q * i < q * j
  {
    MulNonNegative(q, i);
    MulNonNegative(q, j - i);
    MulNonNegative(q, n - j);
    assert q * j == q * i + q * (j - i);
    assert q * n == q * j + q * (n - j);
    if q > 0 && i < j {
      MulPositive(q, j - i);
    }
  }

  lemma MulNonNegative(a: int, b: int)
    requires a >= 0 && b >= 0
    ensures a * b >= 0
  {
  }

  lemma MulPositive(a: int, b: int)
    requires a > 0 && b > 0
    ensures a * b > 0
  {
  }

  /**
   * A step of `total / (count - 1)` degrees, taken `i < count` times, stays
   * within `total`, and distinct shots get distinct angles while the step
   * is at least a degree.
   */
  lemma SpreadBounds(total: int, count: int, i: int, j: int)
    requires total > 0 && count > 1 && 0 <= i <= j < count
    ensures 0 <= (total / (count - 1)) * i <= (total / (count - 1)) * j <= total
    ensures count - 1 <= total && i < j ==> (total / (count - 1)) * i < (total / (count - 1)) * j
  {
    var q := total / (count - 1);
    MulBounds(q, i, j, count - 1);
    assert q * (count - 1) <= total;
    if count - 1 <= total {
      assert q >= 1;
    }
  }

  /** Axes leave between -60 and 60 degrees, in order, and evenly apart while there are at most 121. */
  lemma ArcAngleSpread(count: int, i: int, j: int)
    requires 0 <= i <= j < count
    ensures -60 <= ArcAngle(i, count) <= ArcAngle(j, count) <= 60
    ensures 1 < count <= 121 && i < j ==> ArcAngle(i, count) < ArcAngle(j, count)
  {
    if count > 1 {
      SpreadBounds(120, count, i, j);
    }
  }

  /** Fan shots leave between -30 and 30 degrees, in order. */
  lemma FanAngleSpread(count: int, i: int, j: int)
    requires 0 <= i <= j < count
    ensures -30 <= FanAngle(i, count) <= FanAngle(j, count) <= 30
    ensures 1 < count <= 61 && i < j ==> FanAngle(i, count) < FanAngle(j, count)
  {
    if count > 1 {
      SpreadBounds(60, count, i, j);
    }
  }

  /** Books sit at distinct angles in [0, 360) while there are at most 360 of them. */
  lemma OrbitAngleSpread(amount: int, i: int, j: int)
    requires 0 <= i < j < amount <= 360
    ensures 0 <= OrbitAngle(i, amount) < OrbitAngle(j, amount) < 360
  {
    var q := 360 / amount;
    MulBounds(q, i, j, amount - 1);
    assert q * (amount - 1) < q * amount <= 360;
  }
}
