/**
 * The particles of survivor/games/survivor.py as typed records, the game's
 * constants, and its geometric predicates: `is_point_in_rect`,
 * `check_collision` and `format_time`.
 *
 * The source keeps every entity in one list of particles whose attributes
 * are dictionaries; here each kind of entity is a record with the
 * attributes the rules read and write. Positions are whole numbers.
 */
module Entities {
  import opened Wrappers
  import opened Health
  import Text

  const SpatialResolution := 1024
  const ScreenWidth := 1024
  /** `1024 // 16 * 9`. */
  const ScreenHeight := 576

  /** `int(30 * 0.4 * 1.5)`, `int(25 * 0.4)`, `int(40 * 0.4)`, `int(15 * 0.4)`, `int(10 * 0.4)`. */
  const PlayerSize := 18
  const EnemySize := 10
  const EliteSize := 16
  const WeaponSize := 6
  const XpSize := 4

  const MaxEnemies := 60
  const MinEnemiesPerWave := 30
  /** One wave a minute at 60 frames a second. */
  const WaveInterval := 3600
  const DamageTextDuration := 60
  /** Frames of the shrink-and-flash animation of a dying enemy. */
  const DeathAnimFrames := 30
  /** Frames a King Bible book ignores an enemy it has just hit. */
  const BibleHitCooldown := 30
  const XpPerOrb := 10

  datatype Pos = Pos(x: int, y: int)

  /**
   * The player. `weapons` is the ordered dictionary from weapon name to
   * level; `cooldowns` holds the `<name>_cooldown` attributes, which
   * become fractional once an attack-speed upgrade scales them.
   */
  datatype Player = Player(
    id: int,
    pos: Pos,
    health: Option<HealthState>,
    weapons: seq<(string, int)>,
    cooldowns: map<string, real>)

  /** A regular enemy or, with `elite` set, an elite one. */
  datatype Enemy = Enemy(
    id: int,
    elite: bool,
    pos: Pos,
    health: Option<HealthState>,
    damage: int,
    xpValue: int,
    wave: int,
    speed: int,
    blinkTimer: int,
    dying: bool,
    deathTimer: int)

  /** The orbit of a King Bible book around its player. */
  datatype Orbit = Orbit(radius: real, angle: int, targetPlayerId: int)

  /**
   * A weapon projectile. The optional timers are the attributes only some
   * archetypes carry; `reversed` records that a boomerang's velocity has
   * been negated; `hitCooldown` maps enemy ids to the frames a book still
   * ignores them.
   */
  datatype Weapon = Weapon(
    id: int,
    name: string,
    level: int,
    damage: int,
    pos: Pos,
    angle: int,
    shape: Option<string>,
    pierceCount: Option<int>,
    whipTimer: Option<int>,
    duration: Option<int>,
    boomerangTimer: Option<int>,
    reversed: bool,
    auraRadius: Option<int>,
    orbit: Option<Orbit>,
    hitCooldown: map<int, int>)

  datatype XpOrb = XpOrb(id: int, pos: Pos)

  datatype DamageText = DamageText(id: int, pos: Pos, text: string, timer: int)

  /** `max(lo, min(hi, v))`. */
  function Clamp(v: int, lo: int, hi: int): (r: int)
    requires lo <= hi
    ensures lo <= r <= hi
    ensures lo <= v <= hi ==> r == v
  {
    if v < lo then lo else if v > hi then hi else v
  }

  // -----------------------------------------------------------------------
  // Player movement
  // -----------------------------------------------------------------------

  /** The four movement flags step reads from `actions`: left, right, up, down. */
  datatype Held = Held(left: bool, right: bool, up: bool, down: bool)

  const PlayerSpeed := 5
  /** The factor a diagonal move scales both steps by. */
  const Diagonal: real := 0.7071
  /** The player's centre stays `PLAYER_SIZE // 2` away from the field's edges. */
  const MoveLo := PlayerSize / 2
  const MoveHi := SpatialResolution - PlayerSize / 2

  /** The step along one axis: minus the speed for the first key, plus it for the second. */
  function Delta(minus: bool, plus: bool): int
  {
    (if minus then -PlayerSpeed else 0) + (if plus then PlayerSpeed else 0)
  }

  /** `int(max(9, min(1015, c + dc)))`: the new coordinate, truncated to a whole number. */
  function MoveCoord(c: int, dc: real): (r: int)
    ensures MoveLo <= r <= MoveHi
    ensures MoveLo as real <= c as real + dc <= MoveHi as real ==> r as real <= c as real + dc < r as real + 1.0
  {
    var v := c as real + dc;
    Truncate(if v < MoveLo as real then MoveLo as real else if v > MoveHi as real then MoveHi as real else v)
  }

  /** The player's position after a frame with the given keys held. */
  function Moved(p: Pos, keys: Held): (r: Pos)
    ensures MoveLo <= r.x <= MoveHi && MoveLo <= r.y <= MoveHi
  {
    var dx, dy := Delta(keys.left, keys.right), Delta(keys.up, keys.down);
    var f := if dx != 0 && dy != 0 then Diagonal else 1.0;
    Pos(MoveCoord(p.x, dx as real * f), MoveCoord(p.y, dy as real * f))
  }

  /**
   * Along one axis only, the player moves by the full speed, or by nothing
   * when both keys of the axis or neither are held, and is stopped at the edges.
   */
  lemma StraightMove(p: Pos, keys: Held)
    requires keys.up == keys.down
    ensures Moved(p, keys).x == Clamp(p.x + Delta(keys.left, keys.right), MoveLo, MoveHi)
    ensures Moved(p, keys).y == Clamp(p.y, MoveLo, MoveHi)
  {
    var dx := Delta(keys.left, keys.right);
    assert dx as real * 1.0 == dx as real;
    assert (p.x + dx) as real == p.x as real + dx as real;
  }

  /**
   * A diagonal move away from the edges goes 3 to the right or down but 4
   * to the left or up: `int()` truncates the 3.5355-pixel step toward zero.
   */
  lemma DiagonalMove(p: Pos, keys: Held)
    requires keys.left != keys.right && keys.up != keys.down
    requires MoveLo + 4 <= p.x <= MoveHi - 4 && MoveLo + 4 <= p.y <= MoveHi - 4
    ensures Moved(p, keys).x == p.x + (if keys.right then 3 else -4)
    ensures Moved(p, keys).y == p.y + (if keys.down then 3 else -4)
  {
    var dx, dy := Delta(keys.left, keys.right), Delta(keys.up, keys.down);
    assert dx as real * Diagonal == (if keys.right then 3.5355 else -3.5355);
    assert dy as real * Diagonal == (if keys.down then 3.5355 else -3.5355);
  }

  // -----------------------------------------------------------------------
  // Rectangles
  // -----------------------------------------------------------------------

  /** is_point_in_rect: the rectangle includes its edges. */
  predicate IsPointInRect(x: int, y: int, rx: int, ry: int, w: int, h: int)
  {
    rx <= x <= rx + w && ry <= y <= ry + h
  }

  const DebugButtonWidth := 40
  const DebugButtonHeight := 30
  const DebugButtonSpacing := 5
  const DebugToolbarHeight := 50

  /** The left edge of weapon `i`'s "-" button in the debug toolbar. */
  function MinusButtonX(i: int): int
  {
    200 + i * (DebugButtonWidth * 2 + DebugButtonSpacing)
  }

  /** The left edge of weapon `i`'s "+" button, two pixels after the "-" one. */
  function PlusButtonX(i: int): int
  {
    MinusButtonX(i) + DebugButtonWidth + 2
  }

  /** The top edge of every debug button. */
  const DebugButtonY := ScreenHeight - DebugToolbarHeight + 20

  predicate OnMinus(x: int, y: int, i: int)
  {
    IsPointInRect(x, y, MinusButtonX(i), DebugButtonY, DebugButtonWidth, DebugButtonHeight)
  }

  predicate OnPlus(x: int, y: int, i: int)
  {
    IsPointInRect(x, y, PlusButtonX(i), DebugButtonY, DebugButtonWidth, DebugButtonHeight)
  }

  /**
   * The sixteen debug buttons do not overlap: a click lands on at most one
   * of them, so one click changes at most one weapon by one level.
   */
  lemma DebugButtonsApart(x: int, y: int, i: int, j: int)
    requires 0 <= i && 0 <= j
    ensures OnMinus(x, y, i) && OnPlus(x, y, j) ==> false
    ensures OnMinus(x, y, i) && OnMinus(x, y, j) ==> i == j
    ensures OnPlus(x, y, i) && OnPlus(x, y, j) ==> i == j
  {
  }

  // -----------------------------------------------------------------------
  // Collisions
  // -----------------------------------------------------------------------

  /** What check_collision reads of a particle. */
  datatype Body = Body(isWeapon: bool, weaponName: string, pos: Pos, dying: bool, auraRadius: Option<int>)

  function PlayerBody(p: Player): Body
  {
    Body(false, "", p.pos, false, None)
  }

  function EnemyBody(e: Enemy): Body
  {
    Body(false, "", e.pos, e.dying, None)
  }

  function WeaponBody(w: Weapon): Body
  {
    Body(true, w.name, w.pos, false, w.auraRadius)
  }

  function OrbBody(o: XpOrb): Body
  {
    Body(false, "", o.pos, false, None)
  }

  predicate OnField(p: Pos)
  {
    0 <= p.x <= SpatialResolution && 0 <= p.y <= SpatialResolution
  }

  /** The first particle's reach: a King Bible's size is tripled, a Garlic aura uses its radius. */
  function Reach(a: Body, size1: int): int
  {
    var s := if a.isWeapon && a.weaponName == "KingBible" then size1 * 3 else size1;
    if a.isWeapon && a.weaponName == "Garlic" && a.auraRadius.Some? then a.auraRadius.value else s
  }

  function SquaredDistance(a: Pos, b: Pos): (d: int)
    ensures d >= 0
  {
    (a.x - b.x) * (a.x - b.x) + (a.y - b.y) * (a.y - b.y)
  }

  /**
   * check_collision: never for a dying particle or one off the field;
   * otherwise the distance is strictly below the mean of the two sizes.
   * With `D` the squared distance and `s` the sum of the sizes,
   * `sqrt(D) < s / 2` holds exactly when `s > 0` and `4 * D < s * s`.
   */
  predicate CheckCollision(a: Body, b: Body, size1: int, size2: int)
  {
    !a.dying && !b.dying && OnField(a.pos) && OnField(b.pos)
    && var s := Reach(a, size1) + size2;
    s > 0 && 4 * SquaredDistance(a.pos, b.pos) < s * s
  }

  /**
   * The integer test is the source's: with `dist` the distance between the
   * two centres, the particles collide exactly when neither is dying, both
   * are on the field, and `dist < (reach + size2) / 2`.
   */
  lemma CollisionIsDistance(a: Body, b: Body, size1: int, size2: int, dist: real)
    requires 0.0 <= dist && dist * dist == SquaredDistance(a.pos, b.pos) as real
    ensures CheckCollision(a, b, size1, size2) <==>
      !a.dying && !b.dying && OnField(a.pos) && OnField(b.pos)
      && dist < (Reach(a, size1) + size2) as real / 2.0
  {
    var s := Reach(a, size1) + size2;
    var h := s as real / 2.0;
    assert (4 * SquaredDistance(a.pos, b.pos)) as real == 4.0 * (dist * dist);
    assert (s * s) as real == 4.0 * (h * h);
    if s > 0 {
      if dist < h {
        assert dist * dist <= dist * h < h * h;
      } else {
        assert dist * dist >= h * dist >= h * h;
      }
    }
  }

  /** For two particles neither of which is a book or an aura, the test is symmetric. */
  lemma CollisionSymmetric(a: Body, b: Body, size1: int, size2: int)
    requires Reach(a, size1) == size1 && Reach(b, size2) == size2
    ensures CheckCollision(a, b, size1, size2) == CheckCollision(b, a, size2, size1)
  {
    assert SquaredDistance(a.pos, b.pos) == SquaredDistance(b.pos, a.pos);
  }

  /** A larger second size never loses a collision. */
  lemma CollisionGrows(a: Body, b: Body, size1: int, size2: int, larger: int)
    requires size2 <= larger && CheckCollision(a, b, size1, size2)
    ensures CheckCollision(a, b, size1, larger)
  {
    var s, t := Reach(a, size1) + size2, Reach(a, size1) + larger;
    assert 0 < s <= t;
    assert s * s <= t * t by {
      assert t * t - s * s == (t - s) * (t + s);
    }
  }

  /** Two particles at the same point on the field collide unless one is dying or the sizes cancel. */
  lemma SamePointCollides(a: Body, b: Body, size1: int, size2: int)
    requires a.pos == b.pos && OnField(a.pos) && !a.dying && !b.dying
    ensures CheckCollision(a, b, size1, size2) <==> Reach(a, size1) + size2 > 0
  {
  }

  // -----------------------------------------------------------------------
  // Time
  // -----------------------------------------------------------------------

  /** `f"{n:02d}"` for a non-negative number: at least two digits. */
  function Pad2(n: nat): (s: string)
    ensures |s| >= 2 && Text.AllDigits(s)
    ensures Text.DigitsValue(s) == n
    ensures n < 100 ==> |s| == 2
  {
    Text.NatTextValue(n);
    if n < 10 then
      var s := "0" + Text.NatText(n);
      assert s[..|s| - 1] == "0";
      s
    else
      assert Text.NatText(n) == Text.NatText(n / 10) + [Text.DigitChar(n % 10)];
      Text.NatText(n)
  }

  /** format_time: whole minutes and seconds of a frame count at 60 frames a second. */
  function FormatTime(frames: nat): (s: string)
    ensures |s| >= 5 && s[|s| - 3] == ':'
  {
    var totalSeconds := frames / 60;
    Pad2(totalSeconds / 60) + ":" + Pad2(totalSeconds % 60)
  }

  /** Reading the minutes and seconds back recovers the whole seconds elapsed; the seconds field is below 60. */
  lemma FormatTimeReads(frames: nat)
    ensures var s := FormatTime(frames);
      Text.AllDigits(s[..|s| - 3]) && Text.AllDigits(s[|s| - 2..])
      && Text.DigitsValue(s[|s| - 2..]) < 60
      && Text.DigitsValue(s[..|s| - 3]) * 60 + Text.DigitsValue(s[|s| - 2..]) == frames / 60
  {
    var t := frames / 60;
    var m, sec := Pad2(t / 60), Pad2(t % 60);
    var s := FormatTime(frames);
    assert s == m + ":" + sec;
    assert s[..|s| - 3] == m;
    assert s[|s| - 2..] == sec;
  }
}
