/**
 * The health component (survivor/health_system.py): base, maximum and
 * current hit points plus an alive flag, and the four operations that
 * change them.
 *
 * The functions below state what each operation does to a HealthState
 * value; the class HealthSystem updates its fields in place, as the source
 * does, and each of its methods is proved against the matching function.
 */
module Health {
  import opened Wrappers

  datatype HealthState = HealthState(baseHp: int, maxHp: int, currentHp: int, isAlive: bool)

  /** The default `base_hp` of the constructor. */
  const DefaultBaseHp := 100

  /** The health invariant the component keeps for non-negative amounts. */
  predicate InRange(h: HealthState)
  {
    0 <= h.currentHp <= h.maxHp
  }

  /** Python's int() on a float: truncation toward zero. */
  function Truncate(r: real): (i: int)
    ensures 0.0 <= r ==> 0 <= i && i as real <= r < i as real + 1.0
    ensures r < 0.0 ==> i <= 0 && i as real - 1.0 < r <= i as real
  {
    if 0.0 <= r then r.Floor else -((-r).Floor)
  }

  /** A new component: `max_hp` defaults to `base_hp`, full health, alive. */
  function Fresh(baseHp: int, maxHp: Option<int>): (h: HealthState)
    ensures h.baseHp == baseHp && h.isAlive
    ensures maxHp.Some? ==> h.maxHp == maxHp.value
    ensures maxHp.None? ==> h.maxHp == baseHp
    ensures h.currentHp == h.maxHp
    ensures 0 <= h.maxHp ==> InRange(h)
  {
    var m := if maxHp.Some? then maxHp.value else baseHp;
    HealthState(baseHp, m, m, true)
  }

  /** take_damage: hit points drop by `d` but never below zero; reaching zero kills. */
  function Damaged(h: HealthState, d: int): (r: HealthState)
    ensures r.baseHp == h.baseHp && r.maxHp == h.maxHp
    ensures r.currentHp >= 0
    ensures r.currentHp == 0 <==> h.currentHp <= d
    ensures r.currentHp > 0 ==> r.currentHp == h.currentHp - d
    ensures r.currentHp <= 0 ==> !r.isAlive
    ensures r.currentHp > 0 ==> r.isAlive == h.isAlive
    ensures r.isAlive ==> h.isAlive
    ensures InRange(h) && d >= 0 ==> InRange(r)
  {
    var hp := if h.currentHp - d > 0 then h.currentHp - d else 0;
    h.(currentHp := hp, isAlive := if hp <= 0 then false else h.isAlive)
  }

  /** heal: a dead entity is not healed; a live one gains up to `maxHp`. */
  function Healed(h: HealthState, a: int): (r: HealthState)
    ensures r.baseHp == h.baseHp && r.maxHp == h.maxHp && r.isAlive == h.isAlive
    ensures !h.isAlive ==> r == h
    ensures h.isAlive && h.currentHp + a <= h.maxHp ==> r.currentHp == h.currentHp + a
    ensures h.isAlive && h.currentHp + a > h.maxHp ==> r.currentHp == h.maxHp
    ensures InRange(h) && a >= 0 ==> InRange(r) && h.currentHp <= r.currentHp
  {
    if !h.isAlive then h
    else h.(currentHp := if h.maxHp < h.currentHp + a then h.maxHp else h.currentHp + a)
  }

  /** The value heal returns: the actual increase, zero for a dead entity. */
  function HealAmount(h: HealthState, a: int): (gain: int)
    ensures !h.isAlive ==> gain == 0
    ensures InRange(h) && a >= 0 ==> 0 <= gain <= a
    ensures Healed(h, a).currentHp == h.currentHp + gain
  {
    Healed(h, a).currentHp - h.currentHp
  }

  /** revive: only a dead entity comes back, with `int(max_hp * pct)` hit points. */
  function Revived(h: HealthState, pct: real): (r: HealthState)
    ensures r.baseHp == h.baseHp && r.maxHp == h.maxHp && r.isAlive
    ensures h.isAlive ==> r == h
    ensures !h.isAlive ==> r.currentHp == Truncate(h.maxHp as real * pct)
    ensures InRange(h) && 0.0 <= pct <= 1.0 ==> InRange(r)
  {
    if h.isAlive then h
    else
      var hp := Truncate(h.maxHp as real * pct);
      assert 0 <= h.maxHp && 0.0 <= pct <= 1.0 ==> h.maxHp as real * pct <= h.maxHp as real by {
        if 0 <= h.maxHp && 0.0 <= pct <= 1.0 {
          assert h.maxHp as real * pct <= h.maxHp as real * 1.0;
        }
      }
      h.(currentHp := hp, isAlive := true)
  }

  /** reset: back to full health and alive. */
  function Restored(h: HealthState): (r: HealthState)
    ensures r.baseHp == h.baseHp && r.maxHp == h.maxHp
    ensures r.currentHp == r.maxHp && r.isAlive
    ensures 0 <= h.maxHp ==> InRange(r)
  {
    h.(currentHp := h.maxHp, isAlive := true)
  }

  /** reset is idempotent: a second reset changes nothing. */
  lemma RestoredIdempotent(h: HealthState)
    ensures Restored(Restored(h)) == Restored(h)
  {
  }

  /** get_hp_percentage: current / max, or None where Python divides by zero. */
  function HpFraction(h: HealthState): (p: Option<real>)
    ensures p.None? <==> h.maxHp == 0
    ensures p.Some? ==> p.value * h.maxHp as real == h.currentHp as real
    ensures InRange(h) && h.maxHp > 0 ==> p.Some? && 0.0 <= p.value <= 1.0
  {
    if h.maxHp == 0 then None
    else
      var f := h.currentHp as real / h.maxHp as real;
      assert InRange(h) && h.maxHp > 0 ==> f <= 1.0 by {
        if InRange(h) && h.maxHp > 0 {
          assert h.currentHp as real <= h.maxHp as real;
        }
      }
      Some(f)
  }

  /** A sequence of calls on one component, used to state lifetime properties. */
  datatype Call = TakeDamage(d: int) | Heal(a: int) | Revive(pct: real) | ResetCall

  function Run(h: HealthState, calls: seq<Call>): HealthState
    decreases |calls|
  {
    if calls == [] then h
    else
      var h' := match calls[0]
        case TakeDamage(d) => Damaged(h, d)
        case Heal(a) => Healed(h, a)
        case Revive(pct) => Revived(h, pct)
        case ResetCall => Restored(h);
      Run(h', calls[1..])
  }

  /** No call but revive or reset is a way back to life. */
  predicate NoRevival(calls: seq<Call>)
  {
    forall i :: 0 <= i < |calls| ==> calls[i].TakeDamage? || calls[i].Heal?
  }

  /** Amounts that keep hit points inside [0, maxHp]. */
  predicate Wellformed(calls: seq<Call>)
  {
    forall i :: 0 <= i < |calls| ==>
      match calls[i]
      case TakeDamage(d) => d >= 0
      case Heal(a) => a >= 0
      case Revive(pct) => 0.0 <= pct <= 1.0
      case ResetCall => true
  }

  /** Dead stays dead: damage and healing never bring an entity back. */
  lemma {:induction false} DeadStaysDead(h: HealthState, calls: seq<Call>)
    requires !h.isAlive && NoRevival(calls)
    ensures !Run(h, calls).isAlive
    ensures Run(h, calls).maxHp == h.maxHp
    decreases |calls|
  {
    if calls != [] {
      var h' := if calls[0].TakeDamage? then Damaged(h, calls[0].d) else Healed(h, calls[0].a);
      assert NoRevival(calls[1..]) by {
        forall i | 0 <= i < |calls[1..]| ensures calls[1..][i].TakeDamage? || calls[1..][i].Heal? {
          assert calls[1..][i] == calls[i + 1];
        }
      }
      DeadStaysDead(h', calls[1..]);
    }
  }

  /** For non-negative amounts and fractions in [0, 1], 0 <= currentHp <= maxHp always holds. */
  lemma {:induction false} RangeKept(h: HealthState, calls: seq<Call>)
    requires InRange(h) && Wellformed(calls)
    ensures InRange(Run(h, calls))
    decreases |calls|
  {
    if calls != [] {
      var h' := match calls[0]
        case TakeDamage(d) => Damaged(h, d)
        case Heal(a) => Healed(h, a)
        case Revive(pct) => Revived(h, pct)
        case ResetCall => Restored(h);
      assert Wellformed(calls[1..]) by {
        forall i | 0 <= i < |calls[1..]| ensures calls[1..][i] == calls[i + 1] { }
      }
      RangeKept(h', calls[1..]);
    }
  }

  /**
   * The component in the source's own form: an object whose methods update
   * its fields in place.
   */
  class HealthSystem {
    var baseHp: int
    var maxHp: int
    var currentHp: int
    var isAlive: bool

    function State(): HealthState
      reads this
    {
      HealthState(baseHp, maxHp, currentHp, isAlive)
    }

    ghost predicate Valid()
      reads this
    {
      InRange(State())
    }

    /**
     * `HealthSystem(base_hp=100, max_hp=None)`: a caller that leaves out
     * `base_hp` passes `DefaultBaseHp`, one that leaves out `max_hp` passes None.
     */
    constructor (baseHp: int, maxHp: Option<int>)
      ensures State() == Fresh(baseHp, maxHp)
      ensures this.maxHp >= 0 ==> Valid()
    {
      this.baseHp := baseHp;
      this.maxHp := if maxHp.Some? then maxHp.value else baseHp;
      this.currentHp := if maxHp.Some? then maxHp.value else baseHp;
      this.isAlive := true;
    }

    method TakeDamage(d: int) returns (alive: bool)
      modifies this
      ensures State() == Damaged(old(State()), d)
      ensures alive == isAlive
      ensures old(Valid()) && d >= 0 ==> Valid()
    {
      currentHp := if 0 > currentHp - d then 0 else currentHp - d;
      if currentHp <= 0 {
        isAlive := false;
      }
      alive := isAlive;
    }

    method Heal(a: int) returns (gain: int)
      modifies this
      ensures State() == Healed(old(State()), a)
      ensures gain == HealAmount(old(State()), a)
      ensures old(Valid()) && a >= 0 ==> Valid()
    {
      if !isAlive {
        return 0;
      }
      var oldHp := currentHp;
      currentHp := if maxHp < currentHp + a then maxHp else currentHp + a;
      gain := currentHp - oldHp;
    }

    /** revive: a caller that leaves out `hp_percentage` revives at full hit points (1.0). */
    method Revive(pct: real := 1.0) returns (revived: bool)
      modifies this
      ensures State() == Revived(old(State()), pct)
      ensures revived == !old(isAlive)
      ensures old(Valid()) && 0.0 <= pct <= 1.0 ==> Valid()
    {
      if isAlive {
        return false;
      }
      currentHp := Truncate(maxHp as real * pct);
      isAlive := true;
      revived := true;
    }

    method GetHpPercentage() returns (p: Option<real>)
      ensures p == HpFraction(State())
    {
      if maxHp == 0 {
        p := None;
      } else {
        p := Some(currentHp as real / maxHp as real);
      }
    }

    method Reset()
      modifies this
      ensures State() == Restored(old(State()))
      ensures maxHp >= 0 ==> Valid()
    {
      currentHp := maxHp;
      isAlive := true;
    }
  }
}
