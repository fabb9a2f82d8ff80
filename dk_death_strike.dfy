/**
 * Death Strike (spell_dk.cpp): the enabler aura keeps, per periodic tick,
 * the damage its owner took, over the last five ticks; Death Strike heals for
 * a share of that total, but at least a share of maximum health.
 */
module DkDeathStrike {
  import opened Bytes
  import opened Wrappers

  /** `LAST_SECONDS`: the number of one-second slots of the damage window. */
  const LAST_SECONDS: nat := 5

  type Window = w: seq<uint32> | |w| == LAST_SECONDS witness [0, 0, 0, 0, 0]

  /** Exact sum of a sequence of slots. */
  function Sum(s: seq<uint32>): nat
  {
    if s == [] then 0 else s[0] + Sum(s[1..])
  }

  /** What `Update` leaves: every slot moved one further, the last dropped, slot 0 cleared. */
  function Shifted(w: Window): (r: Window)
    ensures r[0] == 0 && forall i :: 1 <= i < LAST_SECONDS ==> r[i] == w[i - 1]
  {
    [0] + w[..LAST_SECONDS - 1]
  }

  /** What `HandleProc` leaves: the damage added to slot 0 with `uint32` wrap-around. */
  function WithDamage(w: Window, damage: uint32): (r: Window)
    ensures r[0] == Wrap32(w[0] + damage) && r[1..] == w[1..]
  {
    w[0 := Wrap32(w[0] + damage)]
  }

  /** What `HandleCalcAmount` reports: the `uint32` accumulation, cast to `int32`. */
  function WindowAmount(w: Window): (amount: int32)
    ensures Sum(w) < 0x8000_0000 ==> amount == Sum(w)
    ensures amount < 0 <==> Wrap32(Sum(w)) >= 0x8000_0000
    ensures Wrap32(amount) == Wrap32(Sum(w))
  {
    ToInt32(Wrap32(Sum(w)))
  }

  lemma SumCons(x: uint32, s: seq<uint32>)
    ensures Sum([x] + s) == x + Sum(s)
  {
    assert ([x] + s)[1..] == s;
  }

  lemma {:induction false} SumSnoc(s: seq<uint32>, x: uint32)
    ensures Sum(s + [x]) == Sum(s) + x
    decreases |s|
  {
    if s != [] {
      assert (s + [x])[1..] == s[1..] + [x];
      SumSnoc(s[1..], x);
    }
  }

  /** A tick forgets exactly the oldest slot's damage. */
  lemma ShiftForgetsOldest(w: Window)
    ensures Sum(Shifted(w)) + w[LAST_SECONDS - 1] == Sum(w)
  {
    var front := w[..LAST_SECONDS - 1];
    SumCons(0, front);
    assert w == front + [w[LAST_SECONDS - 1]];
    SumSnoc(front, w[LAST_SECONDS - 1]);
  }

  /**
   * A proc adds its damage to the reported total, modulo 2^32, whatever
   * wrapped in slot 0; with no wrap in slot 0 the exact sum grows by it.
   */
  lemma ProcAddsDamage(w: Window, damage: uint32)
    ensures Wrap32(Sum(WithDamage(w, damage))) == Wrap32(Sum(w) + damage)
    ensures w[0] + damage < 0x1_0000_0000 ==> Sum(WithDamage(w, damage)) == Sum(w) + damage
  {
    var r := WithDamage(w, damage);
    assert w == [w[0]] + w[1..];
    assert r == [r[0]] + w[1..];
    SumCons(w[0], w[1..]);
    SumCons(r[0], w[1..]);
  }

  /** Five ticks without damage clear the window: older damage never counts. */
  lemma FiveTicksClear(w: Window)
    ensures Shifted(Shifted(Shifted(Shifted(Shifted(w))))) == [0, 0, 0, 0, 0]
  {
  }

  /** `spell_dk_death_strike_enabler`: the aura's private damage window. */
  class DeathStrikeEnabler {
    var damagePerSecond: array<uint32>

    predicate Valid()
      reads this
    {
      damagePerSecond.Length == LAST_SECONDS
    }

    function Contents(): (w: Window)
      requires Valid()
      reads this, damagePerSecond
    {
      damagePerSecond[..]
    }

    /** The window starts empty (`= { }`). */
    constructor()
      ensures Valid() && fresh(damagePerSecond)
      ensures Contents() == [0, 0, 0, 0, 0]
    {
      damagePerSecond := new uint32[LAST_SECONDS](_ => 0);
    }

    /** `Update`: the periodic tick, a `move_backward` by one slot and a cleared slot 0. */
    method Update()
      requires Valid()
      modifies damagePerSecond
      ensures Valid() && Contents() == Shifted(old(Contents()))
    {
      var i := LAST_SECONDS - 1;
      while i > 0
        invariant 0 <= i < LAST_SECONDS
        invariant forall k :: 0 <= k <= i ==> damagePerSecond[k] == old(damagePerSecond[k])
        invariant forall k :: i < k < LAST_SECONDS ==> damagePerSecond[k] == old(damagePerSecond[k - 1])
      {
        damagePerSecond[i] := damagePerSecond[i - 1];
        i := i - 1;
      }
      damagePerSecond[0] := 0;
    }

    /** `HandleProc`: the damage of the proc goes into slot 0. */
    method HandleProc(damage: uint32)
      requires Valid()
      modifies damagePerSecond
      ensures Valid() && Contents() == WithDamage(old(Contents()), damage)
    {
      damagePerSecond[0] := Wrap32(damagePerSecond[0] + damage);
    }

    /** `HandleCalcAmount`: the window's total, which may always be recalculated. */
    method HandleCalcAmount() returns (amount: int32, canBeRecalculated: bool)
      requires Valid()
      ensures canBeRecalculated
      ensures amount == WindowAmount(Contents())
    {
      canBeRecalculated := true;
      var total: uint32 := 0;
      var i := 0;
      while i < LAST_SECONDS
        invariant 0 <= i <= LAST_SECONDS
        invariant total == Wrap32(Sum(damagePerSecond[..i]))
      {
        assert damagePerSecond[..i + 1] == damagePerSecond[..i] + [damagePerSecond[i]];
        SumSnoc(damagePerSecond[..i], damagePerSecond[i]);
        total := Wrap32(total + damagePerSecond[i]);
        i := i + 1;
      }
      assert damagePerSecond[..] == damagePerSecond[..LAST_SECONDS];
      amount := ToInt32(total);
    }
  }

  /**
   * C++ integer division, which truncates toward zero: the remainder
   * a - q * b has the sign of the dividend and is smaller than the divisor.
   */
  function TruncDiv(a: int, b: int): (q: int)
    requires b > 0
    ensures a >= 0 ==> 0 <= a - q * b < b
    ensures a < 0 ==> -b < a - q * b <= 0
  {
    if a >= 0 then a / b else -((-a) / b)
  }

  /** `CalculatePct`: pct percent of base, truncated toward zero. */
  function CalculatePct(base: int, pct: int): (r: int)
    ensures base * pct >= 0 ==> 0 <= base * pct - 100 * r < 100
    ensures base * pct < 0 ==> -100 < base * pct - 100 * r <= 0
  {
    TruncDiv(base * pct, 100)
  }

  function Max(a: int, b: int): int
  {
    if a >= b then a else b
  }

  /**
   * The heal of `spell_dk_death_strike::HandleDummy`, or None without an
   * enabler: `damagePct` percent of the enabler's amount, at least `floorPct`
   * percent of maximum health, and scaled by (100 + bonus) percent when
   * Hemostasis is up.
   */
  function DeathStrikeHeal(enablerAmount: Option<int32>, damagePct: int, floorPct: int, maxHealth: nat,
                           hemostasis: Option<int>): (heal: Option<int>)
    ensures heal.Some? <==> enablerAmount.Some?
    ensures enablerAmount.Some? && hemostasis.None? ==>
      && heal.value >= CalculatePct(floorPct, maxHealth)
      && heal.value >= CalculatePct(enablerAmount.value, damagePct)
      && (heal.value == CalculatePct(floorPct, maxHealth) || heal.value == CalculatePct(enablerAmount.value, damagePct))
  {
    match enablerAmount
    case None => None
    case Some(recent) =>
      var heal := Max(CalculatePct(recent, damagePct), CalculatePct(floorPct, maxHealth));
      match hemostasis
      case None => Some(heal)
      case Some(bonus) => Some(TruncDiv(heal * (100 + bonus), 100))
  }

  lemma TruncDivMonotone(a: int, b: int)
    requires a <= b
    ensures TruncDiv(a, 100) <= TruncDiv(b, 100)
  {
    if a < 0 && b < 0 {
      DivMonotone(-b, -a);
    } else if a >= 0 {
      DivMonotone(a, b);
    }
  }

  /** With a non-negative damage share, more recent damage never gives a smaller heal. */
  lemma HealMonotoneInDamage(r1: int32, r2: int32, damagePct: int, floorPct: int, maxHealth: nat)
    requires r1 <= r2 && damagePct >= 0
    ensures DeathStrikeHeal(Some(r1), damagePct, floorPct, maxHealth, None).value
         <= DeathStrikeHeal(Some(r2), damagePct, floorPct, maxHealth, None).value
  {
    assert r1 * damagePct <= r2 * damagePct by {
      MulMonotone(r1, r2, damagePct);
    }
    TruncDivMonotone(r1 * damagePct, r2 * damagePct);
  }

  lemma MulMonotone(a: int, b: int, c: int)
    requires a <= b && c >= 0
    ensures a * c <= b * c
  {
  }

  /** A non-negative Hemostasis bonus never lowers a non-negative heal. */
  lemma HemostasisNeverLowers(recent: int32, damagePct: int, floorPct: int, maxHealth: nat, bonus: int)
    requires bonus >= 0
    requires DeathStrikeHeal(Some(recent), damagePct, floorPct, maxHealth, None).value >= 0
    ensures DeathStrikeHeal(Some(recent), damagePct, floorPct, maxHealth, Some(bonus)).value
         >= DeathStrikeHeal(Some(recent), damagePct, floorPct, maxHealth, None).value
  {
    var h := DeathStrikeHeal(Some(recent), damagePct, floorPct, maxHealth, None).value;
    MulMonotone(100, 100 + bonus, h);
    assert h * 100 <= h * (100 + bonus);
    assert (h * 100) / 100 == h;
    DivMonotone(h * 100, h * (100 + bonus));
  }

  lemma DivMonotone(a: nat, b: nat)
    requires a <= b
    ensures a / 100 <= b / 100
  {
  }
}
