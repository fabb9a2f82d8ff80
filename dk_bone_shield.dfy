/**
 * Two Blood scripts of spell_dk.cpp that count: Tombstone, which consumes up
 * to five Bone Shield charges for an absorb and runic power, and the
 * Bonestorm damage dummy, which heals its caster on at most five hits.
 */
module DkBoneShield {
  import opened Bytes
  import opened Wrappers

  /** Tombstone consumes at most this many Bone Shield (195181) charges. */
  const MAX_CONSUMED: nat := 5
  /** Percent of maximum health absorbed per consumed charge. */
  const ABSORB_PCT_PER_CHARGE: nat := 6
  /** Runic power granted per consumed charge (the engine's power units). */
  const RUNIC_POWER_PER_CHARGE: nat := 60
  /** Bonestorm heals on at most this many hits. */
  const MAX_BONESTORM_HEALS: nat := 5
  /** Percent of maximum health one Bonestorm hit heals, per whole percent. */
  const BONESTORM_HEAL_PCT: nat := 3

  function Min(a: int, b: int): int
  {
    if a < b then a else b
  }

  /** What `spell_dk_tombstone_AuraScript::Apply` computes from the charges present. */
  datatype TombstoneOutcome = TombstoneOutcome(consumed: nat, chargesLeft: uint8, absorb: nat, runicPowerGain: nat)

  /**
   * Tombstone takes five charges, or all of them when there are fewer, and no
   * charge is lost or created.
   */
  function TombstoneWith(charges: uint8, maxHealth: nat): (o: TombstoneOutcome)
    ensures o.consumed + o.chargesLeft == charges
    ensures o.consumed <= MAX_CONSUMED
    ensures o.consumed == MAX_CONSUMED || o.chargesLeft == 0
  {
    var stacks := Min(MAX_CONSUMED, charges);
    TombstoneOutcome(stacks, charges - stacks, (stacks * maxHealth * ABSORB_PCT_PER_CHARGE) / 100,
                     stacks * RUNIC_POWER_PER_CHARGE)
  }

  /**
   * The absorb is the consumed charges' 6% shares of maximum health, rounded
   * down, so at most 30% of maximum health; the runic power is 60 per charge.
   */
  lemma TombstoneRewards(charges: uint8, maxHealth: nat)
    ensures var o := TombstoneWith(charges, maxHealth);
      && o.absorb * 100 <= o.consumed * ABSORB_PCT_PER_CHARGE * maxHealth < (o.absorb + 1) * 100
      && o.absorb * 100 <= 30 * maxHealth
      && o.runicPowerGain == RUNIC_POWER_PER_CHARGE * o.consumed
      && o.runicPowerGain <= 300
  {
    var o := TombstoneWith(charges, maxHealth);
    var x := o.consumed * maxHealth * ABSORB_PCT_PER_CHARGE;
    assert o.consumed * ABSORB_PCT_PER_CHARGE * maxHealth == x;
    assert o.absorb == x / 100;
    assert x <= 30 * maxHealth by {
      assert o.consumed * maxHealth <= 5 * maxHealth by {
        MulLe(o.consumed, 5, maxHealth);
      }
    }
  }

  lemma MulLe(a: nat, b: nat, c: nat)
    requires a <= b
    ensures a * c <= b * c
  {
  }

  /** The unit that owns the Tombstone absorb. */
  class TombstoneOwner {
    /** Stack amount of the Bone Shield aura, None when the aura is absent. */
    var boneShield: Option<uint8>
    var runicPower: int
    const maxHealth: nat

    constructor(boneShield: Option<uint8>, runicPower: int, maxHealth: nat)
      ensures this.boneShield == boneShield && this.runicPower == runicPower && this.maxHealth == maxHealth
    {
      this.boneShield := boneShield;
      this.runicPower := runicPower;
      this.maxHealth := maxHealth;
    }

    /**
     * `Apply` (the absorb's amount calculation): without Bone Shield nothing
     * changes and the amount stays; otherwise the charges are consumed, the
     * amount becomes the absorb and runic power rises.
     */
    method Apply(amount: int) returns (newAmount: int)
      modifies this`boneShield, this`runicPower
      ensures old(boneShield).None? ==> newAmount == amount && boneShield == old(boneShield) && runicPower == old(runicPower)
      ensures old(boneShield).Some? ==>
        var o := TombstoneWith(old(boneShield).value, maxHealth);
        && boneShield == Some(o.chargesLeft)
        && newAmount == o.absorb
        && runicPower == old(runicPower) + o.runicPowerGain
    {
      newAmount := amount;
      if boneShield.None? {
        return;
      }
      var count := boneShield.value;
      var stacks: nat := if count < MAX_CONSUMED then count else MAX_CONSUMED;
      boneShield := Some(count - stacks);
      newAmount := (stacks * maxHealth * ABSORB_PCT_PER_CHARGE) / 100;
      runicPower := runicPower + stacks * RUNIC_POWER_PER_CHARGE;
    }
  }

  /**
   * The heal of one Bonestorm hit: 3 per whole percent of maximum health, so
   * a multiple of 3 whose third is maximum health divided by 100, rounded down.
   */
  function BonestormHeal(maxHealth: nat): (heal: nat)
    ensures heal * 100 <= BONESTORM_HEAL_PCT * maxHealth < heal * 100 + 300
    ensures heal % BONESTORM_HEAL_PCT == 0
    ensures (heal / BONESTORM_HEAL_PCT) * 100 <= maxHealth < (heal / BONESTORM_HEAL_PCT + 1) * 100
  {
    (maxHealth / 100) * BONESTORM_HEAL_PCT
  }

  /** The counter and the heals after `n` more hits, starting from counter `hit`. */
  function Hits(hit: int, n: nat, maxHealth: nat): (r: (int, seq<nat>))
    ensures |r.1| <= n && hit <= r.0
    ensures hit >= MAX_BONESTORM_HEALS ==> r == (hit, [])
    ensures forall k :: 0 <= k < |r.1| ==> r.1[k] == BonestormHeal(maxHealth)
    decreases n
  {
    if n == 0 then (hit, [])
    else if hit < MAX_BONESTORM_HEALS then
      var rest := Hits(hit + 1, n - 1, maxHealth);
      (rest.0, [BonestormHeal(maxHealth)] + rest.1)
    else Hits(hit, n - 1, maxHealth)
  }

  /**
   * From a counter in 0 .. 5, n hits heal min(n, 5 - hit) times, each for
   * the same amount, and leave the counter at most 5.
   */
  lemma {:induction false} HitsCapped(hit: int, n: nat, maxHealth: nat)
    requires 0 <= hit <= MAX_BONESTORM_HEALS
    ensures |Hits(hit, n, maxHealth).1| == Min(n, MAX_BONESTORM_HEALS - hit)
    ensures Hits(hit, n, maxHealth).0 == hit + Min(n, MAX_BONESTORM_HEALS - hit)
    ensures forall k :: 0 <= k < |Hits(hit, n, maxHealth).1| ==> Hits(hit, n, maxHealth).1[k] == BonestormHeal(maxHealth)
    decreases n
  {
    if n > 0 {
      if hit < MAX_BONESTORM_HEALS {
        HitsCapped(hit + 1, n - 1, maxHealth);
      } else {
        HitsCapped(hit, n - 1, maxHealth);
      }
    }
  }

  /** `spell_dk_bonestorm_dummy`: one instance per cast, with its hit counter. */
  class BonestormDummy {
    var hit: int
    /** The heals dealt to the caster, oldest first. */
    var heals: seq<nat>

    constructor()
      ensures hit == 0 && heals == []
    {
      hit := 0;
      heals := [];
    }

    /** `Hit`: heal the caster only while fewer than five hits have healed. */
    method Hit(maxHealth: nat)
      modifies this
      ensures hit == Hits(old(hit), 1, maxHealth).0
      ensures heals == old(heals) + Hits(old(hit), 1, maxHealth).1
    {
      if hit < MAX_BONESTORM_HEALS {
        heals := heals + [BonestormHeal(maxHealth)];
        hit := hit + 1;
      } else {
        assert Hits(hit, 1, maxHealth) == Hits(hit, 0, maxHealth) == (hit, []);
        assert heals == heals + [];
      }
    }
  }
}
