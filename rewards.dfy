/** The reward arithmetic shared by both ways of ending a mining session. */
module Rewards {
  import opened PlayerRecords

  /** The three amounts drawn at the end of a session, as the bot computes
      them: `int(duration * random.uniform(lo, hi))`. `int()` truncates
      toward zero, so a negative session length (the local clock stepped
      back between start and end) gives negative amounts. */
  datatype RawDraws = RawDraws(coal: int, iron: int, gold: int)

  /** The amounts credited by the handlers of this model: the drawn amounts
      with a negative session length clamped to zero (see `ClampDraws`). */
  datatype Drops = Drops(coal: nat, iron: nat, gold: nat)

  const Coal: string := "coal"
  const Iron: string := "iron"
  const Gold: string := "gold"

  const NoDrops: Drops := Drops(0, 0, 0)

  /** Experience for a session: 2 per coal, 5 per iron, 10 per gold. */
  function RawXp(raw: RawDraws): int
  {
    raw.coal * 2 + raw.iron * 5 + raw.gold * 10
  }

  /** Coins for a session: 1 per coal, 3 per iron, 5 per gold. */
  function RawCoins(raw: RawDraws): int
  {
    raw.coal * 1 + raw.iron * 3 + raw.gold * 5
  }

  /** The credited amounts, as amounts the formulas accept. */
  function AsRaw(d: Drops): RawDraws
  {
    RawDraws(d.coal, d.iron, d.gold)
  }

  function XpFor(d: Drops): nat
  {
    RawXp(AsRaw(d))
  }

  function CoinsFor(d: Drops): nat
  {
    RawCoins(AsRaw(d))
  }

  function AddDropsOf(d1: Drops, d2: Drops): Drops
  {
    Drops(d1.coal + d2.coal, d1.iron + d2.iron, d1.gold + d2.gold)
  }

  /** `inventory.get(key, 0)`: a missing key counts as zero. */
  function CountOf(inventory: Counts, key: string): int
  {
    if key in inventory then inventory[key] else 0
  }

  /** The three in-place additions of a session end (bot.py), on the
      amounts as drawn. */
  function AddRawDraws(inventory: Counts, raw: RawDraws): Counts
  {
    var withCoal := inventory[Coal := CountOf(inventory, Coal) + raw.coal];
    var withIron := withCoal[Iron := CountOf(withCoal, Iron) + raw.iron];
    withIron[Gold := CountOf(withIron, Gold) + raw.gold]
  }

  /** The inventory after crediting the (non-negative) amounts `d`. */
  function AddDrops(inventory: Counts, d: Drops): (r: Counts)
    ensures r.Keys == inventory.Keys + {Coal, Iron, Gold}
    ensures r[Coal] == CountOf(inventory, Coal) + d.coal
    ensures r[Iron] == CountOf(inventory, Iron) + d.iron
    ensures r[Gold] == CountOf(inventory, Gold) + d.gold
    ensures forall k :: k in inventory && k !in {Coal, Iron, Gold} ==> r[k] == inventory[k]
  {
    AddRawDraws(inventory, AsRaw(d))
  }

  /** Crediting never lowers a count, and keeps counts non-negative. */
  lemma AddDropsGrows(inventory: Counts, d: Drops)
    ensures forall k :: k in inventory ==> CountOf(AddDrops(inventory, d), k) >= inventory[k]
    ensures (forall k :: k in inventory ==> inventory[k] >= 0) ==>
              forall k :: k in AddDrops(inventory, d) ==> AddDrops(inventory, d)[k] >= 0
  {
  }

  /** Two sessions credited one after the other give what one session with
      the summed drops gives: inventory, experience and coins alike. */
  lemma AddDropsAdditive(inventory: Counts, d1: Drops, d2: Drops)
    ensures AddDrops(AddDrops(inventory, d1), d2) == AddDrops(inventory, AddDropsOf(d1, d2))
    ensures XpFor(d1) + XpFor(d2) == XpFor(AddDropsOf(d1, d2))
    ensures CoinsFor(d1) + CoinsFor(d2) == CoinsFor(AddDropsOf(d1, d2))
  {
  }

  /** Exactly a session that dropped nothing earns no experience and no
      coins. */
  lemma NothingEarnedIffNoDrops(d: Drops)
    ensures XpFor(d) == 0 <==> d == NoDrops
    ensures CoinsFor(d) == 0 <==> d == NoDrops
  {
  }

  function Clamp(x: int): nat
  {
    if x < 0 then 0 else x
  }

  /** The amounts credited when a negative session length counts as an
      empty one: a negative amount is credited as zero, any other amount as
      drawn. */
  function ClampDraws(raw: RawDraws): (d: Drops)
    ensures d.coal >= raw.coal && d.iron >= raw.iron && d.gold >= raw.gold
    ensures raw.coal >= 0 ==> d.coal == raw.coal
    ensures raw.iron >= 0 ==> d.iron == raw.iron
    ensures raw.gold >= 0 ==> d.gold == raw.gold
    ensures raw.coal < 0 ==> d.coal == 0
    ensures raw.iron < 0 ==> d.iron == 0
    ensures raw.gold < 0 ==> d.gold == 0
    ensures raw.coal <= 0 && raw.iron <= 0 && raw.gold <= 0 ==> d == NoDrops
  {
    Drops(Clamp(raw.coal), Clamp(raw.iron), Clamp(raw.gold))
  }

  /** On non-negative draws, clamping changes nothing: the inventory, xp and
      coins credited are those the bot computes. */
  lemma ClampAgreesOnNonNegative(inventory: Counts, raw: RawDraws)
    requires raw.coal >= 0 && raw.iron >= 0 && raw.gold >= 0
    ensures AddDrops(inventory, ClampDraws(raw)) == AddRawDraws(inventory, raw)
    ensures XpFor(ClampDraws(raw)) == RawXp(raw)
    ensures CoinsFor(ClampDraws(raw)) == RawCoins(raw)
  {
  }
}
