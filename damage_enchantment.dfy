/**
 * The damage enchantments (sharpness, smite, bane of arthropods): the bonus a
 * level adds to an attack against a creature group, and bane of arthropods'
 * slowness reaction. Damage is in quarter points (see Common.Quarters).
 */
module DamageEnchantment {
  import opened Common

  /** Which creatures the enchantment is sharpened against. */
  datatype Type = All | Undead | Arthropods

  /**
   * The attack-damage bonus of one damage enchantment of the given level.
   * Type All gives 1.25 per level under the legacy ruleset and 1 + 0.5 per level
   * above the first under the current one; the targeted types give 2.5 per level
   * against their own group and nothing against any other.
   */
  function AttackDamage(t: Type, level: int, group: EntityGroup, legacy: bool): (bonus: Quarters)
    ensures t == All && legacy ==> bonus == 5 * level
    ensures t == All && !legacy ==> bonus == 4 + 2 * (if level > 1 then level - 1 else 0)
    ensures t == Undead ==> bonus == (if group == UndeadGroup then 10 * level else 0)
    ensures t == Arthropods ==> bonus == (if group == ArthropodGroup then 10 * level else 0)
    ensures level >= 0 ==> bonus >= 0
  {
    if t == All then
      if legacy then 5 * level else 4 + 2 * Max(0, level - 1)
    else if t == Undead && group == UndeadGroup then
      10 * level
    else if t == Arthropods && group == ArthropodGroup then
      10 * level
    else
      0
  }

  /** The ruleset changes the bonus of the targeted types for no level and no group. */
  lemma RulesetOnlyAffectsAll(t: Type, level: int, group: EntityGroup)
    requires t != All
    ensures AttackDamage(t, level, group, true) == AttackDamage(t, level, group, false)
  {
  }

  /** Under the current ruleset a first level is worth exactly one damage point. */
  lemma CurrentFirstLevelGivesOnePoint(group: EntityGroup)
    ensures AttackDamage(All, 1, group, false) == 4
  {
  }

  /** A higher level never gives a smaller bonus. */
  lemma AttackDamageMonotone(t: Type, lo: int, hi: int, group: EntityGroup, legacy: bool)
    requires 0 <= lo <= hi
    ensures AttackDamage(t, lo, group, legacy) <= AttackDamage(t, hi, group, legacy)
  {
  }

  /**
   * The slowness reaction of a damage enchantment when its wearer hurts `target`:
   * only bane of arthropods against a living arthropod applies anything, slowness
   * at amplifier 3 for 20 ticks plus a draw from [0, 10 * level). `draw` is that
   * random draw; `nextInt` rejects a bound that is not positive, so an applying
   * reaction needs a level of at least 1.
   */
  function OnTargetDamaged(t: Type, target: Entity, level: int, draw: int): (applied: Option<Potion>)
    requires SlowsTarget(t, target) ==> 1 <= level && 0 <= draw < 10 * level
    ensures applied.Some? <==> SlowsTarget(t, target)
    ensures applied.Some? ==>
      && applied.value.effect == Slowness
      && applied.value.amplifier == 3
      && 20 <= applied.value.duration < 20 + 10 * level
      && applied.value.flags == DefaultFlags
  {
    if IsLiving(target) && t == Arthropods && target.group == ArthropodGroup then
      Some(Potion(Slowness, 3, 20 + draw, DefaultFlags))
    else
      None
  }

  predicate SlowsTarget(t: Type, target: Entity) {
    IsLiving(target) && t == Arthropods && target.group == ArthropodGroup
  }
}
