/**
 * The enchantment registry: which behaviour each enchantment key stands for.
 * Damage enchantments are a variant of their own and take their bonus and their
 * reaction from DamageEnchantment; every other behaviour is a parameter of the
 * registry, since the classes that implement it are not part of this model.
 */
module CustomEnchantments {
  import opened Common
  import DamageEnchantment

  /** How a damage category is described to protection enchantments. */
  datatype DamageTypeInfo = DamageTypeInfo(name: string)

  /** A registered enchantment: its key and the equipment slots it applies to. */
  datatype CustomEnchantment =
    | DamageKind(enchantment: Enchantment, damageType: DamageEnchantment.Type, slotTypes: set<EquipmentSlot>)
    | OtherKind(enchantment: Enchantment, slotTypes: set<EquipmentSlot>)

  /**
   * The registry (`CustomEnchantments.get`) and the behaviour of the enchantments
   * whose classes are not modelled: `get` yields None where the source yields null.
   */
  datatype Registry = Registry(
    get: Enchantment -> Option<CustomEnchantment>,
    protectionAmount: (CustomEnchantment, Short, DamageTypeInfo) -> int,
    otherAttackDamage: (CustomEnchantment, Short, EntityGroup, bool) -> Quarters)

  /** `customEnchantment.getAttackDamage(level, group, legacy)`, dispatched on the variant. */
  function AttackDamageOf(reg: Registry, ce: CustomEnchantment, level: Short, group: EntityGroup, legacy: bool): (bonus: Quarters)
    ensures ce.DamageKind? ==> bonus == DamageEnchantment.AttackDamage(ce.damageType, level, group, legacy)
    ensures ce.DamageKind? && level >= 0 ==> bonus >= 0
    ensures ce.OtherKind? ==> bonus == reg.otherAttackDamage(ce, level, group, legacy)
  {
    match ce
    case DamageKind(_, t, _) => DamageEnchantment.AttackDamage(t, level, group, legacy)
    case OtherKind(_, _) => reg.otherAttackDamage(ce, level, group, legacy)
  }

  /** `customEnchantment.getEquipment(entity)`: the entity's stacks in the enchantment's slots. */
  function EquipmentFor(ce: CustomEnchantment, equipment: Equipment): (stacks: map<EquipmentSlot, ItemStack>)
    ensures stacks.Keys == ce.slotTypes
    ensures forall s :: s in stacks ==> stacks[s] == equipment.Get(s)
  {
    map s | s in ce.slotTypes :: equipment.Get(s)
  }

  /** Every enchantment on the stacks is registered (the source dereferences the lookup unchecked). */
  predicate Registered(reg: Registry, stacks: seq<ItemStack>) {
    forall i, e :: 0 <= i < |stacks| && e in stacks[i].enchantments ==> reg.get(e).Some?
  }
}
