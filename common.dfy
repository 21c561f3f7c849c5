/**
 * Value types shared by the combat model: item stacks with their enchantment
 * and potion metadata, equipment, entities and potion effects. These stand for
 * the game server's own classes (ItemStack, PotionMeta, LivingEntity, Potion),
 * reduced to the parts the combat logic reads.
 */
module Common {

  datatype Option<+T> = None | Some(value: T)

  /** A Java `short`: the type in which item metadata stores enchantment levels. */
  type Short = x: int | -0x8000 <= x < 0x8000

  /** An RGB colour as `Color.asRGB()` yields it: 24 bits, no alpha. */
  type Rgb = x: int | 0 <= x < 0x100_0000

  /**
   * Damage in quarter points: 1 stands for 0.25 damage. Every damage constant of
   * the combat logic (1.25, 0.5, 2.5, 8.0) is a whole number of quarter points.
   */
  type Quarters = int

  datatype Enchantment =
    | Protection | FireProtection | BlastProtection | ProjectileProtection
    | Sharpness | Smite | BaneOfArthropods | Impaling
    | Knockback | FireAspect | Sweeping | Efficiency
    | Unbreaking | Loyalty | Thorns
    | OtherEnchantment(key: string)

  datatype Material =
    | Air | ArrowItem | SpectralArrowItem | TippedArrowItem | FireworkRocket | TridentItem
    | ArmorPiece(name: string)   // a material that ArmorMaterial.fromMaterial recognises
    | OtherMaterial(name: string)

  predicate IsArmor(m: Material) { m.ArmorPiece? }

  datatype PotionType = EmptyPotion | NamedPotion(key: string)

  datatype PotionEffect = Slowness | OtherEffect(key: string)

  /** The ambient / particles / icon bits carried by an applied potion. */
  datatype PotionFlags = PotionFlags(ambient: bool, particles: bool, icon: bool)

  /** Flags of an effect applied by a reaction: particles and icon shown, not ambient. */
  const DefaultFlags := PotionFlags(false, true, true)

  /** An effect as applied to an entity (the server's `Potion`). */
  datatype Potion = Potion(effect: PotionEffect, amplifier: int, duration: int, flags: PotionFlags)

  /** An effect stored in item metadata (the server's `CustomPotionEffect`). */
  datatype CustomPotionEffect = CustomPotionEffect(
    effect: PotionEffect, amplifier: int, duration: int,
    ambient: bool, showParticles: bool, showIcon: bool)

  /** Potion metadata of an item; `None` stands for an unset (null) field. */
  datatype PotionMeta = PotionMeta(
    potionType: Option<PotionType>,
    customEffects: seq<CustomPotionEffect>,
    color: Option<Rgb>)

  const NoPotionMeta := PotionMeta(None, [], None)

  datatype ItemStack = ItemStack(
    material: Material,
    enchantments: map<Enchantment, Short>,
    potion: PotionMeta)

  predicate IsAir(stack: ItemStack) { stack.material == Air }

  /** `ItemStack.of(material)`: a stack with no enchantments and no potion metadata. */
  function ItemOf(m: Material): ItemStack { ItemStack(m, map[], NoPotionMeta) }

  datatype EquipmentSlot = MainHand | OffHand | Boots | Leggings | Chestplate | Helmet

  /** What a living entity holds and wears; an empty slot holds an air stack. */
  datatype Equipment = Equipment(
    mainHand: ItemStack, offHand: ItemStack,
    boots: ItemStack, leggings: ItemStack, chestplate: ItemStack, helmet: ItemStack)
  {
    function Get(slot: EquipmentSlot): ItemStack {
      match slot
      case MainHand => mainHand
      case OffHand => offHand
      case Boots => boots
      case Leggings => leggings
      case Chestplate => chestplate
      case Helmet => helmet
    }
  }

  datatype EntityGroup = DefaultGroup | UndeadGroup | ArthropodGroup | IllagerGroup | AquaticGroup

  datatype GameMode = Survival | Creative | Adventure | Spectator

  datatype EntityKind = NonLiving | Living | Player(gameMode: GameMode)

  /**
   * A snapshot of an entity as a tick sees it. `id` is its identity: two
   * references denote the same entity exactly when their ids agree.
   */
  datatype Entity = Entity(
    id: nat, kind: EntityKind, removed: bool, dead: bool,
    group: EntityGroup, equipment: Equipment)

  /** `entity instanceof LivingEntity`: players are living entities too. */
  predicate IsLiving(e: Entity) { !e.kind.NonLiving? }

  predicate IsSpectator(e: Entity) { e.kind.Player? && e.kind.gameMode == Spectator }

  /** `Math.max` on ints. */
  function Max(a: int, b: int): int { if a >= b then a else b }

  /** Java's `/` on int, which truncates toward zero (Dafny's rounds toward negative infinity). */
  function JavaDiv(a: int, b: int): int
    requires b > 0
  {
    if a >= 0 then a / b else -((-a) / b)
  }
}
