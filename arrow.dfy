/**
 * The tipped-arrow projectile's potion carrier: the base potion type and custom
 * effects it took from the item it was shot from, its display colour, the
 * 600-tick timeout that uses the effects up while stuck, the effects it applies
 * to an entity it hurts, and the item a player picks up.
 */
module PotionArrow {
  import opened Common

  /** The arrow's own potion metadata: base type (None: unset) and ordered custom effects. */
  datatype Carrier = Carrier(potionType: Option<PotionType>, customEffects: seq<CustomPotionEffect>)

  /** A carrier with type EMPTY and no custom effects. */
  const EmptyCarrier := Carrier(Some(EmptyPotion), [])

  /** The colour value meaning "no colour": the client draws a plain arrow. */
  const NoColor := -1

  /** `DEFAULT_ARROW`: one plain arrow. */
  const DefaultArrow := ItemOf(ArrowItem)

  /** Stuck ticks after which the custom effects are used up. */
  const EffectTimeout := 600

  /** A base potion type's effect table (`CustomPotionType`): current and legacy effects. */
  datatype CustomPotionType = CustomPotionType(effects: seq<Potion>, legacyEffects: seq<Potion>)

  /** One application to the hurt entity: an instant effect fired, or an effect added. */
  datatype Application = Instant(effect: PotionEffect, amplifier: int) | Added(potion: Potion)

  /** `new Color(c).asRGB()`: the low 24 bits of `c`. */
  function ColorFromInt(c: int): (rgb: Rgb)
    ensures 0 <= c < 0x100_0000 ==> rgb == c
  {
    c % 0x100_0000
  }

  /**
   * A base-type effect on hit: an instant effect fires at its amplifier; any other
   * is added with an eighth of its duration (Java division), but at least 1 tick.
   */
  function ApplyBase(p: Potion, isInstant: PotionEffect -> bool): (a: Application)
    ensures a.Instant? <==> isInstant(p.effect)
    ensures a.Instant? ==> a == Instant(p.effect, p.amplifier)
    ensures a.Added? ==>
      && a.potion.effect == p.effect && a.potion.amplifier == p.amplifier && a.potion.flags == p.flags
      && a.potion.duration >= 1
      && (p.duration >= 8 ==> 8 * a.potion.duration <= p.duration < 8 * a.potion.duration + 8)
      && (p.duration < 8 ==> a.potion.duration == 1)
  {
    if isInstant(p.effect) then Instant(p.effect, p.amplifier)
    else Added(Potion(p.effect, p.amplifier, Max(JavaDiv(p.duration, 8), 1), p.flags))
  }

  /** A custom effect on hit: converted to a potion with its own flags, at its full duration. */
  function ApplyCustom(c: CustomPotionEffect, isInstant: PotionEffect -> bool): (a: Application)
    ensures a.Instant? <==> isInstant(c.effect)
    ensures a.Instant? ==> a == Instant(c.effect, c.amplifier)
    ensures a.Added? ==>
      a.potion == Potion(c.effect, c.amplifier, c.duration, PotionFlags(c.ambient, c.showParticles, c.showIcon))
  {
    var p := Potion(c.effect, c.amplifier, c.duration, PotionFlags(c.ambient, c.showParticles, c.showIcon));
    if isInstant(p.effect) then Instant(p.effect, p.amplifier) else Added(p)
  }

  /** The base-type effects of the ruleset, or none when the type is not registered. */
  function BaseEffects(t: Option<CustomPotionType>, legacy: bool): (effects: seq<Potion>)
    ensures t.None? ==> effects == []
    ensures t.Some? && legacy ==> effects == t.value.legacyEffects
    ensures t.Some? && !legacy ==> effects == t.value.effects
  {
    match t
    case None => []
    case Some(cpt) => if legacy then cpt.legacyEffects else cpt.effects
  }

  class Arrow {
    /** The ruleset: legacy or current. */
    const legacy: bool
    /** `PotionListener.getPotionColor(getAllPotions(type, effects, legacy))`. */
    const potionColor: (Option<PotionType>, seq<CustomPotionEffect>, bool) -> int
    /** `CustomPotionTypes.get`: the effect table of a base type, if registered. */
    const potionTypes: Option<PotionType> -> Option<CustomPotionType>
    /** `CustomPotionEffects.get(effect).isInstant()`. */
    const isInstant: PotionEffect -> bool

    /** The carrier; None until `InheritEffects` has seen an arrow or a tipped arrow. */
    var potion: Option<Carrier>
    /** Whether the colour came from the item rather than from the effects. */
    var fixedColor: bool
    /** The colour of the arrow's entity metadata; NoColor for none. */
    var color: int

    constructor (legacy: bool,
                 potionColor: (Option<PotionType>, seq<CustomPotionEffect>, bool) -> int,
                 potionTypes: Option<PotionType> -> Option<CustomPotionType>,
                 isInstant: PotionEffect -> bool)
      ensures this.legacy == legacy && this.potionColor == potionColor
      ensures this.potionTypes == potionTypes && this.isInstant == isInstant
      ensures potion == None && !fixedColor && color == NoColor
    {
      this.legacy := legacy;
      this.potionColor := potionColor;
      this.potionTypes := potionTypes;
      this.isInstant := isInstant;
      potion := None;
      fixedColor := false;
      color := NoColor;
    }

    /**
     * `getPickupItem`: a plain arrow when the carrier holds nothing, else a tipped
     * arrow with the non-EMPTY type, the custom effects and, if fixed, the colour.
     */
    function PickupItem(): (item: ItemStack)
      reads this
      requires potion.Some?
      ensures item == DefaultArrow <==> potion.value == EmptyCarrier
      ensures item != DefaultArrow ==>
        && item.material == TippedArrowItem
        && item.enchantments == map[]
        && item.potion.potionType == (if potion.value.potionType == Some(EmptyPotion) then None else potion.value.potionType)
        && item.potion.customEffects == potion.value.customEffects
        && item.potion.color == (if fixedColor then Some(ColorFromInt(color)) else None)
    {
      var c := potion.value;
      if c.potionType == Some(EmptyPotion) && c.customEffects == [] then DefaultArrow
      else
        var t := if c.potionType.Some? && c.potionType != Some(EmptyPotion) then c.potionType else None;
        var effects := if c.customEffects != [] then c.customEffects else [];
        var col := if fixedColor then Some(ColorFromInt(color)) else None;
        ItemStack(TippedArrowItem, map[], PotionMeta(t, effects, col))
    }

    /**
     * `inheritEffects`: takes the carrier and colour from a tipped arrow, resets
     * them for a plain arrow, and ignores any other item. Picking the arrow up
     * again gives back the tipped arrow it was shot from.
     */
    method InheritEffects(stack: ItemStack)
      modifies this
      ensures stack.material == TippedArrowItem ==>
        && potion == Some(Carrier(stack.potion.potionType, stack.potion.customEffects))
        && fixedColor == stack.potion.color.Some?
        && color == (
             if stack.potion.color.Some? then stack.potion.color.value
             else if stack.potion.potionType == Some(EmptyPotion) && stack.potion.customEffects == [] then NoColor
             else potionColor(stack.potion.potionType, stack.potion.customEffects, legacy))
      ensures stack.material == TippedArrowItem && potion.value != EmptyCarrier ==>
        && PickupItem().material == TippedArrowItem
        && PickupItem().potion.customEffects == stack.potion.customEffects
        && (stack.potion.potionType != Some(EmptyPotion) ==> PickupItem().potion.potionType == stack.potion.potionType)
        && PickupItem().potion.color == stack.potion.color
      ensures stack.material == ArrowItem ==>
        potion == Some(EmptyCarrier) && !fixedColor && color == NoColor && PickupItem() == DefaultArrow
      ensures stack.material != TippedArrowItem && stack.material != ArrowItem ==>
        potion == old(potion) && fixedColor == old(fixedColor) && color == old(color)
    {
      if stack.material == TippedArrowItem {
        var potionType := stack.potion.potionType;
        var customEffects := stack.potion.customEffects;
        if stack.potion.color.None? {
          fixedColor := false;
          if potionType == Some(EmptyPotion) && customEffects == [] {
            color := NoColor;
          } else {
            color := potionColor(potionType, customEffects, legacy);
          }
        } else {
          fixedColor := true;
          color := stack.potion.color.value;
        }
        potion := Some(Carrier(potionType, customEffects));
      } else if stack.material == ArrowItem {
        fixedColor := false;
        color := NoColor;
        potion := Some(EmptyCarrier);
      }
    }

    /**
     * The arrow's own part of `update`, after the superclass has moved it: an arrow
     * stuck for 600 ticks or more that still carries custom effects uses them up.
     */
    method Update(onGround: bool, stuckTime: int)
      requires potion.Some?
      modifies this
      ensures potion.Some?
      ensures onGround && stuckTime >= EffectTimeout && old(potion).value.customEffects != [] ==>
        potion == Some(EmptyCarrier) && !fixedColor && color == NoColor
      ensures !(onGround && stuckTime >= EffectTimeout && old(potion).value.customEffects != []) ==>
        potion == old(potion) && fixedColor == old(fixedColor) && color == old(color)
      ensures old(potion).value.customEffects == [] ==>
        potion == old(potion) && fixedColor == old(fixedColor) && color == old(color)
    {
      if onGround && stuckTime >= EffectTimeout && potion.value.customEffects != [] {
        fixedColor := false;
        color := NoColor;
        potion := Some(EmptyCarrier);
      }
    }

    /**
     * `onHurt`: the applications to the hurt entity, in order: the base type's
     * effects (durations divided by 8), then the custom effects at full duration.
     */
    method OnHurt() returns (applied: seq<Application>)
      requires potion.Some?
      ensures var base := BaseEffects(potionTypes(potion.value.potionType), legacy);
        && |applied| == |base| + |potion.value.customEffects|
        && (forall j :: 0 <= j < |base| ==> applied[j] == ApplyBase(base[j], isInstant))
        && (forall j :: 0 <= j < |potion.value.customEffects| ==>
              applied[|base| + j] == ApplyCustom(potion.value.customEffects[j], isInstant))
    {
      var base := BaseEffects(potionTypes(potion.value.potionType), legacy);
      applied := [];
      for i := 0 to |base|
        invariant |applied| == i
        invariant forall j :: 0 <= j < i ==> applied[j] == ApplyBase(base[j], isInstant)
      {
        applied := applied + [ApplyBase(base[i], isInstant)];
      }
      var custom := potion.value.customEffects;
      if custom == [] {
        return;
      }
      for i := 0 to |custom|
        invariant |applied| == |base| + i
        invariant forall j :: 0 <= j < |base| ==> applied[j] == ApplyBase(base[j], isInstant)
        invariant forall j :: 0 <= j < i ==> applied[|base| + j] == ApplyCustom(custom[j], isInstant)
      {
        applied := applied + [ApplyCustom(custom[i], isInstant)];
      }
    }

    /** `addPotion`: appends a custom effect and recomputes the colour, fixed or not. */
    method AddPotion(effect: CustomPotionEffect)
      requires potion.Some?
      modifies this
      ensures potion == Some(Carrier(old(potion).value.potionType, old(potion).value.customEffects + [effect]))
      ensures potion.value.customEffects[..|old(potion).value.customEffects|] == old(potion).value.customEffects
      ensures color == potionColor(potion.value.potionType, potion.value.customEffects, legacy)
      ensures fixedColor == old(fixedColor)
    {
      var c := potion.value;
      potion := Some(Carrier(c.potionType, c.customEffects + [effect]));
      color := potionColor(c.potionType, c.customEffects + [effect], legacy);
    }
  }

  /**
   * A tipped arrow with custom effects left stuck past the timeout loses its
   * effects and colour and is picked up as a plain arrow; a later timeout tick
   * changes nothing more.
   */
  method TimeoutIsIdempotent(a: Arrow, stack: ItemStack, stuckTime: int)
    requires stack.material == TippedArrowItem && stack.potion.customEffects != []
    requires stuckTime >= EffectTimeout
    modifies a
    ensures a.potion == Some(EmptyCarrier) && !a.fixedColor && a.color == NoColor
    ensures a.PickupItem() == DefaultArrow
  {
    a.InheritEffects(stack);
    a.Update(true, stuckTime);
    assert a.potion == Some(EmptyCarrier);
    a.Update(true, stuckTime + 1);
  }
}
