/**
 * The thrown trident: its loyalty level and glint, the per-tick decision to fly
 * back to its owner or to drop and disappear, the single hit it deals, who may
 * pick it up, and when the superclass's despawn timer runs.
 *
 * The shooter is a weak reference: every operation gets the entity it resolves
 * to at that moment (None when it resolves to nothing). The superclass's own
 * rules (`canHit`, `canBePickedUp`, `pickup`) reach the model as their results.
 */
module Trident {
  import opened Common
  import opened CustomEnchantments
  import EnchantmentUtils

  /** The superclass's pickup policy. */
  datatype PickupMode = Disallowed | Allowed | CreativeOnly

  /** A trident's base damage, 8.0, in quarter points. */
  const BaseDamage: Quarters := 32

  /** The damage dealt: its amount and the entity credited with it (None: the trident itself). */
  datatype Damage = Damage(amount: Quarters, attacker: Option<nat>)

  /** What a hit did: nothing, or damage followed by the reactions it triggered. */
  datatype HitOutcome =
    | Ignored
    | Struck(damage: Damage, userReactions: seq<EnchantmentUtils.Reaction>, targetReactions: seq<EnchantmentUtils.Reaction>)

  /** A shooter that can no longer receive the trident: removed, dead, or a spectator. */
  predicate ShooterGone(shooter: Entity) {
    shooter.removed || (IsLiving(shooter) && shooter.dead) || IsSpectator(shooter)
  }

  predicate SameEntity(a: Option<Entity>, b: Entity) {
    a.Some? && a.value.id == b.id
  }

  class ThrownTrident {
    const legacy: bool
    const tridentItem: ItemStack
    /** The loyalty level written to the entity metadata. */
    const loyalty: int
    /** Whether the entity metadata shows the enchantment glint. */
    const hasGlint: bool

    var pickupMode: PickupMode
    var damageDone: bool
    var hasStartedReturning: bool
    var noClip: bool
    var noGravity: bool
    var removed: bool
    /** Items dropped into the world (`spawnItemAtLocation`), in order. */
    var dropped: seq<ItemStack>
    /** How often the return sound has played. */
    var returnSounds: nat

    ghost predicate Valid()
      reads this
    {
      && 0 <= loyalty <= EnchantmentUtils.MaxLevel
      && returnSounds == (if hasStartedReturning then 1 else 0)
      && (forall i :: 0 <= i < |dropped| ==> dropped[i] == tridentItem)
      && (dropped != [] ==> removed)
    }

    /** The constructor: loyalty from the item's clamped LOYALTY level; glint iff enchanted. */
    constructor (legacy: bool, tridentItem: ItemStack, pickupMode: PickupMode)
      ensures Valid()
      ensures this.legacy == legacy && this.tridentItem == tridentItem && this.pickupMode == pickupMode
      ensures loyalty == EnchantmentUtils.GetLevel(Loyalty, tridentItem)
      ensures 0 <= loyalty <= 255
      ensures hasGlint <==> tridentItem.enchantments != map[]
      ensures !damageDone && !hasStartedReturning && !noClip && !noGravity && !removed
      ensures dropped == [] && returnSounds == 0
      ensures PickupItem() == tridentItem
    {
      this.legacy := legacy;
      this.tridentItem := tridentItem;
      this.pickupMode := pickupMode;
      loyalty := EnchantmentUtils.GetLevel(Loyalty, tridentItem);
      hasGlint := tridentItem.enchantments != map[];
      damageDone, hasStartedReturning, noClip, noGravity, removed := false, false, false, false, false;
      dropped, returnSounds := [], 0;
    }

    /** `getPickupItem`: always the item the trident was thrown as. */
    function PickupItem(): (item: ItemStack)
      reads this
      ensures item == tridentItem
    {
      tridentItem
    }

    /**
     * Whether a tick at `stuckTime` acts on the shooter: the trident is loyal, has
     * done damage (counting this tick's stuck time) or is in no-clip mode, and the
     * shooter still resolves to an entity.
     */
    predicate ActsOnShooter(stuckTime: int, shooter: Option<Entity>)
      reads this
    {
      loyalty > 0 && (damageDone || stuckTime > 4 || noClip) && shooter.Some?
    }

    /**
     * The trident's own part of `update`, before the superclass moves it: more than
     * 4 stuck ticks count as damage done; a loyal trident that has done damage (or
     * is already returning) either drops and disappears, when its shooter is gone,
     * or switches to no-clip, no-gravity flight home, playing the return sound once.
     */
    method Update(stuckTime: int, shooter: Option<Entity>)
      requires Valid()
      modifies this
      ensures Valid()
      ensures damageDone == (old(damageDone) || stuckTime > 4)
      ensures pickupMode == old(pickupMode)
      ensures !old(ActsOnShooter(stuckTime, shooter)) ==>
        && noClip == old(noClip) && noGravity == old(noGravity)
        && hasStartedReturning == old(hasStartedReturning)
        && removed == old(removed) && dropped == old(dropped)
      ensures old(ActsOnShooter(stuckTime, shooter)) && ShooterGone(shooter.value) ==>
        && removed
        && dropped == old(dropped) + (if pickupMode == Allowed then [tridentItem] else [])
        && noClip == old(noClip) && noGravity == old(noGravity)
        && hasStartedReturning == old(hasStartedReturning)
      ensures old(ActsOnShooter(stuckTime, shooter)) && !ShooterGone(shooter.value) ==>
        && noClip && noGravity && hasStartedReturning
        && removed == old(removed) && dropped == old(dropped)
      ensures old(hasStartedReturning) ==> hasStartedReturning && returnSounds == old(returnSounds)
    {
      if stuckTime > 4 {
        damageDone := true;
      }
      if loyalty > 0 && (damageDone || noClip) && shooter.Some? {
        var s := shooter.value;
        if s.removed || (IsLiving(s) && s.dead) || IsSpectator(s) {
          if pickupMode == Allowed {
            dropped := dropped + [tridentItem];
          }
          removed := true;
        } else {
          noClip := true;
          noGravity := true;
          if !hasStartedReturning {
            returnSounds := returnSounds + 1;
            hasStartedReturning := true;
          }
        }
      }
    }

    /** `canHit`: never once damage is done; otherwise the superclass's verdict. */
    predicate CanHit(superCanHit: bool)
      reads this
      ensures CanHit(superCanHit) <==> !damageDone && superCanHit
    {
      !damageDone && superCanHit
    }

    /**
     * `onHit`: a trident that has not yet done damage and strikes a living entity
     * deals 8 plus its enchantments' bonus against the target's group, credited to
     * the shooter if there is one; the enchantment reactions fire only when the
     * damage landed and the shooter is living. It never reports the hit as final.
     */
    method OnHit(reg: Registry, target: Entity, shooter: Option<Entity>, landed: bool) returns (final: bool, outcome: HitOutcome)
      requires Valid()
      requires !damageDone && IsLiving(target) ==> Registered(reg, [tridentItem])
      requires !damageDone && IsLiving(target) && landed && shooter.Some? && IsLiving(shooter.value) ==>
        && Registered(reg, EnchantmentUtils.DispatchStacks(target.equipment))
        && Registered(reg, EnchantmentUtils.DispatchStacks(shooter.value.equipment))
      modifies this
      ensures Valid()
      ensures !final
      ensures old(damageDone) || !IsLiving(target) ==> outcome == Ignored && damageDone == old(damageDone)
      ensures !old(damageDone) && IsLiving(target) ==>
        && damageDone
        && outcome.Struck?
        && outcome.damage.amount == BaseDamage + EnchantmentUtils.StackAttackDamage(reg, tridentItem, target.group, legacy)
        && outcome.damage.attacker == (if shooter.Some? then Some(shooter.value.id) else None)
      ensures outcome.Struck? && !(landed && shooter.Some? && IsLiving(shooter.value)) ==>
        outcome.userReactions == [] && outcome.targetReactions == []
      ensures outcome.Struck? && landed && shooter.Some? && IsLiving(shooter.value) ==>
        && EnchantmentUtils.ReactionTrace(reg, EnchantmentUtils.UserDamaged, target, shooter.value, outcome.userReactions)
        && EnchantmentUtils.ReactionTrace(reg, EnchantmentUtils.TargetDamaged, shooter.value, target, outcome.targetReactions)
      ensures hasStartedReturning == old(hasStartedReturning) && noClip == old(noClip) && noGravity == old(noGravity)
      ensures removed == old(removed) && dropped == old(dropped) && returnSounds == old(returnSounds)
      ensures pickupMode == old(pickupMode)
    {
      if damageDone || !IsLiving(target) {
        return false, Ignored;
      }
      var bonus := EnchantmentUtils.GetAttackDamage(reg, tridentItem, target.group, legacy);
      var damage := Damage(BaseDamage + bonus, if shooter.Some? then Some(shooter.value.id) else None);
      var userReactions, targetReactions := [], [];
      if landed && shooter.Some? && IsLiving(shooter.value) {
        userReactions := EnchantmentUtils.OnUserDamaged(reg, Some(target), shooter.value);
        targetReactions := EnchantmentUtils.OnTargetDamaged(reg, shooter, target);
      }
      damageDone := true;
      return false, Struck(damage, userReactions, targetReactions);
    }

    /**
     * `canBePickedUp`: true with no player; for a player, the superclass's verdict
     * when the player is the shooter or there is no shooter, else false.
     */
    function CanBePickedUp(player: Option<Entity>, shooter: Option<Entity>, superCanBePickedUp: bool): (ok: bool)
      ensures player.None? ==> ok
      ensures player.Some? && shooter.Some? && shooter.value.id != player.value.id ==> !ok
      ensures player.Some? && (shooter.None? || shooter.value.id == player.value.id) ==> (ok <==> superCanBePickedUp)
    {
      if player.None? then true
      else if SameEntity(shooter, player.value) || shooter.None? then superCanBePickedUp
      else false
    }

    /**
     * `pickup`: the superclass's pickup, or else, for a returning trident and its
     * own shooter, adding the item to the shooter's inventory. `triedInventory`
     * says whether the inventory was asked; `inventoryAccepts` is its answer.
     */
    method Pickup(player: Entity, shooter: Option<Entity>, superPickup: bool, inventoryAccepts: bool)
      returns (ok: bool, triedInventory: bool)
      ensures triedInventory <==> !superPickup && noClip && SameEntity(shooter, player)
      ensures ok <==> superPickup || (noClip && SameEntity(shooter, player) && inventoryAccepts)
    {
      triedInventory := false;
      ok := superPickup;
      if !ok && noClip && SameEntity(shooter, player) {
        triedInventory := true;
        ok := inventoryAccepts;
      }
    }

    /** `tickRemoval`: the superclass's despawn timer runs unless the trident is loyal and may be picked up. */
    function RunsSuperTickRemoval(): (runs: bool)
      reads this
      ensures !runs <==> pickupMode == Allowed && loyalty > 0
    {
      pickupMode != Allowed || loyalty <= 0
    }
  }

  /**
   * A loyal trident that hits a living target, while its shooter stays alive and
   * is no spectator, turns back toward the shooter on its next tick instead of
   * staying stuck, and plays the return sound exactly once.
   */
  method ReturnAfterHit(reg: Registry, item: ItemStack, target: Entity, shooter: Entity, landed: bool)
    returns (t: ThrownTrident)
    requires item.enchantments == map[Loyalty := 3]
    requires reg.get(Loyalty).Some?
    requires IsLiving(target) && !ShooterGone(shooter)
    requires Registered(reg, EnchantmentUtils.DispatchStacks(target.equipment))
    requires Registered(reg, EnchantmentUtils.DispatchStacks(shooter.equipment))
    ensures t.loyalty == 3
    ensures t.damageDone && t.noClip && t.noGravity && t.hasStartedReturning && !t.removed
    ensures t.returnSounds == 1
  {
    t := new ThrownTrident(false, item, Allowed);
    assert Registered(reg, [t.tridentItem]);
    var final, outcome := t.OnHit(reg, target, Some(shooter), landed);
    t.Update(0, Some(shooter));
    t.Update(1, Some(shooter));
  }

  /**
   * A trident strikes at most once: after a hit on a living entity, a second hit
   * on any entity is ignored and it can no longer hit anything.
   */
  method StrikesOnce(t: ThrownTrident, reg: Registry, first: Entity, second: Entity, shooter: Option<Entity>, superCanHit: bool)
    returns (hit1: HitOutcome, hit2: HitOutcome)
    requires t.Valid() && !t.damageDone && IsLiving(first)
    requires Registered(reg, [t.tridentItem])
    requires shooter.Some? && IsLiving(shooter.value) ==>
      && Registered(reg, EnchantmentUtils.DispatchStacks(first.equipment))
      && Registered(reg, EnchantmentUtils.DispatchStacks(shooter.value.equipment))
    modifies t
    ensures hit1.Struck? && hit2 == Ignored
    ensures t.damageDone && !t.CanHit(superCanHit)
  {
    var final1, final2;
    final1, hit1 := t.OnHit(reg, first, shooter, true);
    final2, hit2 := t.OnHit(reg, second, shooter, true);
  }
}
