# Enchantments, tipped arrows and loyal tridents of MinestomPvP, in Dafny

This project models four pieces of the combat logic of MinestomPvP, a
player-versus-player library for the Minestom game server:

- **Enchantment queries** (`EnchantmentUtils`). They cover:
  - the clamped level of one enchantment on an item;
  - the highest level of an enchantment over an entity's equipment;
  - the random pick among the qualifying equipment slots;
  - the sums of protection amounts and attack-damage bonuses;
  - the unbreaking "skip durability loss" rule and the blast-protection knockback reduction;
  - the fixed-order dispatch of on-hit reactions over boots, leggings, chestplate, helmet, main hand and off hand.
- **The damage enchantments** (`DamageEnchantment`): the bonus table for sharpness, smite and bane of arthropods, and bane of arthropods' slowness reaction.
- **The tipped-arrow projectile** (`PotionArrow.Arrow`). It holds a potion carrier: a base potion type, an ordered list of custom effects, a fixed-colour flag and a colour. It covers:
  - how the carrier is built from the item the arrow was shot from;
  - the 600-tick stuck timeout that uses the effects up;
  - the effects applied on hit;
  - appending an effect;
  - the item a player picks up.
- **The thrown trident** (`Trident.ThrownTrident`). It covers:
  - the loyalty and glint metadata;
  - the per-tick choice between flying home and dropping and disappearing;
  - the single hit it deals;
  - who may pick it up;
  - when the superclass's despawn timer runs.

## Modelling conventions

- Damage is counted in quarter points (`Common.Quarters`), because every damage constant is a multiple of 0.25. A trident's 8.0 base damage is therefore 32.
- A Java `Map`'s iteration order is not fixed, so a loop over a map takes its keys in an arbitrary order (`:|`).
- Each such loop is proved against an order-free specification:
  - `SumOver` for sums, with `SumOverRemove` showing that any key may come first;
  - `IsHighest`/`EquipmentLevel` for maxima.
- The enchantment registry (`CustomEnchantments.Registry`) is a record of functions. Behaviour outside this model is a parameter of the registry, except damage enchantments, which dispatch to `DamageEnchantment.AttackDamage`. The parameter behaviour is:
  - the lookup `get`, which yields None where the source yields null;
  - each other enchantment's protection amount;
  - each other enchantment's attack bonus.
- The source dereferences the lookup result without a null check in `getAttackDamage` and in the consumers that `getProtectionAmount`, `onUserDamaged` and `onTargetDamaged` hand to `forEachEnchantment`. Where it does, the model requires every enchantment present to be registered (`Registered`). `forEachEnchantment` itself only passes the possibly-null result on; the `Registered` requirement of `ForEachEnchantment` stands for its callers' dereference, because a visit records the registered enchantment.
- Random draws are parameters. They are either a `nextInt` function whose values lie in `[0, bound)`, or the drawn values themselves.
- The colour mixing, the potion-type effect tables and the instant-effect test are `const` function fields of `Arrow`.
- The trident's shooter is a weak reference. It is passed to each operation as the entity it resolves to at that moment.
- The superclass's own verdicts (`canHit`, `canBePickedUp`, `pickup`) are parameters.
- The source files come from two package snapshots. One passes the ruleset as a `CombatVersion`, the other as a `boolean legacy`. Here it is a single `legacy: bool` throughout.

## Model

| member | source | states |
|---|---|---|
| DamageEnchantment.AttackDamage | src/main/java/io/github/togar2/pvp/enchantment/enchantments/DamageEnchantment.java:26-35 | ALL gives 1.25 per level (legacy) or 1 + 0.5 per level above the first (current); UNDEAD and ARTHROPODS give 2.5 per level against their own group and 0 otherwise; a non-negative level gives a non-negative bonus |
| DamageEnchantment.RulesetOnlyAffectsAll | src/main/java/io/github/togar2/pvp/enchantment/enchantments/DamageEnchantment.java:26-35 | for UNDEAD and ARTHROPODS the legacy and current rulesets give the same bonus at every level and group |
| DamageEnchantment.CurrentFirstLevelGivesOnePoint | src/main/java/io/github/togar2/pvp/enchantment/enchantments/DamageEnchantment.java:29 | under the current ruleset, ALL at level 1 gives exactly 1.0 |
| DamageEnchantment.AttackDamageMonotone | src/main/java/io/github/togar2/pvp/enchantment/enchantments/DamageEnchantment.java:26-35 | for fixed type, group and ruleset, a higher non-negative level never gives a smaller bonus |
| DamageEnchantment.OnTargetDamaged | src/main/java/io/github/togar2/pvp/enchantment/enchantments/DamageEnchantment.java:38-45 | an effect is applied exactly when the type is ARTHROPODS and the target is a living arthropod; it is slowness at amplifier 3 with default flags and a duration in [20, 20 + 10·level) |
| CustomEnchantments.AttackDamageOf | src/main/java/io/github/togar2/pvp/enchantment/EnchantmentUtils.java:84 | the virtual `getAttackDamage` call: a damage enchantment gives `DamageEnchantment.AttackDamage` of its type, non-negative at a non-negative level; any other gives its own registered bonus |
| EnchantmentUtils.GetLevel | src/main/java/io/github/togar2/pvp/enchantment/EnchantmentUtils.java:21-26 | result in [0, 255]; 0 for an absent enchantment; an in-range stored level unchanged, a negative one 0, one above 255 clamped to 255 |
| EnchantmentUtils.HighestIn | src/main/java/io/github/togar2/pvp/enchantment/EnchantmentUtils.java:33-42 | the scan's result lies in [0, 255], is at least the level of every scanned slot, and is 0 or one of those levels |
| EnchantmentUtils.EquipmentLevel | src/main/java/io/github/togar2/pvp/enchantment/EnchantmentUtils.java:28-43 | 0 for a missing enchantment; otherwise the highest level over the enchantment's equipment slots (`IsHighest`), in [0, 255] |
| EnchantmentUtils.HighestIsUnique | src/main/java/io/github/togar2/pvp/enchantment/EnchantmentUtils.java:28-43 | two non-negative levels that both satisfy `IsHighest` are equal |
| EnchantmentUtils.ScanOrderIrrelevant | src/main/java/io/github/togar2/pvp/enchantment/EnchantmentUtils.java:31-40 | scanning the slots in any two orders that list them all gives the same highest level |
| EnchantmentUtils.GetEquipmentLevel | src/main/java/io/github/togar2/pvp/enchantment/EnchantmentUtils.java:28-43 | the loop over the equipment map, in whatever order it yields, returns `EquipmentLevel` |
| EnchantmentUtils.GetKnockback | src/main/java/io/github/togar2/pvp/enchantment/EnchantmentUtils.java:128-130 | the equipment level of the registered knockback enchantment |
| EnchantmentUtils.GetSweeping | src/main/java/io/github/togar2/pvp/enchantment/EnchantmentUtils.java:132-134 | the equipment level of the registered sweeping enchantment |
| EnchantmentUtils.GetFireAspect | src/main/java/io/github/togar2/pvp/enchantment/EnchantmentUtils.java:136-138 | the equipment level of the registered fire-aspect enchantment |
| EnchantmentUtils.GetBlockEfficiency | src/main/java/io/github/togar2/pvp/enchantment/EnchantmentUtils.java:140-142 | the equipment level of the registered efficiency enchantment |
| EnchantmentUtils.PickRandom | src/main/java/io/github/togar2/pvp/enchantment/EnchantmentUtils.java:45-61 | candidates are exactly the non-air slots with level > 0, each listed once; no pick iff there is no candidate (an empty equipment map included); a pick is the candidate at the drawn index, with its own stack, and qualifies; hence no pick exactly when no slot of the enchantment qualifies, and a pick is a qualifying slot of the enchantment with that slot's stack |
| EnchantmentUtils.PickExistsIffQualifying | src/main/java/io/github/togar2/pvp/enchantment/EnchantmentUtils.java:45-61 | the pick is missing exactly when no slot of the enchantment holds a non-air stack with a positive level |
| EnchantmentUtils.SumOverRemove | src/main/java/io/github/togar2/pvp/enchantment/EnchantmentUtils.java:63-72 | any enchantment of a stack may be added first: the sum over a stack's enchantments does not depend on the map's iteration order |
| EnchantmentUtils.SumOverNonNegative | src/main/java/io/github/togar2/pvp/enchantment/EnchantmentUtils.java:80-88 | a sum of non-negative per-enchantment contributions is non-negative |
| EnchantmentUtils.SumEnchantments | src/main/java/io/github/togar2/pvp/enchantment/EnchantmentUtils.java:63-72 | the accumulating consumer over one stack, in map order, yields the order-free sum `SumOver` |
| EnchantmentUtils.ProtectionTotalAppend | src/main/java/io/github/togar2/pvp/enchantment/EnchantmentUtils.java:74-78 | the protection total of two lists of stacks, one after the other, is the sum of their totals |
| EnchantmentUtils.ProtectionOfSinglePiece | src/main/java/io/github/togar2/pvp/enchantment/EnchantmentUtils.java:74-78 | one piece with one enchantment contributes exactly that enchantment's protection amount, with no cap |
| EnchantmentUtils.GetProtectionAmount | src/main/java/io/github/togar2/pvp/enchantment/EnchantmentUtils.java:74-78 | the result is the uncapped sum of every enchantment's protection amount on every stack; empty equipment gives 0 |
| EnchantmentUtils.GetAttackDamage | src/main/java/io/github/togar2/pvp/enchantment/EnchantmentUtils.java:80-88 | the result is the sum of every enchantment's attack bonus on the stack |
| EnchantmentUtils.UnenchantedAddsNoDamage | src/main/java/io/github/togar2/pvp/enchantment/EnchantmentUtils.java:80-88 | an unenchanted stack adds no attack damage |
| EnchantmentUtils.DamageEnchantmentsAddNonNegative | src/main/java/io/github/togar2/pvp/enchantment/EnchantmentUtils.java:80-88 | a stack with only damage enchantments at non-negative levels adds non-negative damage |
| EnchantmentUtils.ShouldNotBreak | src/main/java/io/github/togar2/pvp/enchantment/EnchantmentUtils.java:90-97 | armour with a float draw below 0.6 always loses durability; otherwise loss is skipped exactly when the int draw from [0, level] is positive, so level 0 never skips |
| EnchantmentUtils.ExplosionKnockback | src/main/java/io/github/togar2/pvp/enchantment/EnchantmentUtils.java:101-105 | level 0 leaves the strength unchanged; a positive level takes off floor(strength·level·0.15), leaving at least strength·(1 − 0.15·level) and less than that plus 1; a non-negative strength never grows |
| EnchantmentUtils.GetExplosionKnockback | src/main/java/io/github/togar2/pvp/enchantment/EnchantmentUtils.java:99-106 | the reduction uses the highest blast-protection level over the equipment |
| EnchantmentUtils.VisitStack | src/main/java/io/github/togar2/pvp/enchantment/EnchantmentUtils.java:65-70 | the inner loop calls the consumer once for each enchantment of the stack, with its registered enchantment and stored level |
| EnchantmentUtils.AppendStackVisits | src/main/java/io/github/togar2/pvp/enchantment/EnchantmentUtils.java:64-71 | dispatching the first i stacks and then stack i dispatches the first i + 1 stacks |
| EnchantmentUtils.ForEachEnchantment | src/main/java/io/github/togar2/pvp/enchantment/EnchantmentUtils.java:63-72 | the consumer is called once per (stack, enchantment) pair, stack by stack in list order, with the stored level |
| EnchantmentUtils.DispatchStacks | src/main/java/io/github/togar2/pvp/enchantment/EnchantmentUtils.java:110-113 | the stacks are boots, leggings, chestplate, helmet, main hand and off hand, in that order |
| EnchantmentUtils.Dispatch | src/main/java/io/github/togar2/pvp/enchantment/EnchantmentUtils.java:108-126 | the reaction calls are one per enchantment of the user's equipment, in dispatch order, each naming the user and the other entity |
| EnchantmentUtils.OnUserDamaged | src/main/java/io/github/togar2/pvp/enchantment/EnchantmentUtils.java:108-116 | no calls for a missing user; otherwise the user-damaged dispatch over the user's equipment |
| EnchantmentUtils.OnTargetDamaged | src/main/java/io/github/togar2/pvp/enchantment/EnchantmentUtils.java:118-126 | no calls for a missing user; otherwise the target-damaged dispatch over the user's equipment |
| EnchantmentUtils.BootsBeforeMainHand | src/main/java/io/github/togar2/pvp/enchantment/EnchantmentUtils.java:110-113 | in a dispatch, every call for a stack at index 0 (the boots, by `DispatchStacks`) comes before every call for the stack at index 4 (the main hand) |
| PotionArrow.ColorFromInt | src/main/java/io/github/bloepiloepi/pvp/projectile/Arrow.java:141-143 | a colour already in 24-bit RGB range is returned unchanged |
| PotionArrow.BaseEffects | src/main/java/io/github/bloepiloepi/pvp/projectile/Arrow.java:90-92 | no base effects when the type is not registered; otherwise the legacy effect list under the legacy ruleset and the current list otherwise |
| PotionArrow.ApplyBase | src/main/java/io/github/bloepiloepi/pvp/projectile/Arrow.java:93-100 | an instant effect fires at its amplifier; any other is added with its flags and max(duration / 8, 1), which is at least 1 and the eighth of the duration rounded down |
| PotionArrow.ApplyCustom | src/main/java/io/github/bloepiloepi/pvp/projectile/Arrow.java:106-123 | an instant custom effect fires at its amplifier; any other is added at full duration with its own ambient, particle and icon flags |
| PotionArrow.Arrow.constructor | src/main/java/io/github/bloepiloepi/pvp/projectile/Arrow.java:34-41 | the carrier is unset, the colour is not fixed, and there is no colour |
| PotionArrow.Arrow.PickupItem | src/main/java/io/github/bloepiloepi/pvp/projectile/Arrow.java:127-147 | the plain arrow exactly when the carrier is EMPTY with no custom effects; otherwise an unenchanted tipped arrow with the non-EMPTY type, the custom effects, and the colour only if fixed |
| PotionArrow.Arrow.InheritEffects | src/main/java/io/github/bloepiloepi/pvp/projectile/Arrow.java:43-72 | a tipped arrow sets the carrier, the fixed-colour flag and the colour (given, none, or mixed); picking up then returns its type, effects and colour; a plain arrow resets to EMPTY, no colour, plain pickup; any other item changes nothing |
| PotionArrow.Arrow.Update | src/main/java/io/github/bloepiloepi/pvp/projectile/Arrow.java:75-86 | the carrier is reset (EMPTY, no effects, colour not fixed, no colour) exactly when the arrow is on the ground, stuck 600 ticks or more, and holds custom effects; a carrier with only a base type is never reset |
| PotionArrow.Arrow.OnHurt | src/main/java/io/github/bloepiloepi/pvp/projectile/Arrow.java:89-124 | the base type's effects of the ruleset (each via `ApplyBase`) come first, then every custom effect (via `ApplyCustom`), in list order |
| PotionArrow.Arrow.AddPotion | src/main/java/io/github/bloepiloepi/pvp/projectile/Arrow.java:149-153 | the effect is appended, earlier effects are kept, and the colour is recomputed whether or not it was fixed |
| PotionArrow.TimeoutIsIdempotent | src/main/java/io/github/bloepiloepi/pvp/projectile/Arrow.java:78-85 | a tipped arrow with custom effects that times out becomes a plain arrow, and a second timeout tick changes nothing |
| Trident.ThrownTrident.constructor | src/main/java/io/github/togar2/pvp/projectile/ThrownTrident.java:25-34 | loyalty is the item's clamped LOYALTY level, in [0, 255]; glint is shown exactly when the item has an enchantment; all flags start false; the pickup item is the thrown item |
| Trident.ThrownTrident.Update | src/main/java/io/github/togar2/pvp/projectile/ThrownTrident.java:37-65 | damage counts as done once stuck more than 4 ticks. With loyalty, damage done or no-clip, and a shooter: a removed, dead or spectating shooter removes the trident, dropping it only under ALLOWED; otherwise no-clip and no-gravity are set and the return sound plays only once. In any other case nothing changes |
| Trident.ThrownTrident.PickupItem | src/main/java/io/github/togar2/pvp/projectile/ThrownTrident.java:125-127 | the pickup item is always the item the trident was thrown as |
| Trident.ThrownTrident.CanHit | src/main/java/io/github/togar2/pvp/projectile/ThrownTrident.java:71-73 | the trident can hit only while no damage is done and the superclass allows it |
| Trident.ThrownTrident.OnHit | src/main/java/io/github/togar2/pvp/projectile/ThrownTrident.java:76-96 | never final. Ignored once damage is done or for a non-living target. Otherwise 8 plus the item's bonus against the target's group, credited to the shooter if any, and damage becomes done. The reactions fire only when the hit landed and the shooter is living |
| Trident.ThrownTrident.CanBePickedUp | src/main/java/io/github/togar2/pvp/projectile/ThrownTrident.java:99-104 | true with no player; false for a player other than an existing shooter; otherwise the superclass's verdict |
| Trident.ThrownTrident.Pickup | src/main/java/io/github/togar2/pvp/projectile/ThrownTrident.java:107-110 | succeeds by the superclass's pickup, or else when in no-clip mode, the player is the shooter and the inventory accepts the item; the inventory is asked only in that second case |
| Trident.ThrownTrident.RunsSuperTickRemoval | src/main/java/io/github/togar2/pvp/projectile/ThrownTrident.java:113-117 | the despawn timer is skipped exactly when pickup is ALLOWED and loyalty is positive |
| Trident.ReturnAfterHit | src/main/java/io/github/togar2/pvp/projectile/ThrownTrident.java:37-96 | a loyalty-3 trident that hits a living target, with its shooter still present, flies home on the next ticks without being removed, and the return sound plays exactly once |
| Trident.StrikesOnce | src/main/java/io/github/togar2/pvp/projectile/ThrownTrident.java:71-96 | after a first hit on a living entity, a second hit is ignored and the trident can no longer hit |

## Left out

- Floating point. Damage is exact quarter points and the blast factor 0.15 is an exact real, whereas the source computes with `float` (`level * 0.15f` is inexact). The unbreaking draw is a real in [0, 1) compared with 0.6; for the 24-bit values `nextFloat` yields, this agrees with comparing against `0.6f`.
- EnchantmentUtils.GetProtectionAmount: does not model the 32-bit wrap-around of the `AtomicInteger` total, because the amounts of real equipment stay far below it; the sum is an unbounded integer.
- A null registry lookup dereferenced by `getAttackDamage`, or by the consumers of `getProtectionAmount`, `onUserDamaged` and `onTargetDamaged`, would throw. The model excludes it with `Registered` instead of modelling the exception.
- EnchantmentUtils.ShouldNotBreak: on the branch that draws the int, it requires 0 <= unbreakingLevel < 2^31 - 1. The source throws an `IllegalArgumentException` there for a negative level, and at `Integer.MAX_VALUE`, where `unbreakingLevel + 1` overflows to a negative bound. The model does not model that exception.
- DamageEnchantment.OnTargetDamaged: against a living arthropod with type ARTHROPODS, it requires level >= 1. The source throws an `IllegalArgumentException` from `nextInt(10 * level)` for a level of 0 or less. Such a level is reachable because the dispatch passes the stored, unclamped level. The model does not model that exception.
- `CustomEnchantment.getEquipment` is not part of this model. It is taken to be the entity's stacks in the enchantment's slot types (`EquipmentFor`).
- Behaviour of other enchantments is not modelled. Their protection amounts, attack bonuses and reactions are registry parameters. A reaction is recorded as a call (`Reaction`); its effect on the entities is not modelled.
- PotionArrow.Arrow.InheritEffects: a tipped arrow whose type is null keeps None in the carrier, where the source keeps the `PotionMeta.Builder` default type (not part of this model).
- PotionArrow.Arrow.Update: the methods that use the carrier require it to be set. The source throws a `NullPointerException` when `update`, `onHurt`, `getPickupItem` or `addPotion` runs before `inheritEffects` has seen an arrow or a tipped arrow.
- PotionArrow.Arrow.AddPotion: appends to the arrow's own list. The source appends in place to a list that may be shared with the item the arrow was shot from; that aliasing is not modelled.
- PotionArrow.Arrow.OnHurt: `PotionEffect.fromId` is taken to resolve every custom effect, whereas the source throws on an unknown id. The instant-effect test, the instant-effect application and the entity's effect set are represented by the returned list of applications.
- `ARROW_PREDICATE` and `ARROW_OR_FIREWORK_PREDICATE` are material tests used by callers outside the core; they are not modelled.
- `PotionFlags.defaultFlags()` is not part of this model; it is taken to be "not ambient, with particles, with icon" (`DefaultFlags`).
- Sounds, particles and metadata packets (`triggerStatus`, `playSound`) are left out. The trident counts its return sounds (`returnSounds`), and both projectiles keep their metadata (colour, loyalty, glint) as fields.
- The trident's vector physics is left out: its position, its velocity and the homing steering toward the shooter's eyes.
- The `AbstractArrow` superclass is not part of this model:
  - its `update` after the trident's own part;
  - its `canHit`, `canBePickedUp`, `pickup` and `tickRemoval`;
  - the `damage` call's verdict (`landed`);
  - the inventory's acceptance of an item.

  The model takes each of these as a parameter or leaves it out.
- The shooter lookup is a parameter, and so is the entity each reaction concerns. The dispatch order comes from the source.
- Food, configuration, commands and the item-damage interface are not part of this model. They are registration, configuration holders and plumbing, with no behaviour of their own to verify.
