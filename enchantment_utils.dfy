/**
 * Enchantment queries over item stacks and equipment: the clamped level of one
 * enchantment, the highest level across an entity's equipment, the random pick
 * among qualifying slots, the sums of protection amounts and attack-damage
 * bonuses, the unbreaking and blast-protection rules, and the fixed-order
 * dispatch of on-hit reactions.
 *
 * Java maps iterate in an order the code does not control; the methods below
 * take the keys in an arbitrary order (`:|`) and are proved against order-free
 * specifications.
 */
module EnchantmentUtils {
  import opened Common
  import opened CustomEnchantments

  const MaxLevel := 255

  /** `MathUtils.clamp` on ints. */
  function Clamp(x: int, lo: int, hi: int): int
    requires lo <= hi
  {
    if x < lo then lo else if x > hi then hi else x
  }

  // ---------------------------------------------------------------------------
  // Levels

  /** The level of `e` on `stack`: 0 when absent, else the stored level clamped into [0, 255]. */
  function GetLevel(e: Enchantment, stack: ItemStack): (level: Short)
    ensures 0 <= level <= MaxLevel
    ensures e !in stack.enchantments ==> level == 0
    ensures e in stack.enchantments && 0 <= stack.enchantments[e] <= MaxLevel ==> level == stack.enchantments[e]
    ensures e in stack.enchantments && stack.enchantments[e] < 0 ==> level == 0
    ensures e in stack.enchantments && stack.enchantments[e] > MaxLevel ==> level == MaxLevel
  {
    if e in stack.enchantments then Clamp(stack.enchantments[e], 0, MaxLevel) else 0
  }

  /** A fixed enumeration of every equipment slot. */
  const AllSlots: seq<EquipmentSlot> := [MainHand, OffHand, Boots, Leggings, Chestplate, Helmet]

  lemma AllSlotsComplete(s: EquipmentSlot)
    ensures s in AllSlots
  {
  }

  /** `level` is the highest level of `e` among `stacks`, or 0 when none has it. */
  ghost predicate IsHighest(e: Enchantment, stacks: map<EquipmentSlot, ItemStack>, level: int) {
    && (forall s :: s in stacks ==> GetLevel(e, stacks[s]) <= level)
    && (level == 0 || exists s :: s in stacks && GetLevel(e, stacks[s]) == level)
  }

  /** The highest level of `e` among the stacks whose slots `order` lists, scanning in that order. */
  function HighestIn(e: Enchantment, stacks: map<EquipmentSlot, ItemStack>, order: seq<EquipmentSlot>): (level: Short)
    ensures 0 <= level <= MaxLevel
    ensures forall s :: s in stacks && s in order ==> GetLevel(e, stacks[s]) <= level
    ensures level == 0 || exists s :: s in stacks && s in order && GetLevel(e, stacks[s]) == level
  {
    if order == [] then 0
    else
      var rest := HighestIn(e, stacks, order[1..]);
      var here := if order[0] in stacks then GetLevel(e, stacks[order[0]]) else 0;
      if here > rest then here else rest
  }

  /**
   * `getEquipmentLevel`: 0 for a missing (null) enchantment, otherwise the highest
   * level of it over the entity's stacks in the enchantment's slots.
   */
  function EquipmentLevel(ce: Option<CustomEnchantment>, equipment: Equipment): (level: Short)
    ensures 0 <= level <= MaxLevel
    ensures ce.None? ==> level == 0
    ensures ce.Some? ==> IsHighest(ce.value.enchantment, EquipmentFor(ce.value, equipment), level)
  {
    if ce.None? then 0
    else
      var stacks := EquipmentFor(ce.value, equipment);
      var level := HighestIn(ce.value.enchantment, stacks, AllSlots);
      assert forall s :: s in stacks ==> s in AllSlots by {
        forall s | s in stacks { AllSlotsComplete(s); }
      }
      level
  }

  /** Two levels that are both the highest agree: the maximum does not depend on how it was found. */
  lemma HighestIsUnique(e: Enchantment, stacks: map<EquipmentSlot, ItemStack>, a: int, b: int)
    requires a >= 0 && b >= 0
    requires IsHighest(e, stacks, a) && IsHighest(e, stacks, b)
    ensures a == b
  {
  }

  /** Scanning the slots in any order that lists them all finds the same level. */
  lemma {:induction false} ScanOrderIrrelevant(
    e: Enchantment, stacks: map<EquipmentSlot, ItemStack>, order1: seq<EquipmentSlot>, order2: seq<EquipmentSlot>)
    requires forall s :: s in stacks ==> s in order1 && s in order2
    ensures HighestIn(e, stacks, order1) == HighestIn(e, stacks, order2)
  {
    var a, b := HighestIn(e, stacks, order1), HighestIn(e, stacks, order2);
    assert IsHighest(e, stacks, a);
    assert IsHighest(e, stacks, b);
    HighestIsUnique(e, stacks, a, b);
  }

  /**
   * The loop of `getEquipmentLevel`: visits the enchantment's stacks in whatever
   * order the map yields them and keeps the highest level seen.
   */
  method GetEquipmentLevel(ce: Option<CustomEnchantment>, equipment: Equipment) returns (highest: Short)
    ensures highest == EquipmentLevel(ce, equipment)
  {
    if ce.None? {
      return 0;
    }
    var e := ce.value.enchantment;
    var stacks := EquipmentFor(ce.value, equipment);
    var todo := stacks.Keys;
    highest := 0;
    while todo != {}
      invariant todo <= stacks.Keys
      invariant 0 <= highest <= MaxLevel
      invariant forall s :: s in stacks && s !in todo ==> GetLevel(e, stacks[s]) <= highest
      invariant highest == 0 || exists s :: s in stacks && s !in todo && GetLevel(e, stacks[s]) == highest
      decreases todo
    {
      var slot :| slot in todo;
      var level := GetLevel(e, stacks[slot]);
      if level > highest {
        highest := level;
      }
      todo := todo - {slot};
    }
    HighestIsUnique(e, stacks, highest, EquipmentLevel(ce, equipment));
  }

  /** `getKnockback`: the highest knockback level over the equipment. */
  method GetKnockback(reg: Registry, equipment: Equipment) returns (level: Short)
    ensures level == EquipmentLevel(reg.get(Knockback), equipment)
  {
    level := GetEquipmentLevel(reg.get(Knockback), equipment);
  }

  /** `getSweeping`: the highest sweeping edge level over the equipment. */
  method GetSweeping(reg: Registry, equipment: Equipment) returns (level: Short)
    ensures level == EquipmentLevel(reg.get(Sweeping), equipment)
  {
    level := GetEquipmentLevel(reg.get(Sweeping), equipment);
  }

  /** `getFireAspect`: the highest fire aspect level over the equipment. */
  method GetFireAspect(reg: Registry, equipment: Equipment) returns (level: Short)
    ensures level == EquipmentLevel(reg.get(FireAspect), equipment)
  {
    level := GetEquipmentLevel(reg.get(FireAspect), equipment);
  }

  /** `getBlockEfficiency`: the highest efficiency level over the equipment. */
  method GetBlockEfficiency(reg: Registry, equipment: Equipment) returns (level: Short)
    ensures level == EquipmentLevel(reg.get(Efficiency), equipment)
  {
    level := GetEquipmentLevel(reg.get(Efficiency), equipment);
  }

  // ---------------------------------------------------------------------------
  // Random pick

  /** A slot may be picked when its stack is not air and carries the enchantment. */
  predicate Qualifies(e: Enchantment, stack: ItemStack) {
    !IsAir(stack) && GetLevel(e, stack) > 0
  }

  /**
   * `pickRandom`: collects the qualifying entries of the enchantment's equipment
   * in map order into `candidates`, then takes the one `nextInt` selects; None
   * when there is none. `nextInt` stands for the random source's `nextInt(bound)`.
   */
  method PickRandom(ce: CustomEnchantment, equipment: Equipment, nextInt: int -> int)
    returns (picked: Option<(EquipmentSlot, ItemStack)>, ghost candidates: seq<EquipmentSlot>)
    requires forall n :: 0 < n ==> 0 <= nextInt(n) < n
    ensures forall i :: 0 <= i < |candidates| ==>
      candidates[i] in EquipmentFor(ce, equipment) && Qualifies(ce.enchantment, EquipmentFor(ce, equipment)[candidates[i]])
    ensures forall s :: s in EquipmentFor(ce, equipment) && Qualifies(ce.enchantment, EquipmentFor(ce, equipment)[s]) ==> s in candidates
    ensures forall i, j :: 0 <= i < j < |candidates| ==> candidates[i] != candidates[j]
    ensures picked.None? <==> candidates == []
    ensures picked.Some? ==>
      && picked.value.0 == candidates[nextInt(|candidates|)]
      && picked.value.0 in EquipmentFor(ce, equipment)
      && picked.value.1 == EquipmentFor(ce, equipment)[picked.value.0]
      && Qualifies(ce.enchantment, picked.value.1)
    ensures picked.None? <==> forall s :: s in ce.slotTypes ==> !Qualifies(ce.enchantment, equipment.Get(s))
    ensures picked.Some? ==>
      && picked.value.0 in ce.slotTypes
      && picked.value.1 == equipment.Get(picked.value.0)
      && Qualifies(ce.enchantment, picked.value.1)
  {
    var stacks := EquipmentFor(ce, equipment);
    candidates := [];
    if stacks == map[] {
      return None, candidates;
    }
    var possible: seq<(EquipmentSlot, ItemStack)> := [];
    var todo := stacks.Keys;
    while todo != {}
      invariant todo <= stacks.Keys
      invariant |possible| == |candidates|
      invariant forall i :: 0 <= i < |candidates| ==>
        && candidates[i] in stacks && candidates[i] !in todo
        && possible[i] == (candidates[i], stacks[candidates[i]])
        && Qualifies(ce.enchantment, stacks[candidates[i]])
      invariant forall s :: s in stacks && s !in todo && Qualifies(ce.enchantment, stacks[s]) ==> s in candidates
      invariant forall i, j :: 0 <= i < j < |candidates| ==> candidates[i] != candidates[j]
      decreases todo
    {
      var slot :| slot in todo;
      var stack := stacks[slot];
      if !IsAir(stack) && GetLevel(ce.enchantment, stack) > 0 {
        possible := possible + [(slot, stack)];
        candidates := candidates + [slot];
      }
      todo := todo - {slot};
    }
    if |possible| == 0 {
      picked := None;
    } else {
      picked := Some(possible[nextInt(|possible|)]);
    }
    PickExistsIffQualifying(ce, equipment, candidates, picked);
  }

  /** A pick exists exactly when some slot of the enchantment qualifies. */
  lemma {:induction false} PickExistsIffQualifying(
    ce: CustomEnchantment, equipment: Equipment, candidates: seq<EquipmentSlot>, picked: Option<(EquipmentSlot, ItemStack)>)
    requires forall i :: 0 <= i < |candidates| ==>
      candidates[i] in EquipmentFor(ce, equipment) && Qualifies(ce.enchantment, EquipmentFor(ce, equipment)[candidates[i]])
    requires forall s :: s in EquipmentFor(ce, equipment) && Qualifies(ce.enchantment, EquipmentFor(ce, equipment)[s]) ==> s in candidates
    requires picked.None? <==> candidates == []
    ensures picked.None? <==> forall s :: s in ce.slotTypes ==> !Qualifies(ce.enchantment, equipment.Get(s))
  {
    var stacks := EquipmentFor(ce, equipment);
    if candidates != [] {
      assert candidates[0] in ce.slotTypes && Qualifies(ce.enchantment, equipment.Get(candidates[0]));
    }
  }

  // ---------------------------------------------------------------------------
  // Sums over the enchantments of a stack

  ghost function PickKey(keys: set<Enchantment>): (k: Enchantment)
    requires keys != {}
    ensures k in keys
  {
    var k :| k in keys; k
  }

  /** The sum of `f(e, level)` over the enchantments `keys` of the map `m`, in no particular order. */
  ghost function SumOver(m: map<Enchantment, Short>, keys: set<Enchantment>, f: (Enchantment, Short) -> int): int
    requires keys <= m.Keys
    decreases keys
  {
    if keys == {} then 0
    else
      var k := PickKey(keys);
      f(k, m[k]) + SumOver(m, keys - {k}, f)
  }

  /** Any enchantment may be summed first: the sum does not depend on the iteration order. */
  lemma {:induction false} SumOverRemove(m: map<Enchantment, Short>, keys: set<Enchantment>, f: (Enchantment, Short) -> int, k: Enchantment)
    requires keys <= m.Keys && k in keys
    ensures SumOver(m, keys, f) == f(k, m[k]) + SumOver(m, keys - {k}, f)
    decreases keys
  {
    var j := PickKey(keys);
    if j != k {
      SumOverRemove(m, keys - {j}, f, k);
      SumOverRemove(m, keys - {k}, f, j);
      assert keys - {j} - {k} == keys - {k} - {j};
    }
  }

  /** A sum of non-negative contributions is non-negative. */
  lemma {:induction false} SumOverNonNegative(m: map<Enchantment, Short>, keys: set<Enchantment>, f: (Enchantment, Short) -> int)
    requires keys <= m.Keys
    requires forall e :: e in keys ==> f(e, m[e]) >= 0
    ensures SumOver(m, keys, f) >= 0
    decreases keys
  {
    if keys != {} {
      SumOverNonNegative(m, keys - {PickKey(keys)}, f);
    }
  }

  /**
   * The accumulating consumer of `forEachEnchantment` over one stack: adds
   * `f(e, level)` for every enchantment of `m`, taking them in map order.
   */
  method SumEnchantments(m: map<Enchantment, Short>, f: (Enchantment, Short) -> int) returns (total: int)
    ensures total == SumOver(m, m.Keys, f)
  {
    total := 0;
    var todo := m.Keys;
    while todo != {}
      invariant todo <= m.Keys
      invariant total + SumOver(m, todo, f) == SumOver(m, m.Keys, f)
      decreases todo
    {
      var e :| e in todo;
      SumOverRemove(m, todo, f, e);
      total := total + f(e, m[e]);
      todo := todo - {e};
    }
  }

  /** `enchantment.getProtectionAmount(level, typeInfo)` per enchantment key. */
  function ProtectionOf(reg: Registry, info: DamageTypeInfo): (Enchantment, Short) -> int {
    (e: Enchantment, level: Short) =>
      match reg.get(e)
      case Some(ce) => reg.protectionAmount(ce, level, info)
      case None => 0
  }

  /** The protection amounts of one stack's enchantments, summed. */
  ghost function StackProtection(reg: Registry, stack: ItemStack, info: DamageTypeInfo): int {
    SumOver(stack.enchantments, stack.enchantments.Keys, ProtectionOf(reg, info))
  }

  /** The protection amounts of all enchantments on all stacks, summed, with no cap. */
  ghost function ProtectionTotal(reg: Registry, stacks: seq<ItemStack>, info: DamageTypeInfo): int {
    if stacks == [] then 0
    else ProtectionTotal(reg, stacks[..|stacks| - 1], info) + StackProtection(reg, stacks[|stacks| - 1], info)
  }

  /** The total over a list of stacks is the total over its parts. */
  lemma {:induction false} ProtectionTotalAppend(reg: Registry, a: seq<ItemStack>, b: seq<ItemStack>, info: DamageTypeInfo)
    ensures ProtectionTotal(reg, a + b, info) == ProtectionTotal(reg, a, info) + ProtectionTotal(reg, b, info)
    decreases |b|
  {
    if b == [] {
      assert a + b == a;
    } else {
      var b' := b[..|b| - 1];
      assert (a + b)[..|a + b| - 1] == a + b';
      assert (a + b)[|a + b| - 1] == b[|b| - 1];
      ProtectionTotalAppend(reg, a, b', info);
    }
  }

  /** One enchanted piece counts with whatever amount its enchantment gives, uncapped. */
  lemma ProtectionOfSinglePiece(reg: Registry, e: Enchantment, ce: CustomEnchantment, level: Short, info: DamageTypeInfo)
    requires reg.get(e) == Some(ce)
    ensures ProtectionTotal(reg, [ItemStack(ArmorPiece("any"), map[e := level], NoPotionMeta)], info)
         == reg.protectionAmount(ce, level, info)
  {
    var stack := ItemStack(ArmorPiece("any"), map[e := level], NoPotionMeta);
    var m := stack.enchantments;
    assert [stack][..0] == [];
    assert m.Keys == {e};
    assert PickKey(m.Keys) == e;
    assert m.Keys - {e} == {};
    assert SumOver(m, m.Keys, ProtectionOf(reg, info)) == ProtectionOf(reg, info)(e, level);
    assert ProtectionTotal(reg, [stack], info) == StackProtection(reg, stack, info);
  }

  /** `getProtectionAmount`: the consumer adds every enchantment's amount on every stack. */
  method GetProtectionAmount(reg: Registry, equipment: seq<ItemStack>, info: DamageTypeInfo) returns (amount: int)
    requires Registered(reg, equipment)
    ensures amount == ProtectionTotal(reg, equipment, info)
    ensures equipment == [] ==> amount == 0
  {
    amount := 0;
    for i := 0 to |equipment|
      invariant amount == ProtectionTotal(reg, equipment[..i], info)
    {
      var here := SumEnchantments(equipment[i].enchantments, ProtectionOf(reg, info));
      assert equipment[..i + 1][..i] == equipment[..i];
      amount := amount + here;
    }
    assert equipment[..|equipment|] == equipment;
  }

  /** `customEnchantment.getAttackDamage(level, group, legacy)` per enchantment key. */
  function DamageOf(reg: Registry, group: EntityGroup, legacy: bool): (Enchantment, Short) -> Quarters {
    (e: Enchantment, level: Short) =>
      match reg.get(e)
      case Some(ce) => AttackDamageOf(reg, ce, level, group, legacy)
      case None => 0
  }

  /** The attack-damage bonuses of one stack's enchantments, summed. */
  ghost function StackAttackDamage(reg: Registry, stack: ItemStack, group: EntityGroup, legacy: bool): Quarters {
    SumOver(stack.enchantments, stack.enchantments.Keys, DamageOf(reg, group, legacy))
  }

  /** `getAttackDamage`: starts from 0 and adds each enchantment's bonus. */
  method GetAttackDamage(reg: Registry, stack: ItemStack, group: EntityGroup, legacy: bool) returns (bonus: Quarters)
    requires Registered(reg, [stack])
    ensures bonus == StackAttackDamage(reg, stack, group, legacy)
  {
    bonus := SumEnchantments(stack.enchantments, DamageOf(reg, group, legacy));
  }

  /** An unenchanted stack adds nothing. */
  lemma UnenchantedAddsNoDamage(reg: Registry, stack: ItemStack, group: EntityGroup, legacy: bool)
    requires stack.enchantments == map[]
    ensures StackAttackDamage(reg, stack, group, legacy) == 0
  {
  }

  /** A stack carrying only damage enchantments at non-negative levels never lowers the damage. */
  lemma DamageEnchantmentsAddNonNegative(reg: Registry, stack: ItemStack, group: EntityGroup, legacy: bool)
    requires forall e :: e in stack.enchantments ==>
      reg.get(e).Some? && reg.get(e).value.DamageKind? && stack.enchantments[e] >= 0
    ensures StackAttackDamage(reg, stack, group, legacy) >= 0
  {
    SumOverNonNegative(stack.enchantments, stack.enchantments.Keys, DamageOf(reg, group, legacy));
  }

  // ---------------------------------------------------------------------------
  // Unbreaking and blast protection

  /**
   * `shouldNotBreak`: an armour piece first loses durability whenever the float
   * draw is below 0.6; otherwise durability loss is skipped exactly when the int
   * draw from [0, unbreakingLevel] is positive. `floatDraw` and `intDraw` stand
   * for `nextFloat()` and `nextInt(unbreakingLevel + 1)`.
   */
  function ShouldNotBreak(item: ItemStack, unbreakingLevel: int, floatDraw: real, intDraw: int): (skip: bool)
    requires 0.0 <= floatDraw < 1.0
    requires !(IsArmor(item.material) && floatDraw < 0.6) ==>
      0 <= unbreakingLevel < 0x7fff_ffff && 0 <= intDraw <= unbreakingLevel
    ensures IsArmor(item.material) && floatDraw < 0.6 ==> !skip
    ensures !(IsArmor(item.material) && floatDraw < 0.6) ==> (skip <==> intDraw > 0)
    ensures unbreakingLevel == 0 ==> !skip
  {
    if IsArmor(item.material) && floatDraw < 0.6 then false
    else intDraw > 0
  }

  /**
   * The explosion strength after blast protection of the given level: level 0
   * leaves it as it is, a positive level takes off floor(strength * level * 0.15).
   */
  function ExplosionKnockback(level: int, strength: real): (r: real)
    ensures level <= 0 ==> r == strength
    ensures level > 0 ==> r == strength - (strength * (level as real * 0.15)).Floor as real
    ensures strength >= 0.0 ==> r <= strength
    ensures level > 0 ==>
      strength - strength * (level as real * 0.15) <= r < strength - strength * (level as real * 0.15) + 1.0
  {
    if level > 0 then
      var x := strength * (level as real * 0.15);
      assert strength >= 0.0 ==> x >= 0.0;
      strength - x.Floor as real
    else
      strength
  }

  /** `getExplosionKnockback`: the blast-protection level is the highest over the equipment. */
  method GetExplosionKnockback(reg: Registry, equipment: Equipment, strength: real) returns (r: real)
    ensures r == ExplosionKnockback(EquipmentLevel(reg.get(BlastProtection), equipment), strength)
  {
    var level := GetEquipmentLevel(reg.get(BlastProtection), equipment);
    r := ExplosionKnockback(level, strength);
  }

  // ---------------------------------------------------------------------------
  // Reaction dispatch

  /** One call of the consumer of `forEachEnchantment`: stack index, key, registered enchantment, stored level. */
  datatype Visit = Visit(stackIndex: nat, enchantment: Enchantment, custom: CustomEnchantment, level: Short)

  predicate VisitOf(reg: Registry, stacks: seq<ItemStack>, v: Visit) {
    && v.stackIndex < |stacks|
    && v.enchantment in stacks[v.stackIndex].enchantments
    && v.level == stacks[v.stackIndex].enchantments[v.enchantment]
    && reg.get(v.enchantment) == Some(v.custom)
  }

  /**
   * `visits` calls the consumer once per (stack, enchantment) pair of `stacks`,
   * stack by stack in list order, with the stored (unclamped) level.
   */
  ghost predicate DispatchTrace(reg: Registry, stacks: seq<ItemStack>, visits: seq<Visit>) {
    && (forall j :: 0 <= j < |visits| ==> VisitOf(reg, stacks, visits[j]))
    && (forall j, k :: 0 <= j < k < |visits| ==> visits[j].stackIndex <= visits[k].stackIndex)
    && (forall j, k :: 0 <= j < k < |visits| && visits[j].stackIndex == visits[k].stackIndex ==>
          visits[j].enchantment != visits[k].enchantment)
    && (forall i, e :: 0 <= i < |stacks| && e in stacks[i].enchantments ==>
          exists j :: 0 <= j < |visits| && visits[j].stackIndex == i && visits[j].enchantment == e)
  }

  /** The first `n` stacks are dispatched: `DispatchTrace` for a prefix of `stacks`. */
  ghost predicate DispatchedUpTo(reg: Registry, stacks: seq<ItemStack>, n: nat, visits: seq<Visit>) {
    && (forall j :: 0 <= j < |visits| ==> VisitOf(reg, stacks, visits[j]) && visits[j].stackIndex < n)
    && (forall j, k :: 0 <= j < k < |visits| ==> visits[j].stackIndex <= visits[k].stackIndex)
    && (forall j, k :: 0 <= j < k < |visits| && visits[j].stackIndex == visits[k].stackIndex ==>
          visits[j].enchantment != visits[k].enchantment)
    && (forall i, e :: 0 <= i < n && i < |stacks| && e in stacks[i].enchantments ==>
          exists j :: 0 <= j < |visits| && visits[j].stackIndex == i && visits[j].enchantment == e)
  }

  /** `seg` visits every enchantment of stack `i` once, in some order. */
  ghost predicate StackVisited(reg: Registry, stacks: seq<ItemStack>, i: nat, seg: seq<Visit>) {
    && (forall j :: 0 <= j < |seg| ==> VisitOf(reg, stacks, seg[j]) && seg[j].stackIndex == i)
    && (forall j, k :: 0 <= j < k < |seg| ==> seg[j].enchantment != seg[k].enchantment)
    && (i < |stacks| ==> forall e :: e in stacks[i].enchantments ==>
          exists j :: 0 <= j < |seg| && seg[j].enchantment == e)
  }

  lemma AppendStackVisits(reg: Registry, stacks: seq<ItemStack>, i: nat, visits: seq<Visit>, seg: seq<Visit>)
    requires i < |stacks|
    requires DispatchedUpTo(reg, stacks, i, visits) && StackVisited(reg, stacks, i, seg)
    ensures DispatchedUpTo(reg, stacks, i + 1, visits + seg)
  {
    var all := visits + seg;
    forall i', e | 0 <= i' < i + 1 && i' < |stacks| && e in stacks[i'].enchantments
      ensures exists j :: 0 <= j < |all| && all[j].stackIndex == i' && all[j].enchantment == e
    {
      if i' < i {
        var j :| 0 <= j < |visits| && visits[j].stackIndex == i' && visits[j].enchantment == e;
        assert all[j] == visits[j];
      } else {
        var j :| 0 <= j < |seg| && seg[j].enchantment == e;
        assert all[|visits| + j] == seg[j];
      }
    }
  }

  /** The inner loop of `forEachEnchantment`: stack `i`'s enchantments in map order. */
  method VisitStack(reg: Registry, stacks: seq<ItemStack>, i: nat) returns (seg: seq<Visit>)
    requires i < |stacks| && Registered(reg, stacks)
    ensures StackVisited(reg, stacks, i, seg)
  {
    var m := stacks[i].enchantments;
    var todo := m.Keys;
    seg := [];
    while todo != {}
      invariant todo <= m.Keys
      invariant forall j :: 0 <= j < |seg| ==>
        VisitOf(reg, stacks, seg[j]) && seg[j].stackIndex == i && seg[j].enchantment !in todo
      invariant forall j, k :: 0 <= j < k < |seg| ==> seg[j].enchantment != seg[k].enchantment
      invariant forall e :: e in m && e !in todo ==> exists j :: 0 <= j < |seg| && seg[j].enchantment == e
      decreases todo
    {
      var e :| e in todo;
      var before := seg;
      seg := seg + [Visit(i, e, reg.get(e).value, m[e])];
      forall e' | e' in m && e' !in todo - {e}
        ensures exists j :: 0 <= j < |seg| && seg[j].enchantment == e'
      {
        if e' == e {
          assert seg[|before|].enchantment == e';
        } else {
          var j :| 0 <= j < |before| && before[j].enchantment == e';
          assert seg[j] == before[j];
        }
      }
      todo := todo - {e};
    }
  }

  /** `forEachEnchantment`: the consumer calls it makes, in order. */
  method ForEachEnchantment(reg: Registry, stacks: seq<ItemStack>) returns (visits: seq<Visit>)
    requires Registered(reg, stacks)
    ensures DispatchTrace(reg, stacks, visits)
  {
    visits := [];
    for i := 0 to |stacks|
      invariant DispatchedUpTo(reg, stacks, i, visits)
    {
      var seg := VisitStack(reg, stacks, i);
      AppendStackVisits(reg, stacks, i, visits, seg);
      visits := visits + seg;
    }
  }

  /** The order in which reactions visit an entity's equipment. */
  const DispatchOrder: seq<EquipmentSlot> := [Boots, Leggings, Chestplate, Helmet, MainHand, OffHand]

  /** The stacks handed to `forEachEnchantment` by the reaction dispatchers. */
  function DispatchStacks(equipment: Equipment): (stacks: seq<ItemStack>)
    ensures |stacks| == |DispatchOrder|
    ensures forall i :: 0 <= i < |stacks| ==> stacks[i] == equipment.Get(DispatchOrder[i])
  {
    [equipment.boots, equipment.leggings, equipment.chestplate, equipment.helmet,
     equipment.mainHand, equipment.offHand]
  }

  datatype Hook = UserDamaged | TargetDamaged

  /** One reaction call `custom.onUserDamaged(user, other, level)` or `custom.onTargetDamaged(user, other, level)`. */
  datatype Reaction = Reaction(hook: Hook, user: nat, other: nat, visit: Visit)

  function VisitsOf(calls: seq<Reaction>): (visits: seq<Visit>)
    ensures |visits| == |calls|
    ensures forall j :: 0 <= j < |calls| ==> visits[j] == calls[j].visit
  {
    seq(|calls|, j requires 0 <= j < |calls| => calls[j].visit)
  }

  /** `calls` is the reaction dispatch of `hook` over `user`'s equipment in dispatch order. */
  ghost predicate ReactionTrace(reg: Registry, hook: Hook, user: Entity, other: Entity, calls: seq<Reaction>) {
    && (forall j :: 0 <= j < |calls| ==> calls[j].hook == hook && calls[j].user == user.id && calls[j].other == other.id)
    && DispatchTrace(reg, DispatchStacks(user.equipment), VisitsOf(calls))
  }

  method Dispatch(reg: Registry, hook: Hook, user: Entity, other: Entity) returns (calls: seq<Reaction>)
    requires Registered(reg, DispatchStacks(user.equipment))
    ensures ReactionTrace(reg, hook, user, other, calls)
  {
    var visits := ForEachEnchantment(reg, DispatchStacks(user.equipment));
    calls := seq(|visits|, j requires 0 <= j < |visits| => Reaction(hook, user.id, other.id, visits[j]));
    assert VisitsOf(calls) == visits;
  }

  /** `onUserDamaged`: nothing for a missing user, else one call per enchantment in dispatch order. */
  method OnUserDamaged(reg: Registry, user: Option<Entity>, attacker: Entity) returns (calls: seq<Reaction>)
    requires user.Some? ==> Registered(reg, DispatchStacks(user.value.equipment))
    ensures user.None? ==> calls == []
    ensures user.Some? ==> ReactionTrace(reg, UserDamaged, user.value, attacker, calls)
  {
    calls := [];
    if user.Some? {
      calls := Dispatch(reg, UserDamaged, user.value, attacker);
    }
  }

  /** `onTargetDamaged`: nothing for a missing user, else one call per enchantment in dispatch order. */
  method OnTargetDamaged(reg: Registry, user: Option<Entity>, target: Entity) returns (calls: seq<Reaction>)
    requires user.Some? ==> Registered(reg, DispatchStacks(user.value.equipment))
    ensures user.None? ==> calls == []
    ensures user.Some? ==> ReactionTrace(reg, TargetDamaged, user.value, target, calls)
  {
    calls := [];
    if user.Some? {
      calls := Dispatch(reg, TargetDamaged, user.value, target);
    }
  }

  /** A dispatch reaches the boots' enchantments before the main hand's. */
  lemma BootsBeforeMainHand(reg: Registry, equipment: Equipment, visits: seq<Visit>, j: nat, k: nat)
    requires DispatchTrace(reg, DispatchStacks(equipment), visits)
    requires j < |visits| && k < |visits|
    requires visits[j].stackIndex == 0 && visits[k].stackIndex == 4
    ensures j < k
  {
  }
}
