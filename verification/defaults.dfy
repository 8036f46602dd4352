/**
 `initComponent` and the caller helpers: the default components an item gets
 from what it is (armor, consumable, food, durable, projectile, named, fuel),
 added in a fixed order so that a later addition replaces an earlier one of
 the same name.
 */
module Defaults {
  import opened Wrappers
  import opened Tags
  import opened Components
  import opened ComponentSets

  /**
   What `initComponent` learns from the item by type tests and getters. The
   source asks `instanceof Armor/Consumable/Food/Durable/ProjectileItem`; here
   each of those is an explicit flag, with the getters each type provides.
   */
  datatype Capabilities = Capabilities(
    isArmor: bool, armorSlot: int, defensePoints: int,
    isConsumable: bool, isFood: bool, requiresHunger: bool,
    isDurable: bool, maxDurability: int,
    isProjectile: bool,
    name: string, fuelTime: int, maxStackSize: int)

  /** The host inventory's armor slot numbers (`ArmorInventory::SLOT_*`). */
  datatype ArmorSlots = ArmorSlots(head: int, chest: int, legs: int, feet: int)

  /** The wearable component's slot names (`WearableComponent::SLOT_*`). */
  datatype WearableSlots = WearableSlots(head: string, chest: string, legs: string, feet: string, armor: string)

  /**
   Everything `initComponent` and the helpers use whose definition is not part
   of this model: the component classes they instantiate, the slot and
   animation constants, and `CreativeInventoryInfo::DEFAULT()`.
   */
  datatype Catalog = Catalog(
    creativeCategory: ComponentClass, canDestroyInCreative: ComponentClass, icon: ComponentClass,
    maxStackSize: ComponentClass, armor: ComponentClass, wearable: ComponentClass, food: ComponentClass,
    useAnimation: ComponentClass, useDuration: ComponentClass, durability: ComponentClass,
    projectile: ComponentClass, throwable: ComponentClass, displayName: ComponentClass, fuel: ComponentClass,
    handEquipped: ComponentClass, renderOffsets: ComponentClass, allowOffHand: ComponentClass,
    cooldown: ComponentClass,
    hostSlots: ArmorSlots, wearableSlots: WearableSlots,
    animationEat: string, animationDrink: string,
    defaultInfo: CreativeInfo)

  /** The item name the host uses for an item without a display name. */
  const UnknownName := "Unknown"
  /** The use duration, in ticks, a consumable gets by default. */
  const DefaultUseDuration := 20

  /** One addition of the fixed sequence: the component and whether the item's capabilities call for it. */
  datatype Step = Step(component: Component, enabled: bool)

  /** The wearable slot for a host armor slot: the first matching arm of the source's `match`, else the generic slot. */
  function SlotFor(host: ArmorSlots, wear: WearableSlots, slot: int): string
  {
    if slot == host.head then wear.head
    else if slot == host.chest then wear.chest
    else if slot == host.legs then wear.legs
    else if slot == host.feet then wear.feet
    else wear.armor
  }

  /** The use animation of a consumable: eating for food, drinking otherwise. */
  function Animation(cat: Catalog, item: Capabilities): string
  {
    if item.isFood then cat.animationEat else cat.animationDrink
  }

  /** The names of the classes `initComponent` adds, in the order it adds them. */
  function InitNames(cat: Catalog): seq<string>
  {
    [cat.creativeCategory.name, CreativeGroupName, cat.canDestroyInCreative.name, cat.icon.name,
     cat.maxStackSize.name, cat.armor.name, cat.wearable.name, cat.food.name, cat.useAnimation.name,
     cat.useDuration.name, cat.durability.name, cat.projectile.name, cat.throwable.name,
     cat.displayName.name, cat.fuel.name]
  }

  /** No two of those classes share a name, so none of the defaults replaces another. */
  predicate Distinct(cat: Catalog)
  {
    var names := InitNames(cat);
    forall i, j :: 0 <= i < j < |names| ==> names[i] != names[j]
  }

  /** The host's four armor slot numbers are pairwise different, so each `match` arm can be reached. */
  predicate SlotsDistinct(host: ArmorSlots)
  {
    host.head != host.chest && host.head != host.legs && host.head != host.feet
    && host.chest != host.legs && host.chest != host.feet && host.legs != host.feet
  }

  /** The fixed sequence of additions `initComponent` performs, each with the condition that guards it. */
  function Plan(cat: Catalog, item: Capabilities, texture: string, info: CreativeInfo): (p: seq<Step>)
    ensures |p| == |InitNames(cat)|
    ensures forall i :: 0 <= i < |p| ==> p[i].component.name == InitNames(cat)[i]
  {
    [ Step(Make(cat.creativeCategory, [AInfo(info)]), true),
      Step(CreativeGroup(info), true),
      Step(Make(cat.canDestroyInCreative, []), true),
      Step(Make(cat.icon, [AString(texture)]), true),
      Step(Make(cat.maxStackSize, [AInt(item.maxStackSize)]), true),
      Step(Make(cat.armor, [AInt(item.defensePoints)]), item.isArmor),
      Step(Make(cat.wearable, [AString(SlotFor(cat.hostSlots, cat.wearableSlots, item.armorSlot))]), item.isArmor),
      Step(Make(cat.food, [ABool(!item.requiresHunger)]), item.isConsumable && item.isFood),
      Step(Make(cat.useAnimation, [AString(Animation(cat, item))]), item.isConsumable),
      Step(Make(cat.useDuration, [AInt(DefaultUseDuration)]), item.isConsumable),
      Step(Make(cat.durability, [AInt(item.maxDurability)]), item.isDurable),
      Step(Make(cat.projectile, [AString("projectile")]), item.isProjectile),
      Step(Make(cat.throwable, [ABool(true)]), item.isProjectile),
      Step(Make(cat.displayName, [AString(item.name)]), item.name != UnknownName),
      Step(Make(cat.fuel, [AInt(item.fuelTime)]), item.fuelTime > 0) ]
  }

  /** The components of the enabled steps, in order. */
  function Enabled(p: seq<Step>): seq<Component>
    decreases |p|
  {
    if |p| == 0 then []
    else Enabled(p[..|p| - 1]) + (if p[|p| - 1].enabled then [p[|p| - 1].component] else [])
  }

  /** The creative info in effect: the one given, else the default. */
  function Resolve(cat: Catalog, info: Option<CreativeInfo>): CreativeInfo
  {
    match info
    case Some(given) => given
    case None => cat.defaultInfo
  }

  /**
   `initComponent(texture, creativeInfo)` on the item's `$components`
   property. It always adds components, so it leaves the property
   initialised; `InitIsAddComponentRun` shows it is the run of
   `addComponent` calls of the plan.
   */
  function InitComponent(before: ComponentsProperty, cat: Catalog, item: Capabilities, texture: string, info: Option<CreativeInfo>): (r: ComponentsProperty)
    ensures r.Some?
    ensures Contents(before).Keys <= r.value.Keys
  {
    Some(AddAll(Contents(before), Enabled(Plan(cat, item, texture, Resolve(cat, info)))))
  }

  /** `initComponent` is the run of `addComponent` calls of its plan, starting from the property as it was. */
  lemma InitIsAddComponentRun(before: ComponentsProperty, cat: Catalog, item: Capabilities, texture: string, info: Option<CreativeInfo>)
    ensures InitComponent(before, cat, item, texture, info) == AddEach(before, Enabled(Plan(cat, item, texture, Resolve(cat, info))))
  {
    var p := Plan(cat, item, texture, Resolve(cat, info));
    EnabledContains(p, 0);
    AddEachIsAddAll(before, Enabled(p));
  }

  /** No two steps add components of the same name. */
  predicate DistinctSteps(p: seq<Step>)
  {
    forall i, j :: 0 <= i < j < |p| ==> p[i].component.name != p[j].component.name
  }

  /** Every enabled step's component is among the additions. */
  lemma {:induction false} EnabledContains(p: seq<Step>, j: int)
    requires 0 <= j < |p| && p[j].enabled
    ensures p[j].component in Enabled(p)
    decreases |p|
  {
    if j < |p| - 1 {
      EnabledContains(p[..|p| - 1], j);
    }
  }

  /** Every addition comes from an enabled step. */
  lemma {:induction false} EnabledFrom(p: seq<Step>, k: int)
    requires 0 <= k < |Enabled(p)|
    ensures exists j :: 0 <= j < |p| && p[j].enabled && p[j].component == Enabled(p)[k]
    decreases |p|
  {
    var q := p[..|p| - 1];
    if k < |Enabled(q)| {
      EnabledFrom(q, k);
      var j :| 0 <= j < |q| && q[j].enabled && q[j].component == Enabled(q)[k];
      assert p[j] == q[j];
    } else {
      assert Enabled(p)[k] == p[|p| - 1].component;
    }
  }

  /** With distinct names, a step's component is what the additions leave under its name exactly when the step runs. */
  lemma {:induction false} EnabledLast(p: seq<Step>, i: int)
    requires DistinctSteps(p)
    requires 0 <= i < |p|
    ensures LastWith(Enabled(p), p[i].component.name) == if p[i].enabled then Some(p[i].component) else None
    decreases |p|
  {
    var q := p[..|p| - 1];
    var last := p[|p| - 1];
    var name := p[i].component.name;
    assert DistinctSteps(q);
    if i == |p| - 1 {
      if !last.enabled {
        assert Enabled(p) == Enabled(q);
        LastWithIsLast(Enabled(q), name);
        forall k | 0 <= k < |Enabled(q)|
          ensures Enabled(q)[k].name != name
        {
          EnabledFrom(q, k);
          var j :| 0 <= j < |q| && q[j].enabled && q[j].component == Enabled(q)[k];
          assert p[j] == q[j];
        }
      }
    } else {
      EnabledLast(q, i);
      assert q[i] == p[i];
      if last.enabled {
        var e := Enabled(q) + [last.component];
        assert Enabled(p) == e;
        assert e[..|e| - 1] == Enabled(q);
      } else {
        assert Enabled(p) == Enabled(q);
      }
    }
  }

  /**
   The workhorse of the default lemmas: with distinct class names, after
   `initComponent` the i-th default component is stored under its name if its
   condition holds, and that name is as it was before otherwise.
   */
  lemma InitStep(before: ComponentsProperty, cat: Catalog, item: Capabilities, texture: string, info: Option<CreativeInfo>, i: int)
    requires Distinct(cat)
    requires 0 <= i < |InitNames(cat)|
    ensures var p := Plan(cat, item, texture, Resolve(cat, info));
            var s := Contents(before);
            var r := InitComponent(before, cat, item, texture, info).value;
            var n := InitNames(cat)[i];
            if p[i].enabled then n in r && r[n] == p[i].component
            else (n in r <==> n in s) && (n in s ==> r[n] == s[n])
  {
    var p := Plan(cat, item, texture, Resolve(cat, info));
    assert DistinctSteps(p);
    EnabledLast(p, i);
  }

  /**
   `initComponent` always adds the creative category, creative group,
   can-destroy-in-creative, icon and max-stack-size components, whatever the
   class names.
   */
  lemma InitAlwaysPresent(before: ComponentsProperty, cat: Catalog, item: Capabilities, texture: string, info: Option<CreativeInfo>)
    ensures var r := InitComponent(before, cat, item, texture, info).value;
            && cat.creativeCategory.name in r && CreativeGroupName in r && cat.canDestroyInCreative.name in r
            && cat.icon.name in r && cat.maxStackSize.name in r
  {
    var p := Plan(cat, item, texture, Resolve(cat, info));
    LastWithIsLast(Enabled(p), p[0].component.name);
    LastWithIsLast(Enabled(p), p[1].component.name);
    LastWithIsLast(Enabled(p), p[2].component.name);
    LastWithIsLast(Enabled(p), p[3].component.name);
    LastWithIsLast(Enabled(p), p[4].component.name);
    EnabledContains(p, 0);
    EnabledContains(p, 1);
    EnabledContains(p, 2);
    EnabledContains(p, 3);
    EnabledContains(p, 4);
  }

  /**
   With distinct class names, the five unconditional defaults hold the given
   creative info (the default info when none is given), the texture as icon
   and the item's max stack size.
   */
  lemma InitAlwaysValues(before: ComponentsProperty, cat: Catalog, item: Capabilities, texture: string, info: Option<CreativeInfo>)
    requires Distinct(cat)
    ensures var r := InitComponent(before, cat, item, texture, info).value;
            var creative := if info.Some? then info.value else cat.defaultInfo;
            && cat.creativeCategory.name in r && r[cat.creativeCategory.name] == Make(cat.creativeCategory, [AInfo(creative)])
            && CreativeGroupName in r && r[CreativeGroupName] == CreativeGroup(creative)
            && cat.canDestroyInCreative.name in r && r[cat.canDestroyInCreative.name] == Make(cat.canDestroyInCreative, [])
            && cat.icon.name in r && r[cat.icon.name] == Make(cat.icon, [AString(texture)])
            && cat.maxStackSize.name in r && r[cat.maxStackSize.name] == Make(cat.maxStackSize, [AInt(item.maxStackSize)])
  {
    var p := Plan(cat, item, texture, Resolve(cat, info));
    assert p[0].component == Make(cat.creativeCategory, [AInfo(Resolve(cat, info))]);
    assert p[1].component == CreativeGroup(Resolve(cat, info));
    assert p[2].component == Make(cat.canDestroyInCreative, []);
    assert p[3].component == Make(cat.icon, [AString(texture)]);
    assert p[4].component == Make(cat.maxStackSize, [AInt(item.maxStackSize)]);
    InitStep(before, cat, item, texture, info, 0);
    InitStep(before, cat, item, texture, info, 1);
    InitStep(before, cat, item, texture, info, 2);
    InitStep(before, cat, item, texture, info, 3);
    InitStep(before, cat, item, texture, info, 4);
  }

  /** Without creative info, the creative group is the default info's group. */
  lemma InitDefaultGroup(before: ComponentsProperty, cat: Catalog, item: Capabilities, texture: string)
    requires Distinct(cat)
    ensures var r := InitComponent(before, cat, item, texture, None).value;
            CreativeGroupName in r && r[CreativeGroupName].value == StringV(cat.defaultInfo.group)
  {
    InitAlwaysValues(before, cat, item, texture, None);
  }

  /** The `match` on the armor slot: each host slot to its wearable slot, anything else to the generic one. */
  lemma SlotMapping(host: ArmorSlots, wear: WearableSlots, slot: int)
    requires SlotsDistinct(host)
    ensures slot == host.head ==> SlotFor(host, wear, slot) == wear.head
    ensures slot == host.chest ==> SlotFor(host, wear, slot) == wear.chest
    ensures slot == host.legs ==> SlotFor(host, wear, slot) == wear.legs
    ensures slot == host.feet ==> SlotFor(host, wear, slot) == wear.feet
    ensures slot !in {host.head, host.chest, host.legs, host.feet} ==> SlotFor(host, wear, slot) == wear.armor
  {
  }

  /**
   Armor: an armor item gets the armor component with its defense points and
   the wearable component with its mapped slot; any other item leaves both
   names as they were.
   */
  lemma InitArmor(before: ComponentsProperty, cat: Catalog, item: Capabilities, texture: string, info: Option<CreativeInfo>)
    requires Distinct(cat)
    ensures var s := Contents(before); var r := InitComponent(before, cat, item, texture, info).value;
            var slot := SlotFor(cat.hostSlots, cat.wearableSlots, item.armorSlot);
            && (item.isArmor ==>
                 && cat.armor.name in r && r[cat.armor.name] == Make(cat.armor, [AInt(item.defensePoints)])
                 && cat.wearable.name in r && r[cat.wearable.name] == Make(cat.wearable, [AString(slot)]))
            && (!item.isArmor ==>
                 && (cat.armor.name in r <==> cat.armor.name in s)
                 && (cat.armor.name in s ==> r[cat.armor.name] == s[cat.armor.name])
                 && (cat.wearable.name in r <==> cat.wearable.name in s)
                 && (cat.wearable.name in s ==> r[cat.wearable.name] == s[cat.wearable.name]))
  {
    var p := Plan(cat, item, texture, Resolve(cat, info));
    assert p[5] == Step(Make(cat.armor, [AInt(item.defensePoints)]), item.isArmor);
    assert p[6] == Step(Make(cat.wearable, [AString(SlotFor(cat.hostSlots, cat.wearableSlots, item.armorSlot))]), item.isArmor);
    InitStep(before, cat, item, texture, info, 5);
    InitStep(before, cat, item, texture, info, 6);
  }

  /**
   Consumables: food gets a food component valued `!requiresHunger` and the
   eating animation; any other consumable gets no food component and the
   drinking animation; both get a use duration of 20 ticks.
   */
  lemma InitConsumable(before: ComponentsProperty, cat: Catalog, item: Capabilities, texture: string, info: Option<CreativeInfo>)
    requires Distinct(cat)
    requires item.isConsumable
    ensures var s := Contents(before); var r := InitComponent(before, cat, item, texture, info).value;
            && cat.useAnimation.name in r
            && (item.isFood ==> r[cat.useAnimation.name] == Make(cat.useAnimation, [AString(cat.animationEat)]))
            && (!item.isFood ==> r[cat.useAnimation.name] == Make(cat.useAnimation, [AString(cat.animationDrink)]))
            && cat.useDuration.name in r && r[cat.useDuration.name] == Make(cat.useDuration, [AInt(20)])
            && (item.isFood ==> cat.food.name in r && r[cat.food.name] == Make(cat.food, [ABool(!item.requiresHunger)]))
            && (!item.isFood ==> (cat.food.name in r <==> cat.food.name in s))
            && (!item.isFood && cat.food.name in s ==> r[cat.food.name] == s[cat.food.name])
  {
    var p := Plan(cat, item, texture, Resolve(cat, info));
    assert p[7] == Step(Make(cat.food, [ABool(!item.requiresHunger)]), item.isFood);
    assert p[8] == Step(Make(cat.useAnimation, [AString(Animation(cat, item))]), true);
    assert p[9] == Step(Make(cat.useDuration, [AInt(20)]), true);
    InitStep(before, cat, item, texture, info, 7);
    InitStep(before, cat, item, texture, info, 8);
    InitStep(before, cat, item, texture, info, 9);
  }

  /**
   The remaining conditional defaults, each present (for a name not already
   in the set) exactly when its condition holds: durability for durable
   items, projectile and throwable for projectile items, the display name
   unless the name is "Unknown", fuel for a positive fuel time.
   */
  lemma InitConditional(before: ComponentsProperty, cat: Catalog, item: Capabilities, texture: string, info: Option<CreativeInfo>)
    requires Distinct(cat)
    ensures var s := Contents(before); var r := InitComponent(before, cat, item, texture, info).value;
            && (cat.durability.name !in s ==> (cat.durability.name in r <==> item.isDurable))
            && (item.isDurable ==> cat.durability.name in r && r[cat.durability.name] == Make(cat.durability, [AInt(item.maxDurability)]))
            && (cat.projectile.name !in s ==> (cat.projectile.name in r <==> item.isProjectile))
            && (item.isProjectile ==>
                 && cat.projectile.name in r && r[cat.projectile.name] == Make(cat.projectile, [AString("projectile")])
                 && cat.throwable.name in r && r[cat.throwable.name] == Make(cat.throwable, [ABool(true)]))
            && (cat.throwable.name !in s ==> (cat.throwable.name in r <==> item.isProjectile))
            && (cat.displayName.name !in s ==> (cat.displayName.name in r <==> item.name != "Unknown"))
            && (item.name != "Unknown" ==> cat.displayName.name in r && r[cat.displayName.name] == Make(cat.displayName, [AString(item.name)]))
            && (cat.fuel.name !in s ==> (cat.fuel.name in r <==> item.fuelTime > 0))
            && (item.fuelTime > 0 ==> cat.fuel.name in r && r[cat.fuel.name] == Make(cat.fuel, [AInt(item.fuelTime)]))
  {
    var p := Plan(cat, item, texture, Resolve(cat, info));
    assert p[10] == Step(Make(cat.durability, [AInt(item.maxDurability)]), item.isDurable);
    assert p[11] == Step(Make(cat.projectile, [AString("projectile")]), item.isProjectile);
    assert p[12] == Step(Make(cat.throwable, [ABool(true)]), item.isProjectile);
    assert p[13] == Step(Make(cat.displayName, [AString(item.name)]), item.name != UnknownName);
    assert p[14] == Step(Make(cat.fuel, [AInt(item.fuelTime)]), item.fuelTime > 0);
    InitStep(before, cat, item, texture, info, 10);
    InitStep(before, cat, item, texture, info, 11);
    InitStep(before, cat, item, texture, info, 12);
    InitStep(before, cat, item, texture, info, 13);
    InitStep(before, cat, item, texture, info, 14);
  }

  /** An explicit `setUseDuration` after `initComponent` overrides the default 20 ticks. */
  lemma OverrideWins(before: ComponentsProperty, cat: Catalog, item: Capabilities, texture: string, info: Option<CreativeInfo>, ticks: int)
    ensures var r := SetUseDuration(InitComponent(before, cat, item, texture, info), cat, ticks).value;
            cat.useDuration.name in r && r[cat.useDuration.name].value == cat.useDuration.value([AInt(ticks)])
  {
  }

  /** The components of `s` other than those named in `names` are exactly as before. */
  ghost predicate Untouched(s: ComponentSet, r: ComponentSet, names: set<string>)
  {
    forall n :: n !in names ==> (n in r <==> n in s) && (n in s ==> r[n] == s[n])
  }

  /** `setUseDuration(ticks)`. */
  function SetUseDuration(p: ComponentsProperty, cat: Catalog, ticks: int): (r: ComponentsProperty)
    ensures r.Some?
    ensures cat.useDuration.name in r.value && r.value[cat.useDuration.name] == Make(cat.useDuration, [AInt(ticks)])
    ensures Untouched(Contents(p), r.value, {cat.useDuration.name})
  {
    AddComponent(p, Make(cat.useDuration, [AInt(ticks)]))
  }

  /** The argument `allowOffHand()` takes when called without one. */
  const DefaultOffHand := true

  /** `allowOffHand(offHand)`; the argument-less call is `AllowOffHand(p, cat, DefaultOffHand)`. */
  function AllowOffHand(p: ComponentsProperty, cat: Catalog, offHand: bool): (r: ComponentsProperty)
    ensures r.Some?
    ensures cat.allowOffHand.name in r.value && r.value[cat.allowOffHand.name] == Make(cat.allowOffHand, [ABool(offHand)])
    ensures Untouched(Contents(p), r.value, {cat.allowOffHand.name})
  {
    AddComponent(p, Make(cat.allowOffHand, [ABool(offHand)]))
  }

  /** The hand-equipped flag `setupRenderOffsets(width, height)` uses when called without one. */
  const DefaultHandEquipped := false

  /**
   `setupRenderOffsets(width, height, handEquipped)`: the hand-equipped flag,
   then the render offsets, which win should the two classes share a name.
   The two-argument call is `SetupRenderOffsets(p, cat, width, height, DefaultHandEquipped)`.
   */
  function SetupRenderOffsets(p: ComponentsProperty, cat: Catalog, width: int, height: int, handEquipped: bool): (r: ComponentsProperty)
    ensures r.Some?
    ensures cat.renderOffsets.name in r.value
    ensures r.value[cat.renderOffsets.name] == Make(cat.renderOffsets, [AInt(width), AInt(height), ABool(handEquipped)])
    ensures cat.handEquipped.name in r.value
    ensures cat.handEquipped.name != cat.renderOffsets.name ==>
      r.value[cat.handEquipped.name] == Make(cat.handEquipped, [ABool(handEquipped)])
    ensures Untouched(Contents(p), r.value, {cat.handEquipped.name, cat.renderOffsets.name})
  {
    var withHand := AddComponent(p, Make(cat.handEquipped, [ABool(handEquipped)]));
    AddComponent(withHand, Make(cat.renderOffsets, [AInt(width), AInt(height), ABool(handEquipped)]))
  }

  /**
   `setUseCooldown(duration, category)`: an empty category means the item's
   own name. The one-argument call `setUseCooldown(duration)` uses the default
   category "", that is `SetUseCooldown(p, cat, item, duration, "")`.
   */
  function SetUseCooldown(p: ComponentsProperty, cat: Catalog, item: Capabilities, duration: Float, category: string): (r: ComponentsProperty)
    ensures r.Some?
    ensures cat.cooldown.name in r.value
    ensures category != "" ==> r.value[cat.cooldown.name] == Make(cat.cooldown, [AString(category), AFloat(duration)])
    ensures category == "" ==> r.value[cat.cooldown.name] == Make(cat.cooldown, [AString(item.name), AFloat(duration)])
    ensures Untouched(Contents(p), r.value, {cat.cooldown.name})
  {
    AddComponent(p, Make(cat.cooldown, [AString(if category != "" then category else item.name), AFloat(duration)]))
  }
}
