/** An item's whole descriptor: `initComponent` on a never-written `$components`, then `getComponents`. */
module Pipeline {
  import opened Wrappers
  import opened Tags
  import opened Components
  import opened ComponentSets
  import opened Assembly
  import opened Defaults

  /**
   A durable chest armor piece whose defaults all convert: its descriptor
   holds the durability, the wearable component with the chest slot and the
   armor component with its defense points, each as its converted tag at the
   place its class's property flag routes it, and always holds
   `components.item_properties`.
   */
  lemma ChestArmorDescriptor(cat: Catalog, item: Capabilities, texture: string, info: Option<CreativeInfo>, conv: Converter)
    requires Distinct(cat) && SlotsDistinct(cat.hostSlots)
    requires item.isArmor && item.isDurable && item.armorSlot == cat.hostSlots.chest
    requires AllConvertible(InitComponent(None, cat, item, texture, info).value, conv)
    requires cat.durability.name != ItemPropertiesKey && cat.wearable.name != ItemPropertiesKey
    requires cat.armor.name != ItemPropertiesKey
    ensures var t := Descriptor(InitComponent(None, cat, item, texture, info).value, conv);
            && Properties(t).Some?
            && Placed(t, Make(cat.durability, [AInt(item.maxDurability)]), conv)
            && Placed(t, Make(cat.wearable, [AString(cat.wearableSlots.chest)]), conv)
            && Placed(t, Make(cat.armor, [AInt(item.defensePoints)]), conv)
  {
    var s := InitComponent(None, cat, item, texture, info).value;
    InitArmor(None, cat, item, texture, info);
    InitConditional(None, cat, item, texture, info);
    SlotMapping(cat.hostSlots, cat.wearableSlots, item.armorSlot);
    DescriptorRouting(s, conv);
  }

  /** The component's converted value sits where its property flag routes it. */
  ghost predicate Placed(t: Tree, c: Component, conv: Converter)
  {
    conv(c.value).Some? &&
    if c.isProperty then Properties(t).Some? && c.name in Properties(t).value && Properties(t).value[c.name] == Leaf(conv(c.value).value)
    else TopLevel(t).Some? && c.name in TopLevel(t).value && TopLevel(t).value[c.name] == Leaf(conv(c.value).value)
  }
}
