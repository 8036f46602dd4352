/**
 The item component: a named value with a routing flag. The `ItemComponent`
 interface has exactly three accessors (name, value, property flag) and no
 other observable state, so a component is an immutable record of the three.
 */
module Components {
  import opened Tags

  /** A component: `getName()`, `getValue()` and `isProperty()`. */
  datatype Component = Component(name: string, value: Value, isProperty: bool)

  /** Where an item sits in the creative inventory: a host category constant and a group name. */
  datatype CreativeInfo = CreativeInfo(category: string, group: string)

  /** A constructor argument of a component class. */
  datatype Arg =
    | ABool(b: bool)
    | AInt(i: int)
    | AFloat(f: Float)
    | AString(s: string)
    | AInfo(info: CreativeInfo)

  /**
   A component class whose source is not part of this model: its fixed name,
   its fixed property flag, and the value its `getValue()` derives from the
   constructor arguments.
   */
  datatype ComponentClass = ComponentClass(name: string, isProperty: bool, value: seq<Arg> -> Value)

  /** The component an instance of `cls` built from `args` presents. */
  function Make(cls: ComponentClass, args: seq<Arg>): (c: Component)
    ensures c.name == cls.name && c.isProperty == cls.isProperty
    ensures c.value == cls.value(args)
  {
    Component(cls.name, cls.value(args), cls.isProperty)
  }

  const CreativeGroupName := "creative_group"
  const DamageName := "damage"

  /** `new CreativeGroupComponent(info)`: a property named "creative_group" whose value is the info's group. */
  function CreativeGroup(info: CreativeInfo): (c: Component)
    ensures c.name == "creative_group"
    ensures c.value.StringV? && c.value.s == info.group
    ensures c.isProperty
  {
    Component(CreativeGroupName, StringV(info.group), true)
  }

  /** `new DamageComponent(value)`: a property named "damage" whose value is the given integer. */
  function Damage(value: int): (c: Component)
    ensures c.name == "damage"
    ensures c.value.IntV? && c.value.i == value
    ensures c.isProperty
  {
    Component(DamageName, IntV(value), true)
  }
}
