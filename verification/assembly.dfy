/**
 `getComponents`: turn the component set into the descriptor tree
   { components: { <component>..., item_properties: { <property>... } } }
 converting every value to a tag, or fail as a whole.
 */
module Assembly {
  import opened Wrappers
  import opened Tags
  import opened Components
  import opened ComponentSets

  const ComponentsKey := "components"
  const ItemPropertiesKey := "item_properties"

  /**
   The errors `getComponents` raises: the named component's value has no tag
   type (the `RuntimeException`), or the `$components` property was never
   written, so the `foreach` reads an uninitialised typed property.
   */
  datatype AssemblyError = NoTagType(componentName: string) | Uninitialised

  /** The tag-type helper: a partial conversion from runtime values to tags. */
  type Converter = Value -> Option<TagValue>

  /** Every component's value converts. */
  predicate AllConvertible(s: ComponentSet, conv: Converter)
  {
    forall n :: n in s ==> conv(s[n].value).Some?
  }

  /** The converted leaves of the components among `names` whose routing flag is `property`. */
  function Routed(s: ComponentSet, conv: Converter, names: set<string>, property: bool): map<string, Node>
  {
    map n | n in names && n in s && s[n].isProperty == property && conv(s[n].value).Some? :: Leaf(conv(s[n].value).value)
  }

  /** The descriptor a successful assembly of `s` produces: the reference the method is proved against. */
  function Descriptor(s: ComponentSet, conv: Converter): Tree
  {
    var top := Routed(s, conv, s.Keys, false);
    var props := Routed(s, conv, s.Keys, true);
    map[ComponentsKey := Compound(top[ItemPropertiesKey := Compound(props)])]
  }

  /**
   `getComponents`. The components are visited in an unspecified order (the
   source iterates in insertion order, which a map does not keep); the first
   unconvertible value met aborts the whole assembly.
   */
  method GetComponents(property: ComponentsProperty, conv: Converter) returns (r: Result<Tree, AssemblyError>)
    ensures property.None? ==> r == Failure(Uninitialised)
    ensures r.Success? <==> property.Some? && AllConvertible(property.value, conv)
    ensures r.Success? ==> r.value == Descriptor(property.value, conv)
    ensures property.Some? && r.Failure? ==>
      r.error.NoTagType? && r.error.componentName in property.value
      && conv(property.value[r.error.componentName].value).None?
  {
    if property.None? {
      return Failure(Uninitialised);
    }
    var s := property.value;
    var components: map<string, Node> := map[];
    var properties: map<string, Node> := map[];
    var todo := s.Keys;
    while todo != {}
      invariant todo <= s.Keys
      invariant forall n :: n in s && n !in todo ==> conv(s[n].value).Some?
      invariant components == Routed(s, conv, s.Keys - todo, false)
      invariant properties == Routed(s, conv, s.Keys - todo, true)
      decreases todo
    {
      var key :| key in todo;
      var component := s[key];
      var tag := conv(component.value);
      if tag.None? {
        return Failure(NoTagType(component.name));
      }
      if component.isProperty {
        properties := properties[component.name := Leaf(tag.value)];
      } else {
        components := components[component.name := Leaf(tag.value)];
      }
      todo := todo - {key};
    }
    assert s.Keys - todo == s.Keys;
    components := components[ItemPropertiesKey := Compound(properties)];
    r := Success(map[ComponentsKey := Compound(components)]);
  }

  /** The compound `components` of a descriptor. */
  function TopLevel(t: Tree): (r: Option<map<string, Node>>)
    ensures r.Some? <==> At(t, [ComponentsKey]).Some? && At(t, [ComponentsKey]).value.Compound?
    ensures r.Some? ==> At(t, [ComponentsKey]) == Some(Compound(r.value))
  {
    if ComponentsKey in t && t[ComponentsKey].Compound? then Some(t[ComponentsKey].children) else None
  }

  /** The compound `components.item_properties` of a descriptor. */
  function Properties(t: Tree): (r: Option<map<string, Node>>)
    ensures r.Some? ==> At(t, [ComponentsKey, ItemPropertiesKey]) == Some(Compound(r.value))
  {
    match TopLevel(t)
    case None => None
    case Some(top) =>
      if ItemPropertiesKey in top && top[ItemPropertiesKey].Compound? then Some(top[ItemPropertiesKey].children) else None
  }

  /**
   Routing: the root holds only `components`; every property sits under
   `components.item_properties` with its converted value and nowhere else;
   every other component sits directly under `components` (unless it is named
   `item_properties`, which the properties compound replaces); and nothing
   else appears in either compound.
   */
  lemma DescriptorRouting(s: ComponentSet, conv: Converter)
    requires AllConvertible(s, conv)
    ensures Descriptor(s, conv).Keys == {ComponentsKey}
    ensures TopLevel(Descriptor(s, conv)).Some? && Properties(Descriptor(s, conv)).Some?
    ensures forall n :: n in s && s[n].isProperty ==>
      n in Properties(Descriptor(s, conv)).value && Properties(Descriptor(s, conv)).value[n] == Leaf(conv(s[n].value).value)
    ensures forall n :: n in s && s[n].isProperty && n in TopLevel(Descriptor(s, conv)).value ==> n == ItemPropertiesKey
    ensures forall n :: n in s && !s[n].isProperty && n != ItemPropertiesKey ==>
      n in TopLevel(Descriptor(s, conv)).value && TopLevel(Descriptor(s, conv)).value[n] == Leaf(conv(s[n].value).value)
    ensures forall n :: n in s && !s[n].isProperty ==> n !in Properties(Descriptor(s, conv)).value
    ensures forall n :: n in Properties(Descriptor(s, conv)).value ==> n in s && s[n].isProperty
    ensures forall n :: n in TopLevel(Descriptor(s, conv)).value ==> n == ItemPropertiesKey || (n in s && !s[n].isProperty)
  {
  }

  /** `components.item_properties` is always present, and empty exactly when no component is a property. */
  lemma PropertiesAlwaysPresent(s: ComponentSet, conv: Converter)
    requires AllConvertible(s, conv)
    ensures Properties(Descriptor(s, conv)).Some?
    ensures Properties(Descriptor(s, conv)).value == map[] <==> forall n :: n in s ==> !s[n].isProperty
  {
    var props := Properties(Descriptor(s, conv)).value;
    if exists n :: n in s && s[n].isProperty {
      var n :| n in s && s[n].isProperty;
      assert n in props;
    } else {
      assert props.Keys == {};
    }
  }

  /**
   Assembling an initialised but empty array yields `components` holding only
   an empty `item_properties`. No member of the trait empties the array, so
   this is the state of a using class that assigns `[]` itself.
   */
  lemma EmptyDescriptor(conv: Converter)
    ensures Descriptor(map[], conv) == map[ComponentsKey := Compound(map[ItemPropertiesKey := Compound(map[])])]
  {
  }
}
