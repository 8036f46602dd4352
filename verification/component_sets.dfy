/**
 The component set an item owns: a map from component name to component,
 written only through `addComponent`, which makes the last write per name win.
 The trait declares the `$components` property without an initial value, so
 it starts uninitialised; the first write creates the array.
 */
module ComponentSets {
  import opened Wrappers
  import opened Components

  /** Every entry is stored under its own component's name. */
  predicate WellKeyed(m: map<string, Component>)
  {
    forall n :: n in m ==> m[n].name == n
  }

  /** The item's `$components` array: only `addComponent` writes it, so it is always well keyed. */
  type ComponentSet = m: map<string, Component> | WellKeyed(m) witness map[]

  /** The write `$components[name] = c` on an existing array: store `c` under its name, replacing whatever had that name. */
  function Put(s: ComponentSet, c: Component): (r: ComponentSet)
    ensures c.name in r && r[c.name] == c
    ensures forall n :: n != c.name ==> (n in r <==> n in s)
    ensures forall n :: n in s && n != c.name ==> r[n] == s[n]
    ensures |r| == if c.name in s then |s| else |s| + 1
  {
    s[c.name := c]
  }

  /** The `$components` property: `None` until it is first written. */
  type ComponentsProperty = Option<ComponentSet>

  /** The array a write works on: the property's array, or the empty array a first write creates. */
  function Contents(p: ComponentsProperty): ComponentSet
  {
    match p
    case Some(s) => s
    case None => map[]
  }

  /** `hasComponent`: `isset`, which is false for every name while the property is uninitialised. */
  function HasComponent(p: ComponentsProperty, name: string): (b: bool)
    ensures b ==> p.Some? && name in Contents(p)
    ensures b <== p.Some? && name in p.value
  {
    p.Some? && name in p.value
  }

  /**
   `addComponent`: store `c` under its name, replacing whatever had that
   name; on an uninitialised property the write creates the array.
   */
  function AddComponent(p: ComponentsProperty, c: Component): (r: ComponentsProperty)
    ensures r.Some?
    ensures c.name in r.value && r.value[c.name] == c
    ensures forall n :: n != c.name ==> (n in r.value <==> HasComponent(p, n))
    ensures forall n :: n != c.name && HasComponent(p, n) ==> r.value[n] == p.value[n]
  {
    Some(Put(Contents(p), c))
  }

  /** The component an in-order run of `addComponent` calls leaves under `name`: the last one with that name. */
  function LastWith(cs: seq<Component>, name: string): (r: Option<Component>)
    ensures r.Some? ==> r.value.name == name
  {
    if |cs| == 0 then None
    else if cs[|cs| - 1].name == name then Some(cs[|cs| - 1])
    else LastWith(cs[..|cs| - 1], name)
  }

  /** The last component with a name is some element of the run, and no later element has that name. */
  lemma {:induction false} LastWithIsLast(cs: seq<Component>, name: string)
    ensures LastWith(cs, name).Some? ==>
      exists i :: 0 <= i < |cs| && cs[i] == LastWith(cs, name).value && forall j :: i < j < |cs| ==> cs[j].name != name
    ensures LastWith(cs, name).None? <==> forall i :: 0 <= i < |cs| ==> cs[i].name != name
    decreases |cs|
  {
    if |cs| > 0 && cs[|cs| - 1].name != name {
      var front := cs[..|cs| - 1];
      LastWithIsLast(front, name);
      if LastWith(cs, name).Some? {
        var i :| 0 <= i < |front| && front[i] == LastWith(front, name).value && forall j :: i < j < |front| ==> front[j].name != name;
        assert cs[i] == front[i];
      }
    }
  }

  /** A run of writes, in order, on an existing array. */
  function AddAll(s: ComponentSet, cs: seq<Component>): (r: ComponentSet)
    ensures forall n :: n in r <==> n in s || LastWith(cs, n).Some?
    ensures forall n :: n in r && LastWith(cs, n).Some? ==> r[n] == LastWith(cs, n).value
    ensures forall n :: n in r && LastWith(cs, n).None? ==> r[n] == s[n]
    decreases |cs|
  {
    if |cs| == 0 then s
    else Put(AddAll(s, cs[..|cs| - 1]), cs[|cs| - 1])
  }

  /** A run of `addComponent` calls, in order. */
  function AddEach(p: ComponentsProperty, cs: seq<Component>): ComponentsProperty
    decreases |cs|
  {
    if |cs| == 0 then p
    else AddComponent(AddEach(p, cs[..|cs| - 1]), cs[|cs| - 1])
  }

  /** A non-empty run of `addComponent` calls initialises the property and writes like `AddAll` on its array. */
  lemma {:induction false} AddEachIsAddAll(p: ComponentsProperty, cs: seq<Component>)
    requires |cs| > 0
    ensures AddEach(p, cs) == Some(AddAll(Contents(p), cs))
    decreases |cs|
  {
    var front := cs[..|cs| - 1];
    if |front| == 0 {
      assert AddAll(Contents(p), front) == Contents(p);
    } else {
      AddEachIsAddAll(p, front);
    }
  }

  /** Adding two components with the same name leaves exactly one entry, holding the second. */
  lemma LastWriteWins(p: ComponentsProperty, a: Component, b: Component)
    requires a.name == b.name
    ensures AddComponent(AddComponent(p, a), b) == AddComponent(p, b)
    ensures AddComponent(AddComponent(p, a), b).value[b.name] == b
  {
    var s := Contents(p);
    assert Put(Put(s, a), b) == Put(s, b);
  }

  /** `hasComponent` after `addComponent`: true for the added name, unchanged for every other name. */
  lemma HasAfterAdd(p: ComponentsProperty, c: Component, name: string)
    ensures HasComponent(AddComponent(p, c), name) <==> name == c.name || HasComponent(p, name)
  {
  }
}
