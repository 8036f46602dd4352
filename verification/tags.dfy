/**
 Values a component may hold, the tag values the NBT helper converts them to,
 and the nested descriptor tree that assembly produces.
 */
module Tags {
  import opened Wrappers

  /** A floating-point number, carried as an opaque bit pattern: the model does no arithmetic on it. */
  datatype Float = Float(bits: int)

  /**
   The runtime value returned by a component's `getValue()`. The accessor is
   untyped, so besides the four primitive shapes it may be any other runtime
   value (an array, an object, null), which `Other` stands for.
   */
  datatype Value =
    | BoolV(b: bool)
    | IntV(i: int)
    | FloatV(f: Float)
    | StringV(s: string)
    | Other(typeName: string)

  /** A serialisable leaf tag: boolean, integer, float or string. */
  datatype TagValue =
    | TBool(b: bool)
    | TInt(i: int)
    | TFloat(f: Float)
    | TString(s: string)

  /** A node of a compound tag: a leaf tag or a nested compound. */
  datatype Node = Leaf(tag: TagValue) | Compound(children: map<string, Node>)

  /** A compound tag: named children. */
  type Tree = map<string, Node>

  /**
   The node reached by following `path` from the compound `t`, if any:
   every step but the last must land on a compound.
   */
  function At(t: Tree, path: seq<string>): (r: Option<Node>)
    requires |path| > 0
    ensures r.Some? ==> path[0] in t
    decreases |path|
  {
    if path[0] !in t then None
    else if |path| == 1 then Some(t[path[0]])
    else match t[path[0]]
      case Leaf(_) => None
      case Compound(children) => At(children, path[1..])
  }
}
