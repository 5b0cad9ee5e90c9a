/** Values of the documentation tree that build.js assembles.

    Every object the script builds is a plain JavaScript object literal
    whose properties are either strings ("!type" signatures, "!doc" texts,
    the "!name" of the definition file, or the type tag of a constant) or
    further object literals. The model is value-based: an object is a finite
    map from property names to nodes.
 */
module Nodes {

  datatype Option<+T> = None | Some(value: T)

  /** One property value: a string leaf or a nested object. */
  datatype Node = Leaf(text: string) | Obj(fields: map<string, Node>)

  /** A plain object: property name to value. */
  type Object = map<string, Node>

  /** A documented property in its abstract form `{"!type": t}`; the
      "!doc" prose of the literal payload is left out. */
  function Prop(t: string): Node
  {
    Obj(map["!type" := Leaf(t)])
  }

  /** The enumerable own properties of the value stored under `k`, as a
      `for...in` loop over `o[k]` sees them: the fields of a nested object,
      and nothing for a missing entry (`undefined`). */
  function FieldsOf(o: Object, k: string): Object
  {
    if k in o && o[k].Obj? then o[k].fields else map[]
  }

  /** Every field of `part` is in `whole`, with the same value. */
  predicate Contains(whole: Object, part: Object)
  {
    forall k :: k in part ==> k in whole && whole[k] == part[k]
  }
}
