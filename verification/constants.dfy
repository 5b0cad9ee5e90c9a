/** The constant type annotation at the end of build.js: for every key of
    the game's constants table the top-level definition object receives
    `key: typeof value`, replacing whatever entry had that name.
 */
module Constants {
  import opened Nodes
  import opened Merge

  /** A JavaScript value, as far as `typeof` can tell values apart. Numbers
      are kept as reals: `typeof` answers "number" for every double alike. */
  datatype JsValue =
    | Undefined
    | Null
    | Boolean(b: bool)
    | Number(n: real)
    | BigInt(i: int)
    | Str(s: string)
    | Symbol(description: string)
    | Function(name: string)
    | Array(elements: seq<JsValue>)
    | Record(properties: map<string, JsValue>)

  /** The answers `typeof` can give (section 13.5.3 of ECMA-262). */
  const TypeTags: set<string> :=
    {"undefined", "object", "boolean", "number", "bigint", "string", "symbol", "function"}

  /** The `typeof` operator. Each tag names exactly one kind of value, except
      "object", which `null`, arrays and plain objects share. */
  function TypeOf(v: JsValue): (t: string)
    ensures t in TypeTags
    ensures t == "undefined" <==> v.Undefined?
    ensures t == "object" <==> v.Null? || v.Array? || v.Record?
    ensures t == "boolean" <==> v.Boolean?
    ensures t == "number" <==> v.Number?
    ensures t == "bigint" <==> v.BigInt?
    ensures t == "string" <==> v.Str?
    ensures t == "symbol" <==> v.Symbol?
    ensures t == "function" <==> v.Function?
  {
    match v
    case Undefined => "undefined"
    case Null => "object"
    case Boolean(_) => "boolean"
    case Number(_) => "number"
    case BigInt(_) => "bigint"
    case Str(_) => "string"
    case Symbol(_) => "symbol"
    case Function(_) => "function"
    case Array(_) => "object"
    case Record(_) => "object"
  }

  /** The external constants table: constant name to value. */
  type ConstantTable = map<string, JsValue>

  /** The entries the annotation loop writes: each name with its type tag. */
  function TypeTable(c: ConstantTable): (m: Object)
    ensures m.Keys == c.Keys
    ensures forall k :: k in c ==> k in m && m[k] == Leaf(TypeOf(c[k]))
  {
    map k | k in c :: Leaf(TypeOf(c[k]))
  }

  /** `for (var i in constants) def[i] = typeof constants[i]`: every constant
      name becomes a top-level key holding its type tag, overwriting an entry
      of the same name; every other entry is untouched. */
  function Annotate(tree: Object, c: ConstantTable): (r: Object)
    ensures r.Keys == tree.Keys + c.Keys
    ensures forall k :: k in c ==> r[k] == Leaf(TypeOf(c[k]))
    ensures forall k :: k in tree && k !in c ==> r[k] == tree[k]
  {
    tree + TypeTable(c)
  }

  /** The loop as the script runs it, one constant at a time. The order in
      which the names are visited does not change the result. */
  method AnnotateInPlace(tree: Object, c: ConstantTable) returns (r: Object)
    ensures r.Keys == tree.Keys + c.Keys
    ensures forall k :: k in c ==> r[k] == Leaf(TypeOf(c[k]))
    ensures forall k :: k in tree && k !in c ==> r[k] == tree[k]
  {
    r := tree;
    var todo := c.Keys;
    while todo != {}
      invariant todo <= c.Keys
      invariant r.Keys == tree.Keys + (c.Keys - todo)
      invariant forall k :: k in c && k !in todo ==> r[k] == Leaf(TypeOf(c[k]))
      invariant forall k :: k in tree && k !in c ==> r[k] == tree[k]
      invariant forall k :: k in tree && k in todo ==> r[k] == tree[k]
      decreases todo
    {
      var name :| name in todo;
      r := r[name := Leaf(TypeOf(c[name]))];
      todo := todo - {name};
    }
  }

  /** The annotation is an `_extend` of the tree by the type table. */
  lemma AnnotateIsExtend(tree: Object, c: ConstantTable)
    ensures Annotate(tree, c) == Extend(tree, [TypeTable(c)])
  {
    ExtendOne(tree, TypeTable(c));
  }

  /** Annotating twice with the same table is annotating once. */
  lemma AnnotateIdempotent(tree: Object, c: ConstantTable)
    ensures Annotate(Annotate(tree, c), c) == Annotate(tree, c)
  {
    AnnotateIsExtend(tree, c);
    AnnotateIsExtend(Annotate(tree, c), c);
    ExtendIdempotent(tree, [TypeTable(c)]);
  }
}
