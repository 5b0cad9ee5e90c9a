/** The whole build: the composed definition tree with the game constants
    annotated at top level. This is the object build.js hands to the JSON
    serializer. */
module Definitions {
  import opened Nodes
  import opened Schema
  import opened Constants

  /** `def_screeps` as written to the definition file, for a given
      constants table. */
  function Build(c: ConstantTable): (r: Object)
    ensures forall k :: k in c ==> k in r && r[k] == Leaf(TypeOf(c[k]))
    ensures forall k :: k in Tree() && k !in c ==> k in r && r[k] == Tree()[k]
  {
    Annotate(Tree(), c)
  }

  /** The written tree has no keys but the composed tree's and the
      constants' names. */
  lemma BuildKeys(c: ConstantTable)
    ensures Build(c).Keys == Tree().Keys + c.Keys
  {
  }

  /** When no constant is named like a class of the chain, the output keeps
      the chain: the three prototypes strictly grow. */
  lemma BuildKeepsPrototypeChain(c: ConstantTable)
    requires "RoomObject" !in c && "Structure" !in c && "OwnedStructure" !in c
    ensures ProtoOf(Build(c), "RoomObject").Keys < ProtoOf(Build(c), "Structure").Keys
    ensures ProtoOf(Build(c), "Structure").Keys < ProtoOf(Build(c), "OwnedStructure").Keys
  {
    PrototypeChain();
    AnnotateKeepsClass(Tree(), c, "RoomObject");
    AnnotateKeepsClass(Tree(), c, "Structure");
    AnnotateKeepsClass(Tree(), c, "OwnedStructure");
  }

  lemma AnnotateKeepsClass(t: Object, c: ConstantTable, name: string)
    requires name !in c
    ensures ProtoOf(Annotate(t, c), name) == ProtoOf(t, name)
  {
  }

  /** A constant named like a class replaces the class wholesale by its type
      tag: the class's prototype is gone from the output. */
  lemma ConstantShadowsClass(t: Object, c: ConstantTable, name: string)
    requires name in c
    ensures name in Annotate(t, c) && Annotate(t, c)[name].Leaf?
    ensures ProtoOf(Annotate(t, c), name) == map[]
  {
  }

  /** A constant's entry is the tag of its value's kind. */
  lemma AnnotateEntry(t: Object, c: ConstantTable, k: string)
    requires k in c
    ensures var r := Annotate(t, c);
      && k in r && r[k].Leaf?
      && (r[k].text == "string" <==> c[k].Str?)
      && (r[k].text == "number" <==> c[k].Number?)
  {
  }

  /** The table `{FOO: "bar", BAZ: 5}` adds `"FOO": "string"` and
      `"BAZ": "number"` next to the untouched entries of the tree. */
  lemma AnnotateExample(t: Object)
    ensures var r := Annotate(t, map["FOO" := Str("bar"), "BAZ" := Number(5.0)]);
      && "FOO" in r && r["FOO"] == Leaf("string")
      && "BAZ" in r && r["BAZ"] == Leaf("number")
      && forall k :: k in t && k != "FOO" && k != "BAZ" ==> k in r && r[k] == t[k]
  {
    var c := map["FOO" := Str("bar"), "BAZ" := Number(5.0)];
    assert c["FOO"].Str? && c["BAZ"].Number?;
    AnnotateEntry(t, c, "FOO");
    AnnotateEntry(t, c, "BAZ");
  }
}
