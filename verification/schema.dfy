/** The composition of the definition tree in build.js, with each literal
    reduced to its property names and "!type" signatures. Layers are built
    as `_extend({}, parent, own)`: a fresh object that inherits every field
    of the parent and then takes the layer's own fields.
 */
module Schema {
  import opened Nodes
  import opened Merge

  /** `_extend({}, parent, own)`. */
  function Layer(parent: Object, own: Object): (r: Object)
    ensures r.Keys == parent.Keys + own.Keys
    ensures forall k :: k in own ==> r[k] == own[k]
    ensures forall k :: k in parent && k !in own ==> r[k] == parent[k]
  {
    LayerIsOverride(parent, own);
    Extend(map[], [parent, own])
  }

  lemma LayerIsOverride(parent: Object, own: Object)
    ensures Extend(map[], [parent, own]) == parent + own
  {
    assert [parent, own] == [parent] + [own];
    ExtendAppend(map[], [parent], [own]);
    ExtendOne(map[], parent);
    assert map[] + parent == parent;
    ExtendOne(parent, own);
  }

  /** A layer strictly extends its parent exactly when it brings a field the
      parent lacks. */
  lemma LayerStrict(parent: Object, own: Object)
    ensures parent.Keys <= Layer(parent, own).Keys
    ensures parent.Keys < Layer(parent, own).Keys <==> exists k :: k in own && k !in parent
  {
    if exists k :: k in own && k !in parent {
      var k :| k in own && k !in parent;
      assert k in Layer(parent, own).Keys;
    } else {
      assert own.Keys <= parent.Keys;
      assert Layer(parent, own).Keys == parent.Keys;
    }
  }

  // ---------------------------------------------------------------------
  // The documentation fragments (`_docs`)

  /** `_docs.store`: the `store` property shared by every object with cargo. */
  const StoreField: Object := map["store" := Prop("+Store")]

  const PathfindingOwn: Object := map[
    "roomCallback" := Prop("fn(roomName: string) -> +CostMatrix"),
    "plainCost" := Prop("number"),
    "swampCost" := Prop("number"),
    "flee" := Prop("bool"),
    "maxOps" := Prop("number"),
    "maxRooms" := Prop("number"),
    "maxCost" := Prop("number"),
    "heuristicWeight" := Prop("number")]

  const RoomFindPathOwn: Object := map[
    "ignoreCreeps" := Prop("boolean"),
    "ignoreDestructibleStructures" := Prop("boolean"),
    "ignoreRoads" := Prop("boolean"),
    "ignore" := Prop("[+RoomObject]"),
    "avoid" := Prop("[+RoomObject]"),
    "serialize" := Prop("boolean"),
    "range" := Prop("number")]

  const MoveToOwn: Object := map[
    "reusePath" := Prop("boolean"),
    "serializeMemory" := Prop("boolean"),
    "noPathFinding" := Prop("boolean"),
    "visualizePathStyle" := Prop("object")]

  /** `_docs` after its three `_extend(_docs, ...)` calls, for any contents
      of the literals: `store`, then the base pathfinding options, then each
      options layer built from the parent it reads back out of `_docs`. */
  function ComposeDocs(store: Object, pf: Object, rf: Object, mt: Object): (r: Object)
    ensures r.Keys == {"store", "pathfindingOptions", "roomFindPathOptions", "moveToOptions"}
    ensures FieldsOf(r, "store") == store && FieldsOf(r, "pathfindingOptions") == pf
  {
    var d0 := map["store" := Obj(store)];
    var d1 := AddDoc(d0, "pathfindingOptions", pf);
    var d2 := AddDoc(d1, "roomFindPathOptions", Layer(FieldsOf(d1, "pathfindingOptions"), rf));
    var d3 := AddDoc(d2, "moveToOptions", Layer(FieldsOf(d2, "roomFindPathOptions"), mt));
    DocsKeys(d0, d1, d2, d3, store, pf);
    d3
  }

  /** `_extend(d, {k: v})` on `_docs`: one fragment is set, the others are
      left as they were. */
  function AddDoc(d: Object, k: string, v: Object): (r: Object)
    ensures r.Keys == d.Keys + {k}
    ensures FieldsOf(r, k) == v
    ensures forall j :: j in d && j != k ==> j in r && r[j] == d[j]
  {
    PutObject(d, k, v);
    Extend(d, [map[k := Obj(v)]])
  }

  lemma DocsKeys(d0: Object, d1: Object, d2: Object, d3: Object, store: Object, pf: Object)
    requires d0 == map["store" := Obj(store)]
    requires d1.Keys == d0.Keys + {"pathfindingOptions"} && FieldsOf(d1, "pathfindingOptions") == pf
    requires forall j :: j in d0 && j != "pathfindingOptions" ==> j in d1 && d1[j] == d0[j]
    requires d2.Keys == d1.Keys + {"roomFindPathOptions"}
    requires forall j :: j in d1 && j != "roomFindPathOptions" ==> j in d2 && d2[j] == d1[j]
    requires d3.Keys == d2.Keys + {"moveToOptions"}
    requires forall j :: j in d2 && j != "moveToOptions" ==> j in d3 && d3[j] == d2[j]
    ensures d3.Keys == {"store", "pathfindingOptions", "roomFindPathOptions", "moveToOptions"}
    ensures FieldsOf(d3, "store") == store && FieldsOf(d3, "pathfindingOptions") == pf
  {
    assert "store" != "pathfindingOptions" && "store" != "roomFindPathOptions" && "store" != "moveToOptions";
    assert "pathfindingOptions" != "roomFindPathOptions" && "pathfindingOptions" != "moveToOptions";
  }

  /** The shape `_docs` is meant to have: the four fragments side by side. */
  function DocsLiteral(store: Object, pf: Object, rf: Object, mt: Object): Object
  {
    map["store" := Obj(store), "pathfindingOptions" := Obj(pf),
        "roomFindPathOptions" := Obj(rf), "moveToOptions" := Obj(mt)]
  }

  /** `_extend(o, {k: v})` sets one property. */
  lemma PutObject(d: Object, k: string, v: Object)
    ensures Extend(d, [map[k := Obj(v)]]) == d[k := Obj(v)]
    ensures FieldsOf(d[k := Obj(v)], k) == v
  {
    ExtendOne(d, map[k := Obj(v)]);
  }

  /** The composed `_docs` holds the base options and the two layers, each
      its parent plus its own fields. */
  lemma ComposeDocsLayers(store: Object, pf: Object, rf: Object, mt: Object)
    ensures ComposeDocs(store, pf, rf, mt) == DocsLiteral(store, pf, Layer(pf, rf), Layer(Layer(pf, rf), mt))
  {
    var d0 := map["store" := Obj(store)];
    PutObject(d0, "pathfindingOptions", pf);
    var d1 := d0["pathfindingOptions" := Obj(pf)];
    PutObject(d1, "roomFindPathOptions", Layer(pf, rf));
    var d2 := d1["roomFindPathOptions" := Obj(Layer(pf, rf))];
    PutObject(d2, "moveToOptions", Layer(Layer(pf, rf), mt));
  }

  lemma DocsLiteralFields(store: Object, pf: Object, rf: Object, mt: Object)
    ensures var d := DocsLiteral(store, pf, rf, mt);
      && FieldsOf(d, "store") == store
      && FieldsOf(d, "pathfindingOptions") == pf
      && FieldsOf(d, "roomFindPathOptions") == rf
      && FieldsOf(d, "moveToOptions") == mt
  {
  }

  function Docs(): Object
  {
    ComposeDocs(StoreField, PathfindingOwn, RoomFindPathOwn, MoveToOwn)
  }

  function PathfindingOptions(): Object { FieldsOf(Docs(), "pathfindingOptions") }
  function RoomFindPathOptions(): Object { FieldsOf(Docs(), "roomFindPathOptions") }
  function MoveToOptions(): Object { FieldsOf(Docs(), "moveToOptions") }

  /** Two layers on a base, each bringing a field below it lacks, form a
      strictly growing chain in which each layer's own fields win. */
  lemma LayerChain(base: Object, own1: Object, own2: Object, k1: string, k2: string)
    requires k1 in own1 && k1 !in base
    requires k2 in own2 && k2 !in base && k2 !in own1
    ensures base.Keys < Layer(base, own1).Keys < Layer(Layer(base, own1), own2).Keys
    ensures Contains(Layer(base, own1), own1)
    ensures Contains(Layer(Layer(base, own1), own2), own2)
  {
    LayerStrict(base, own1);
    LayerStrict(Layer(base, own1), own2);
  }

  /** `_docs` holds the base options and the two layers built on them. */
  lemma DocsOptions()
    ensures PathfindingOptions() == PathfindingOwn
    ensures RoomFindPathOptions() == Layer(PathfindingOwn, RoomFindPathOwn)
    ensures MoveToOptions() == Layer(Layer(PathfindingOwn, RoomFindPathOwn), MoveToOwn)
  {
    var rf := Layer(PathfindingOwn, RoomFindPathOwn);
    ComposeDocsLayers(StoreField, PathfindingOwn, RoomFindPathOwn, MoveToOwn);
    DocsLiteralFields(StoreField, PathfindingOwn, rf, Layer(rf, MoveToOwn));
  }

  /** The options chain: pathfinding options, room-pathfinding options and
      movement options strictly grow, each layer's own fields win over what
      it inherits. */
  lemma OptionsChain()
    ensures PathfindingOptions().Keys < RoomFindPathOptions().Keys < MoveToOptions().Keys
    ensures Contains(RoomFindPathOptions(), RoomFindPathOwn)
    ensures Contains(MoveToOptions(), MoveToOwn)
  {
    DocsOptions();
    NewOptionFields();
    LayerChain(PathfindingOwn, RoomFindPathOwn, MoveToOwn, "ignoreCreeps", "reusePath");
  }

  /** A field each options layer adds. */
  lemma NewOptionFields()
    ensures "ignoreCreeps" in RoomFindPathOwn && "ignoreCreeps" !in PathfindingOwn
    ensures "reusePath" in MoveToOwn && "reusePath" !in PathfindingOwn && "reusePath" !in RoomFindPathOwn
  {
  }

  // ---------------------------------------------------------------------
  // The prototype chain (`def_screeps`)

  /** A documented class: a constructor whose `prototype` lists the
      members of its instances (the "!doc" text is left out). */
  function Class(proto: Object): Node
  {
    Obj(map["!type" := Leaf("fn()"), "prototype" := Obj(proto)])
  }

  /** `def.<name>.prototype`, read as `for...in` would enumerate it. */
  function ProtoOf(t: Object, name: string): Object
  {
    FieldsOf(FieldsOf(t, name), "prototype")
  }

  lemma ProtoOfPut(t: Object, name: string, k: string, proto: Object)
    ensures ProtoOf(t[k := Class(proto)], k) == proto
    ensures name != k ==> ProtoOf(t[k := Class(proto)], name) == ProtoOf(t, name)
  {
  }

  /** `_extend({}, _docs.store, parent, own)`: a class with cargo. Its own
      fields win, then the parent's, then `store`. */
  function WithStore(store: Object, parent: Object, own: Object): (r: Object)
    ensures r.Keys == store.Keys + parent.Keys + own.Keys
    ensures forall k :: k in own ==> r[k] == own[k]
    ensures forall k :: k in parent && k !in own ==> r[k] == parent[k]
    ensures forall k :: k in store && k !in parent && k !in own ==> r[k] == store[k]
  {
    WithStoreIsOverride(store, parent, own);
    Extend(map[], [store, parent, own])
  }

  lemma WithStoreIsOverride(store: Object, parent: Object, own: Object)
    ensures Extend(map[], [store, parent, own]) == store + parent + own
  {
    assert [store, parent, own] == [store, parent] + [own];
    ExtendAppend(map[], [store, parent], [own]);
    LayerIsOverride(store, parent);
    ExtendOne(store + parent, own);
  }

  /** `_extend(t, {name: <class>})`: one class is set, the rest of the tree
      is left as it was. */
  function AddClass(t: Object, name: string, proto: Object): (r: Object)
    ensures r.Keys == t.Keys + {name}
    ensures ProtoOf(r, name) == proto
    ensures forall k :: k in t && k != name ==> k in r && r[k] == t[k]
  {
    PutNode(t, name, Class(proto));
    ProtoOfPut(t, name, name, proto);
    Extend(t, [map[name := Class(proto)]])
  }

  /** `_extend(t, {n1: <class>, n2: <class>, n3: <class>})`. */
  function AddClasses(t: Object, n1: string, p1: Object, n2: string, p2: Object, n3: string, p3: Object): (r: Object)
    ensures r.Keys == t.Keys + {n1, n2, n3}
    ensures forall k :: k in t && k != n1 && k != n2 && k != n3 ==> k in r && r[k] == t[k]
    ensures n3 in r && r[n3] == Class(p3)
    ensures n2 != n3 ==> n2 in r && r[n2] == Class(p2)
    ensures n1 != n2 && n1 != n3 ==> n1 in r && r[n1] == Class(p1)
  {
    ExtendOne(t, map[n1 := Class(p1), n2 := Class(p2), n3 := Class(p3)]);
    OverrideThree(t, n1, Class(p1), n2, Class(p2), n3, Class(p3));
    Extend(t, [map[n1 := Class(p1), n2 := Class(p2), n3 := Class(p3)]])
  }

  /** `_extend(def_screeps, {Structure: ...})`: the structure prototype is
      `RoomObject.prototype` plus the structure's own members. */
  function AddStructure(t: Object, structureOwn: Object): (r: Object)
    ensures r.Keys == t.Keys + {"Structure"}
    ensures ProtoOf(r, "Structure") == Layer(ProtoOf(t, "RoomObject"), structureOwn)
    ensures forall k :: k in t && k != "Structure" ==> k in r && r[k] == t[k]
  {
    AddClass(t, "Structure", Layer(ProtoOf(t, "RoomObject"), structureOwn))
  }

  /** `_extend(def_screeps, {OwnedStructure: ...})`, on `Structure.prototype`. */
  function AddOwnedStructure(t: Object, ownedOwn: Object): (r: Object)
    ensures r.Keys == t.Keys + {"OwnedStructure"}
    ensures ProtoOf(r, "OwnedStructure") == Layer(ProtoOf(t, "Structure"), ownedOwn)
    ensures forall k :: k in t && k != "OwnedStructure" ==> k in r && r[k] == t[k]
    ensures ProtoOf(r, "Structure") == ProtoOf(t, "Structure")
  {
    ProtoOfPut(t, "Structure", "OwnedStructure", Layer(ProtoOf(t, "Structure"), ownedOwn));
    AddClass(t, "OwnedStructure", Layer(ProtoOf(t, "Structure"), ownedOwn))
  }

  /** The batch of leaf classes, each prototype mixing `_docs.store` into a
      parent prototype (`Creep` on `RoomObject`, `StructureContainer` on
      `Structure`, `StructureExtension` on `OwnedStructure`). The parents'
      prototypes are read before the batch is written. */
  function AddLeaves(t: Object, store: Object, creepOwn: Object, containerOwn: Object): (r: Object)
    ensures r.Keys == t.Keys + {"Creep", "StructureContainer", "StructureExtension"}
    ensures forall k :: k in t && k != "Creep" && k != "StructureContainer" && k != "StructureExtension" ==>
      k in r && r[k] == t[k]
  {
    AddClasses(t,
      "Creep", WithStore(store, ProtoOf(t, "RoomObject"), creepOwn),
      "StructureContainer", WithStore(store, ProtoOf(t, "Structure"), containerOwn),
      "StructureExtension", Layer(store, ProtoOf(t, "OwnedStructure")))
  }

  /** The classes `def_screeps` gains after its literal, in script order. The
      tree gains exactly the five classes, and every other entry, among them
      `RoomObject`, is left as it was. */
  function ComposeTree(t0: Object, store: Object, structureOwn: Object, ownedOwn: Object,
                       creepOwn: Object, containerOwn: Object): (r: Object)
    ensures r.Keys == t0.Keys + {"Structure", "OwnedStructure", "Creep", "StructureContainer", "StructureExtension"}
    ensures forall k :: k in t0 && k !in {"Structure", "OwnedStructure", "Creep", "StructureContainer", "StructureExtension"} ==>
      k in r && r[k] == t0[k]
  {
    var t1 := AddStructure(t0, structureOwn);
    var t2 := AddOwnedStructure(t1, ownedOwn);
    var t3 := AddLeaves(t2, store, creepOwn, containerOwn);
    UnionSteps(t0.Keys, "Structure", "OwnedStructure", "Creep", "StructureContainer", "StructureExtension");
    StepsFrame(t0, t1, t2, t3);
    t3
  }

  lemma UnionSteps(a: set<string>, x: string, y: string, z1: string, z2: string, z3: string)
    ensures a + {x} + {y} + {z1, z2, z3} == a + {x, y, z1, z2, z3}
  {
  }

  lemma StepsFrame(t0: Object, t1: Object, t2: Object, t3: Object)
    requires forall k :: k in t0 && k != "Structure" ==> k in t1 && t1[k] == t0[k]
    requires forall k :: k in t1 && k != "OwnedStructure" ==> k in t2 && t2[k] == t1[k]
    requires forall k :: k in t2 && k != "Creep" && k != "StructureContainer" && k != "StructureExtension" ==>
      k in t3 && t3[k] == t2[k]
    ensures forall k :: k in t0 && k !in {"Structure", "OwnedStructure", "Creep", "StructureContainer", "StructureExtension"} ==>
      k in t3 && t3[k] == t0[k]
  {
    forall k | k in t0 && k !in {"Structure", "OwnedStructure", "Creep", "StructureContainer", "StructureExtension"}
      ensures k in t3 && t3[k] == t0[k]
    {
      assert k != "Structure" && k != "OwnedStructure";
      assert k != "Creep" && k != "StructureContainer" && k != "StructureExtension";
    }
  }

  /** The shape the tree is meant to have, with each prototype spelled out
      as the layer of its parent's prototype. */
  function TreeLiteral(t0: Object, store: Object, structureOwn: Object, ownedOwn: Object,
                       creepOwn: Object, containerOwn: Object): Object
  {
    var ro := ProtoOf(t0, "RoomObject");
    var st := Layer(ro, structureOwn);
    var ow := Layer(st, ownedOwn);
    t0["Structure" := Class(st)]["OwnedStructure" := Class(ow)]
      ["Creep" := Class(WithStore(store, ro, creepOwn))]
      ["StructureContainer" := Class(WithStore(store, st, containerOwn))]
      ["StructureExtension" := Class(Layer(store, ow))]
  }

  lemma PutNode(d: Object, k: string, v: Node)
    ensures Extend(d, [map[k := v]]) == d[k := v]
  {
    ExtendOne(d, map[k := v]);
  }

  lemma AddStructureLayer(t: Object, structureOwn: Object)
    ensures AddStructure(t, structureOwn)
         == t["Structure" := Class(Layer(ProtoOf(t, "RoomObject"), structureOwn))]
    ensures ProtoOf(AddStructure(t, structureOwn), "RoomObject") == ProtoOf(t, "RoomObject")
  {
    var st := Layer(ProtoOf(t, "RoomObject"), structureOwn);
    PutNode(t, "Structure", Class(st));
    ProtoOfPut(t, "RoomObject", "Structure", st);
  }

  lemma AddOwnedStructureLayer(t: Object, ownedOwn: Object)
    ensures AddOwnedStructure(t, ownedOwn)
         == t["OwnedStructure" := Class(Layer(ProtoOf(t, "Structure"), ownedOwn))]
    ensures ProtoOf(AddOwnedStructure(t, ownedOwn), "RoomObject") == ProtoOf(t, "RoomObject")
    ensures ProtoOf(AddOwnedStructure(t, ownedOwn), "Structure") == ProtoOf(t, "Structure")
  {
    var ow := Layer(ProtoOf(t, "Structure"), ownedOwn);
    PutNode(t, "OwnedStructure", Class(ow));
    ProtoOfPut(t, "RoomObject", "OwnedStructure", ow);
    ProtoOfPut(t, "Structure", "OwnedStructure", ow);
  }

  lemma AddLeavesLayer(t: Object, store: Object, creepOwn: Object, containerOwn: Object)
    ensures AddLeaves(t, store, creepOwn, containerOwn)
         == t["Creep" := Class(WithStore(store, ProtoOf(t, "RoomObject"), creepOwn))]
             ["StructureContainer" := Class(WithStore(store, ProtoOf(t, "Structure"), containerOwn))]
             ["StructureExtension" := Class(Layer(store, ProtoOf(t, "OwnedStructure")))]
  {
    var creep := Class(WithStore(store, ProtoOf(t, "RoomObject"), creepOwn));
    var container := Class(WithStore(store, ProtoOf(t, "Structure"), containerOwn));
    var extension := Class(Layer(store, ProtoOf(t, "OwnedStructure")));
    ExtendOne(t, map["Creep" := creep, "StructureContainer" := container, "StructureExtension" := extension]);
    OverrideThree(t, "Creep", creep, "StructureContainer", container, "StructureExtension", extension);
  }

  lemma OverrideThree(t: Object, k1: string, v1: Node, k2: string, v2: Node, k3: string, v3: Node)
    ensures t + map[k1 := v1, k2 := v2, k3 := v3] == t[k1 := v1][k2 := v2][k3 := v3]
  {
  }

  /** The composed tree is the intended one: every prototype is built from
      the prototype of the class it names as parent. */
  lemma ComposeTreeLayers(t0: Object, store: Object, structureOwn: Object, ownedOwn: Object,
                          creepOwn: Object, containerOwn: Object)
    ensures ComposeTree(t0, store, structureOwn, ownedOwn, creepOwn, containerOwn)
         == TreeLiteral(t0, store, structureOwn, ownedOwn, creepOwn, containerOwn)
  {
    var t1 := AddStructure(t0, structureOwn);
    AddStructureLayer(t0, structureOwn);
    var t2 := AddOwnedStructure(t1, ownedOwn);
    AddOwnedStructureLayer(t1, ownedOwn);
    ProtoOfPut(t0, "RoomObject", "Structure", Layer(ProtoOf(t0, "RoomObject"), structureOwn));
    AddLeavesLayer(t2, store, creepOwn, containerOwn);
    var ro := ProtoOf(t0, "RoomObject");
    var st := Layer(ro, structureOwn);
    assert ProtoOf(t1, "Structure") == st;
    var ow := Layer(st, ownedOwn);
    ProtoOfPut(t1, "OwnedStructure", "OwnedStructure", ow);
    assert ProtoOf(t2, "OwnedStructure") == ow;
  }

  /** Where each prototype of the composed tree comes from. */
  lemma TreePrototypes(t0: Object, store: Object, structureOwn: Object, ownedOwn: Object,
                       creepOwn: Object, containerOwn: Object)
    ensures var t := ComposeTree(t0, store, structureOwn, ownedOwn, creepOwn, containerOwn);
      var ro := ProtoOf(t0, "RoomObject");
      && ProtoOf(t, "RoomObject") == ro
      && ProtoOf(t, "Structure") == Layer(ro, structureOwn)
      && ProtoOf(t, "OwnedStructure") == Layer(Layer(ro, structureOwn), ownedOwn)
      && ProtoOf(t, "Creep") == WithStore(store, ro, creepOwn)
      && ProtoOf(t, "StructureContainer") == WithStore(store, Layer(ro, structureOwn), containerOwn)
      && ProtoOf(t, "StructureExtension") == Layer(store, Layer(Layer(ro, structureOwn), ownedOwn))
  {
    ComposeTreeLayers(t0, store, structureOwn, ownedOwn, creepOwn, containerOwn);
    var ro := ProtoOf(t0, "RoomObject");
    var st := Layer(ro, structureOwn);
    var ow := Layer(st, ownedOwn);
    TreeLiteralPrototypes(t0, ro, st, ow, WithStore(store, ro, creepOwn),
      WithStore(store, st, containerOwn), Layer(store, ow));
  }

  lemma TreeLiteralPrototypes(t0: Object, ro: Object, st: Object, ow: Object, cr: Object, co: Object, ex: Object)
    requires ProtoOf(t0, "RoomObject") == ro
    ensures var t := t0["Structure" := Class(st)]["OwnedStructure" := Class(ow)]
      ["Creep" := Class(cr)]["StructureContainer" := Class(co)]["StructureExtension" := Class(ex)];
      && ProtoOf(t, "RoomObject") == ro
      && ProtoOf(t, "Structure") == st
      && ProtoOf(t, "OwnedStructure") == ow
      && ProtoOf(t, "Creep") == cr
      && ProtoOf(t, "StructureContainer") == co
      && ProtoOf(t, "StructureExtension") == ex
  {
    var t1 := t0["Structure" := Class(st)];
    ProtoOfPut(t0, "RoomObject", "Structure", st);
    var t2 := t1["OwnedStructure" := Class(ow)];
    ProtoOfPut(t1, "RoomObject", "OwnedStructure", ow);
    ProtoOfPut(t1, "Structure", "OwnedStructure", ow);
    var t3 := t2["Creep" := Class(cr)];
    ProtoOfPut(t2, "RoomObject", "Creep", cr);
    ProtoOfPut(t2, "Structure", "Creep", cr);
    ProtoOfPut(t2, "OwnedStructure", "Creep", cr);
    var t4 := t3["StructureContainer" := Class(co)];
    ProtoOfPut(t3, "RoomObject", "StructureContainer", co);
    ProtoOfPut(t3, "Structure", "StructureContainer", co);
    ProtoOfPut(t3, "OwnedStructure", "StructureContainer", co);
    ProtoOfPut(t3, "Creep", "StructureContainer", co);
    ProtoOfPut(t4, "RoomObject", "StructureExtension", ex);
    ProtoOfPut(t4, "Structure", "StructureExtension", ex);
    ProtoOfPut(t4, "OwnedStructure", "StructureExtension", ex);
    ProtoOfPut(t4, "Creep", "StructureExtension", ex);
    ProtoOfPut(t4, "StructureContainer", "StructureExtension", ex);
  }

  /** With `Structure` and `OwnedStructure` each adding a member the layer
      below lacks, the three prototypes strictly grow and each class's own
      members win over inherited ones. */
  lemma TreeChain(t0: Object, store: Object, structureOwn: Object, ownedOwn: Object,
                  creepOwn: Object, containerOwn: Object, k1: string, k2: string)
    requires k1 in structureOwn && k1 !in ProtoOf(t0, "RoomObject")
    requires k2 in ownedOwn && k2 !in ProtoOf(t0, "RoomObject") && k2 !in structureOwn
    ensures var t := ComposeTree(t0, store, structureOwn, ownedOwn, creepOwn, containerOwn);
      && ProtoOf(t, "RoomObject") == ProtoOf(t0, "RoomObject")
      && ProtoOf(t, "RoomObject").Keys < ProtoOf(t, "Structure").Keys < ProtoOf(t, "OwnedStructure").Keys
      && Contains(ProtoOf(t, "Structure"), structureOwn)
      && Contains(ProtoOf(t, "OwnedStructure"), ownedOwn)
  {
    TreePrototypes(t0, store, structureOwn, ownedOwn, creepOwn, containerOwn);
    LayerChain(ProtoOf(t0, "RoomObject"), structureOwn, ownedOwn, k1, k2);
  }

  // The literal payload, reduced to member names and "!type" signatures.

  const RoomObjectProto: Object := map[
    "pos" := Prop("+RoomPosition"),
    "room" := Prop("+Room"),
    "effects" := Prop("[Effect]")]

  const StoreProto: Object := map[
    "getCapacity" := Prop("fn(resource?: string) -> number"),
    "getFreeCapacity" := Prop("fn(resource?: string) -> number"),
    "getUsedCapacity" := Prop("fn(resource?: string) -> number")]

  const StructureOwn: Object := map[
    "id" := Prop("string"),
    "hits" := Prop("number"),
    "hitsMax" := Prop("number"),
    "structureType" := Prop("string"),
    "destroy" := Prop("fn() -> number"),
    "notifyWhenAttacked" := Prop("fn(enabled: bool) -> number"),
    "isActive" := Prop("fn() -> bool")]

  const OwnedStructureOwn: Object := map[
    "my" := Prop("bool"),
    "owner" := Obj(map["!" := Leaf("An object with the owner info"), "username" := Prop("string")])]

  /** A few of the creep's own members. */
  const CreepOwn: Object := map[
    "body" := Prop("[BodyPart]"),
    "fatigue" := Prop("number"),
    "hits" := Prop("number"),
    "hitsMax" := Prop("number"),
    "id" := Prop("string"),
    "my" := Prop("bool"),
    "name" := Prop("string"),
    "owner" := Obj(map["!doc" := Leaf("An object with the owner info"), "username" := Prop("string")])]

  const ContainerOwn: Object := map["ticksToDecay" := Prop("number")]

  /** The "!define" section, reduced to the three options types it takes
      from `_docs`. */
  function Defines(): Object
  {
    map["PathfindingOptions" := Obj(PathfindingOptions()),
        "RoomFindPathOptions" := Obj(RoomFindPathOptions()),
        "MoveToOptions" := Obj(MoveToOptions())]
  }

  /** The `def_screeps` literal before the later `_extend` calls. */
  function DefScreepsOf(defines: Object, roomObject: Object, store: Object): (r: Object)
    ensures r.Keys == {"!name", "!define", "RoomObject", "Store"}
    ensures FieldsOf(r, "!define") == defines
    ensures ProtoOf(r, "RoomObject") == roomObject && ProtoOf(r, "Store") == store
  {
    map["!name" := Leaf("screeps"), "!define" := Obj(defines),
        "RoomObject" := Class(roomObject), "Store" := Class(store)]
  }

  function DefScreeps(): Object
  {
    DefScreepsOf(Defines(), RoomObjectProto, StoreProto)
  }

  /** `def_screeps` once every class is added, before the constants. */
  function Tree(): Object
  {
    ComposeTree(DefScreeps(), FieldsOf(Docs(), "store"), StructureOwn, OwnedStructureOwn, CreepOwn, ContainerOwn)
  }

  lemma DocsStore()
    ensures FieldsOf(Docs(), "store") == StoreField
  {
    var rf := Layer(PathfindingOwn, RoomFindPathOwn);
    ComposeDocsLayers(StoreField, PathfindingOwn, RoomFindPathOwn, MoveToOwn);
    DocsLiteralFields(StoreField, PathfindingOwn, rf, Layer(rf, MoveToOwn));
  }

  /** A member each prototype layer adds. */
  lemma NewMemberFields()
    ensures "id" in StructureOwn && "id" !in RoomObjectProto
    ensures "my" in OwnedStructureOwn && "my" !in RoomObjectProto && "my" !in StructureOwn
  {
  }

  /** The prototype chain: `RoomObject.prototype`, `Structure.prototype` and
      `OwnedStructure.prototype` strictly grow. */
  lemma PrototypeChain()
    ensures ProtoOf(Tree(), "RoomObject") == RoomObjectProto
    ensures ProtoOf(Tree(), "RoomObject").Keys < ProtoOf(Tree(), "Structure").Keys < ProtoOf(Tree(), "OwnedStructure").Keys
  {
    NewMemberFields();
    TreeChain(DefScreeps(), FieldsOf(Docs(), "store"), StructureOwn, OwnedStructureOwn, CreepOwn, ContainerOwn, "id", "my");
  }

  /** Along the prototype chain each class's own members win over the
      inherited ones. */
  lemma PrototypeOwnMembers()
    ensures Contains(ProtoOf(Tree(), "Structure"), StructureOwn)
    ensures Contains(ProtoOf(Tree(), "OwnedStructure"), OwnedStructureOwn)
  {
    NewMemberFields();
    TreeChain(DefScreeps(), FieldsOf(Docs(), "store"), StructureOwn, OwnedStructureOwn, CreepOwn, ContainerOwn, "id", "my");
  }

  /** The classes with cargo: each prototype holds `store` and its parent's
      members besides its own, and `StructureExtension`, which has no own
      members, is exactly `store` on `OwnedStructure.prototype`. */
  lemma StoreMixins()
    ensures ProtoOf(Tree(), "Creep").Keys == StoreField.Keys + RoomObjectProto.Keys + CreepOwn.Keys
    ensures ProtoOf(Tree(), "StructureContainer").Keys
         == StoreField.Keys + ProtoOf(Tree(), "Structure").Keys + ContainerOwn.Keys
    ensures ProtoOf(Tree(), "StructureExtension") == Layer(StoreField, ProtoOf(Tree(), "OwnedStructure"))
  {
    DocsStore();
    TreePrototypes(DefScreeps(), StoreField, StructureOwn, OwnedStructureOwn, CreepOwn, ContainerOwn);
  }
}
