# tern-screeps build script, modelled in Dafny

`build.js` assembles the Tern definition file for the Screeps game API. It
writes a large object literal, `def_screeps`, and composes parts of it with
one helper, `_extend(dst, src1, ..., srcN)`. The helper copies every
enumerable key of every source into `dst`, left to right, and returns `dst`.

The script uses `_extend` in three ways:

- It layers documentation fragments. `roomFindPathOptions` is built on
  `pathfindingOptions`, and `moveToOptions` is built on
  `roomFindPathOptions`.
- It layers class prototypes. `Structure.prototype` is built on
  `RoomObject.prototype`, and `OwnedStructure.prototype` on
  `Structure.prototype`. Classes that hold cargo also mix in the `store`
  property of `_docs`.
- It adds classes to the top-level tree, in batches.

Last, the script annotates the tree. Every name in the game's constants
table becomes a top-level entry holding `typeof` of the constant's value.

The modules follow that structure:

| module | file | what it holds |
|---|---|---|
| `Nodes` | nodes.dfy | Object values: a property is a string leaf or a nested object. |
| `Merge` | merge.dfy | `_extend` on values, as a left fold of map override. It has a reference definition of "last write wins" and the algebra of the fold. |
| `Ordered` | ordered.dfy | Objects as duplicate-free association lists, so that key order (the order of the JSON output) is modelled. It includes the loop-by-loop method and proves it agrees with `Merge`. |
| `Heap` | heap.dfy | Objects with identity: a store of objects, where `_extend` writes only its destination. |
| `Constants` | constants.dfy | `typeof` over JavaScript values, and the annotation loop. |
| `Schema` | schema.dfy | The options chain in `_docs` and the class/prototype tree in `def_screeps`. It covers representative members, with each property reduced to its `"!type"`. |
| `Definitions` | definitions.dfy | The whole build: the composed tree annotated with a constants table. |

## Model

| member | source | states |
|---|---|---|
| Merge.Extend | build.js:3-12 | The result's keys are the destination's keys plus every source's keys. A key no source holds keeps the destination's value. A key the last source holds takes that source's value. |
| Merge.LastWith | build.js:6-10 | Reference definition of "last write wins": the index of a source holding the key, after which no source holds it; or none, when no source holds it. |
| Merge.SourceKeysSpec | build.js:6-9 | A key is in the merged key set exactly when some source holds it, and exactly when a last holder exists. |
| Merge.ExtendLastWriteWins | build.js:6-10 | The result has a key iff the destination or some source has it. Its value is the last holding source's value, or the destination's own value when no source holds the key. |
| Merge.ExtendOne | build.js:7-9 | One source overrides the destination key by key (map override `dst + s`). |
| Merge.ExtendAppend | build.js:3-12 | Merging `a` and then `b` in two calls is merging `a + b` in one call. |
| Merge.ExtendCons | build.js:6-10 | The merge is the left fold: the first source is absorbed first, and the rest are merged into that. |
| Merge.ExtendEmptySources | build.js:5-11 | With no sources, or only empty ones, the destination comes back unchanged. |
| Merge.ExtendIdempotent | build.js:6-10 | Merging the same sources into the result again changes nothing. |
| Merge.CloneIdempotent | build.js:6-10 | `_extend({}, x)` equals `x`, and merging `x` into that again gives the same object. |
| Merge.ExtendIsShallow | build.js:7-9 | A nested object under a key the sources write is replaced wholesale by the last source's value. When the destination's nested object has a field the source's lacks, the result is not the one-level deep merge. |
| Merge.ShallowOwnerExample | build.js:7-9 | An illustration, not a merge build.js performs. The two `owner` shapes in build.js (build.js:533 uses "!", build.js:617 uses "!doc") show that writing one over the other would lose the "!doc" field instead of merging it. |
| Ordered.Put | build.js:8 | `dst[i] = v` keeps an existing key where it is and appends a new key. It keeps keys distinct. Its map view is the map view with `i` set to `v`. |
| Ordered.ToMapUpdate | build.js:8 | Replacing the value at one position of a duplicate-free object updates that key in the map view. |
| Ordered.AssignAll | build.js:7-9 | Copying one source keeps keys distinct and keeps the destination's keys as a prefix of the result's keys. |
| Ordered.ExtendOrdered | build.js:6-10 | Copying all sources in order keeps keys distinct and keeps the destination's keys as a prefix. |
| Ordered.AssignAllView | build.js:7-9 | The map view after copying one source is the destination's view overridden by the source's view. |
| Ordered.ExtendOrderedView | build.js:3-12 | The ordered merge, once its order is forgotten, equals `Merge.Extend` of the inputs' map views. |
| Ordered.AssignAllOrder | build.js:7-9 | After one source, the key order is the destination's keys in place (overwritten ones included), then the source's new keys in the source's order. |
| Ordered.ExtendInPlace | build.js:3-12 | The nested `forEach`/`for...in` loops compute the ordered merge. They keep the destination's keys in front. For a duplicate-free destination, the result's map view is `Merge.Extend` of the inputs' views. |
| Heap.ExtendAt | build.js:3-12 | In a store of objects, `_extend` writes no object but the destination, allocates nothing, and never removes a destination key. |
| Heap.ExtendAtIsExtend | build.js:6-10 | The destination ends up as `Merge.Extend` of its old contents and the sources' old contents. A source that is the destination itself contributes nothing. |
| Heap.LayerLeavesParent | build.js:62 | `_extend({}, parent, own)` into a new object leaves `parent`, `own` and every other object as they were. The new object is the merge of `parent` then `own`. |
| Constants.TypeOf | build.js:1984 | `typeof` answers one of the eight tags. Each tag names exactly one kind of value, except "object", which covers `null`, arrays and plain objects. |
| Constants.TypeTable | build.js:1983-1985 | The annotations have exactly the constant names as keys, and the entry for each name is the leaf holding `typeof` of that constant's value. |
| Constants.Annotate | build.js:1983-1985 | Top-level keys become the tree's keys plus the constant names. Each constant name holds its value's `typeof`, replacing any entry of that name. Every other entry is unchanged. |
| Constants.AnnotateInPlace | build.js:1983-1985 | The loop, one constant at a time in any order, gives the same key set, tags and untouched entries. |
| Constants.AnnotateIsExtend | build.js:1983-1985 | The annotation is `_extend` of the tree by the table of type tags. |
| Constants.AnnotateIdempotent | build.js:1983-1985 | Annotating twice with the same table is annotating once. |
| Schema.Layer | build.js:62 | `_extend({}, parent, own)` has the keys of both. Its own fields win, and the parent's other fields are inherited unchanged. |
| Schema.LayerStrict | build.js:62 | A layer contains its parent's keys. It strictly extends them exactly when its own fields include a key the parent lacks. |
| Schema.LayerChain | build.js:61-113 | Two layers that each add a new key form a strictly growing chain, and each layer's own fields survive in it. |
| Schema.ComposeDocs | build.js:24-113 | The three `_extend(_docs, ...)` calls leave `_docs` with exactly the keys `store`, `pathfindingOptions`, `roomFindPathOptions` and `moveToOptions`. `store` and the base options are kept as given. `Schema.ComposeDocsLayers` characterises the two layers. |
| Schema.AddDoc | build.js:24 | `_extend(_docs, {k: v})` adds `k` holding `v` and leaves every other fragment as it was. |
| Schema.ComposeDocsLayers | build.js:24-113 | For any contents, the three `_extend(_docs, ...)` calls give `store`, the base options, and each options layer as its parent (read back out of `_docs`) plus its own fields. |
| Schema.DocsOptions | build.js:24-113 | In `_docs`, `roomFindPathOptions` is the layer of its own fields on `pathfindingOptions`, and `moveToOptions` the layer of its own fields on that. |
| Schema.DocsStore | build.js:15-22 | `_docs.store` keeps the `store` property after the options are added. |
| Schema.OptionsChain | build.js:61-113 | keys(pathfindingOptions) ⊂ keys(roomFindPathOptions) ⊂ keys(moveToOptions), strictly. Each layer's own fields win over inherited ones. |
| Schema.NewOptionFields | build.js:61-113 | `ignoreCreeps` is new in the room options, and `reusePath` is new in the movement options. |
| Schema.WithStore | build.js:584 | `_extend({}, _docs.store, parent, own)` has all three key sets. Precedence is own, then parent, then `store`. |
| Schema.AddClass | build.js:485-486 | `_extend(def_screeps, {name: class})` adds `name`, whose prototype is the given object, and leaves every other entry as it was. |
| Schema.AddClasses | build.js:543-544 | A batch of three classes adds exactly their names and leaves every other entry as it was. Each name holds its class, except where a later name in the same literal repeats it and wins. |
| Schema.AddStructure | build.js:485-521 | The batch adds `Structure`, whose prototype is the layer of its own members on `RoomObject.prototype`. Every other entry is unchanged. `Schema.AddStructureLayer` gives the result whole. |
| Schema.AddStructureLayer | build.js:485-521 | Adding `Structure` sets one top-level class whose prototype is the layer on `RoomObject.prototype`. `RoomObject` is untouched. |
| Schema.AddOwnedStructureLayer | build.js:523-541 | Adding `OwnedStructure` sets one class whose prototype is the layer on `Structure.prototype`. `RoomObject` and `Structure` are untouched. |
| Schema.AddOwnedStructure | build.js:523-541 | The batch adds `OwnedStructure`, whose prototype is the layer of its own members on `Structure.prototype`. Every other entry is unchanged, so the parent's prototype is too. |
| Schema.AddLeaves | build.js:543-1460 | The leaf batch adds exactly `Creep`, `StructureContainer` and `StructureExtension`. Every other entry is unchanged. `Schema.AddLeavesLayer` gives their prototypes. |
| Schema.AddLeavesLayer | build.js:543-1460 | The leaf batch sets three classes. `Creep` mixes `store` into `RoomObject.prototype`, `StructureContainer` into `Structure.prototype`, and `StructureExtension` into `OwnedStructure.prototype`. |
| Schema.ComposeTree | build.js:485-1460 | The batches, in script order, add exactly the five classes and leave every other entry of the literal, `RoomObject` among them, as it was. `Schema.ComposeTreeLayers` gives the result whole. |
| Schema.ComposeTreeLayers | build.js:485-1460 | For any literal contents, the composed tree is the intended tree: each prototype is built from the final prototype of the class it names as parent. |
| Schema.TreePrototypes | build.js:485-1460 | In the composed tree, `RoomObject.prototype` is the literal's. `Structure.prototype` is the layer on it, and `OwnedStructure.prototype` the layer on that. `Creep` and `StructureContainer` mix `store` under their parents and own members. `StructureExtension.prototype` is `store` layered with `OwnedStructure.prototype`. |
| Schema.TreeChain | build.js:485-541 | When each prototype layer adds a new member, the three prototypes grow strictly, and each class's own members survive. |
| Schema.DefScreepsOf | build.js:115-484 | The `def_screeps` literal has the keys `!name`, `!define`, `RoomObject` and `Store`. `!define` holds the given definitions, and the two classes carry the given prototypes. |
| Schema.NewMemberFields | build.js:485-541 | `id` is new in `Structure`, and `my` is new in `OwnedStructure`. |
| Schema.PrototypeChain | build.js:485-541 | keys(RoomObject.prototype) ⊂ keys(Structure.prototype) ⊂ keys(OwnedStructure.prototype), strictly. `RoomObject.prototype` is the literal's. |
| Schema.PrototypeOwnMembers | build.js:489-541 | `Structure.prototype` and `OwnedStructure.prototype` hold their own members with their own values. |
| Schema.StoreMixins | build.js:584-1101 | The prototypes of `Creep` and `StructureContainer` have `store`, their parent's keys and their own. `StructureExtension.prototype` is exactly `store` layered with `OwnedStructure.prototype`. |
| Definitions.Build | build.js:1983-1985 | Every constant name holds its value's `typeof` tag, and every other entry of the composed tree is unchanged. `Definitions.BuildKeepsPrototypeChain` and `Definitions.ConstantShadowsClass` say what this means for the classes. |
| Definitions.BuildKeys | build.js:1983-1985 | The written tree has exactly the composed tree's keys plus the constant names, with no other key. |
| Definitions.BuildKeepsPrototypeChain | build.js:1983-1985 | When no constant is named like a class of the chain, the written tree still has the strictly growing prototype chain. |
| Definitions.AnnotateKeepsClass | build.js:1983-1985 | A class whose name is not a constant keeps its prototype through the annotation. |
| Definitions.ConstantShadowsClass | build.js:1983-1985 | A constant named like a class replaces the whole class by a type tag, so the class has no prototype left. |
| Definitions.AnnotateEntry | build.js:1984 | A constant's entry is a tag that reads "string" iff the value is a string, and "number" iff it is a number. |
| Definitions.AnnotateExample | build.js:1983-1985 | The table `{FOO: "bar", BAZ: 5}` adds `FOO: "string"` and `BAZ: "number"` and leaves every other entry alone. |

## Left out

- Writing the file (build.js:1988): `fs.writeFileSync` is I/O and `JSON.stringify` is a library serializer. The model ends with the object handed to them (`Definitions.Build`). `Ordered` models the key order that serialization follows.
- Loading the constants module (build.js:1981) is an external `require`. Its table is a parameter of the model.
- The documentation payload (most of build.js:15-1979) is static data:
  - Only representative classes and members appear: `RoomObject`, `Store`, `Structure`, `OwnedStructure`, `Creep`, `StructureContainer` and `StructureExtension`, plus the three options schemas.
  - Each property keeps its `"!type"` and drops its "!doc" and "!url" prose. The two nested `owner` objects are the exception: they keep their label text, under "!" (build.js:533) and under "!doc" (build.js:617).
  - The other classes of the batch at build.js:543-1460, and the batch at build.js:1462-1979, follow the same patterns and are not modelled.
- The `"!type"` signature strings are opaque text. The script contains no parser for them.
- Number values of constants are reals. `typeof` gives "number" for every double, NaN and infinities included, so floating point plays no part.
- `for...in` over inherited enumerable properties, over a string or other primitive source, and over integer-like keys (which JavaScript enumerates first, in numeric order) is not modelled. Every source in build.js is a plain object literal with non-numeric keys. `FieldsOf` and `Heap.Deref` read a missing or non-object value as enumerating nothing.
- Reading `.prototype` of a class that does not exist would throw a TypeError in JavaScript. `ProtoOf` reads it as an empty object; build.js never does this.
- Heap.ExtendAt: requires the destination to be an existing object. `_extend(undefined, src)` throws a TypeError when the source has keys, and build.js never calls it that way.
- The value-based `Schema` and `Definitions` do not model the sharing at build.js:161-163, where `"!define"` holds the same objects as `_docs`. Sharing is invisible in the serialized output. `Heap` covers identity only for the objects `_extend` is given. The nested objects inside them are values there, so it does not model the sharing a shallow copy creates: after build.js:489, `Structure.prototype.pos` is the same object as `RoomObject.prototype.pos`. build.js never mutates a nested object after copying it, so this sharing cannot change the output.
- `Merge.Extend`, `Schema.Layer`, `Schema.WithStore` and `Constants.Annotate` return new values instead of mutating the destination. `Ordered.ExtendInPlace` and `Heap.ExtendAt` model the in-place assignments.
