/** Objects with identity. In build.js `_extend` writes into the object it
    is given and reads its sources by reference, so "the parent layer is not
    altered by building a child" is a statement about a store of objects.
    Here a store maps references to objects; a reference that names no
    object stands for `undefined`, over which `for...in` enumerates nothing.
 */
module Heap {
  import opened Nodes
  import opened Merge

  type Ref = nat

  type Store = map<Ref, Object>

  /** The object a source argument denotes when it is enumerated. */
  function Deref(h: Store, s: Ref): Object
  {
    if s in h then h[s] else map[]
  }

  /** `_extend(d, s1, ..., sN)` on the store: each source, read as it is at
      its turn, is copied into object `d`. Only `d` is written. */
  function ExtendAt(h: Store, d: Ref, srcs: seq<Ref>): (h': Store)
    requires d in h
    ensures h'.Keys == h.Keys
    ensures forall x :: x in h && x != d ==> h'[x] == h[x]
    ensures h'[d].Keys >= h[d].Keys
    decreases |srcs|
  {
    if |srcs| == 0 then h
    else
      var h0 := ExtendAt(h, d, srcs[..|srcs| - 1]);
      h0[d := h0[d] + Deref(h0, srcs[|srcs| - 1])]
  }

  /** The sources other than the destination itself, as objects. */
  function OtherSources(h: Store, d: Ref, srcs: seq<Ref>): seq<Object>
  {
    if |srcs| == 0 then []
    else if srcs[|srcs| - 1] == d then OtherSources(h, d, srcs[..|srcs| - 1])
    else OtherSources(h, d, srcs[..|srcs| - 1]) + [Deref(h, srcs[|srcs| - 1])]
  }

  /** The store-level call computes the value-level merge of the sources'
      original contents; a source that is the destination itself
      contributes nothing, since copying an object onto itself changes no
      entry. */
  lemma {:induction false} ExtendAtIsExtend(h: Store, d: Ref, srcs: seq<Ref>)
    requires d in h
    ensures ExtendAt(h, d, srcs)[d] == Extend(h[d], OtherSources(h, d, srcs))
    decreases |srcs|
  {
    if |srcs| > 0 {
      var init := srcs[..|srcs| - 1];
      var s := srcs[|srcs| - 1];
      ExtendAtIsExtend(h, d, init);
      var h0 := ExtendAt(h, d, init);
      var others := OtherSources(h, d, init);
      if s == d {
        assert h0[d] + h0[d] == h0[d];
      } else {
        assert Deref(h0, s) == Deref(h, s);
        assert (others + [Deref(h, s)])[..|others|] == others;
      }
    }
  }

  /** A layer `_extend({}, parent, own)`: a fresh empty object receives the
      parent and then the own fields. The parent and own objects, and every
      other object, are left as they were; the new object is the layer. */
  lemma LayerLeavesParent(h: Store, child: Ref, parent: Ref, own: Ref)
    requires child !in h && parent in h && own in h
    ensures var h' := ExtendAt(h[child := map[]], child, [parent, own]);
      && (forall x :: x in h ==> x in h' && h'[x] == h[x])
      && h'[child] == Extend(map[], [h[parent], h[own]])
  {
    var h1 := h[child := map[]];
    ExtendAtIsExtend(h1, child, [parent, own]);
    assert [parent, own][..1] == [parent];
    assert [parent][..0] == [];
    assert Deref(h1, parent) == h[parent] && Deref(h1, own) == h[own];
    assert OtherSources(h1, child, [parent]) == [h[parent]];
    assert OtherSources(h1, child, [parent, own]) == [h[parent], h[own]];
  }
}
