/** Property order. A JavaScript object enumerates its (non-numeric) keys
    in insertion order, and that order is the order of the generated JSON.
    Assigning to a key the object already has keeps the key where it is;
    assigning a new key appends it. Here an object is an association list
    without repeated keys, and the merge is proved to agree with the
    map-based `Extend` while keeping the destination's keys in front.
 */
module Ordered {
  import opened Nodes
  import opened Merge

  type Entry = (string, Node)

  /** An object as its properties in enumeration order. */
  type Entries = seq<Entry>

  function KeysOf(o: Entries): (ks: seq<string>)
    ensures |ks| == |o|
    ensures forall i :: 0 <= i < |o| ==> ks[i] == o[i].0
  {
    seq(|o|, i requires 0 <= i < |o| => o[i].0)
  }

  predicate Distinct(ks: seq<string>)
  {
    forall i, j :: 0 <= i < j < |ks| ==> ks[i] != ks[j]
  }

  /** Where key `k` sits, if the object has it. */
  function IndexOf(o: Entries, k: string): (r: Option<nat>)
    ensures r.Some? ==> r.value < |o| && o[r.value].0 == k
    ensures r.None? ==> forall i :: 0 <= i < |o| ==> o[i].0 != k
  {
    if |o| == 0 then None
    else if o[|o| - 1].0 == k then Some(|o| - 1)
    else IndexOf(o[..|o| - 1], k)
  }

  /** The object the entries denote (a later entry for a key wins, as in a
      literal that repeats a key). */
  function ToMap(o: Entries): (m: Object)
    ensures forall k :: k in m <==> k in KeysOf(o)
  {
    if |o| == 0 then map[]
    else
      assert KeysOf(o) == KeysOf(o[..|o| - 1]) + [o[|o| - 1].0];
      ToMap(o[..|o| - 1])[o[|o| - 1].0 := o[|o| - 1].1]
  }

  /** `dst[k] = v` on an object: an existing key keeps its position and
      takes the new value; a new key is appended. */
  function Put(o: Entries, k: string, v: Node): (r: Entries)
    ensures IndexOf(o, k).Some? ==> KeysOf(r) == KeysOf(o)
    ensures IndexOf(o, k).None? ==> KeysOf(r) == KeysOf(o) + [k]
    ensures Distinct(KeysOf(o)) ==> Distinct(KeysOf(r))
    ensures Distinct(KeysOf(o)) ==> ToMap(r) == ToMap(o)[k := v]
  {
    match IndexOf(o, k)
    case Some(i) =>
      var r := o[i := (k, v)];
      assert KeysOf(r) == KeysOf(o);
      if Distinct(KeysOf(o)) then
        ToMapUpdate(o, i, v);
        r
      else r
    case None =>
      var r := o + [(k, v)];
      assert KeysOf(r) == KeysOf(o) + [k];
      assert r[..|r| - 1] == o;
      r
  }

  /** Replacing the value of one entry of a duplicate-free object replaces
      that key's value in the map view. */
  lemma {:induction false} ToMapUpdate(o: Entries, i: nat, v: Node)
    requires Distinct(KeysOf(o))
    requires i < |o|
    ensures ToMap(o[i := (o[i].0, v)]) == ToMap(o)[o[i].0 := v]
    decreases |o|
  {
    var o' := o[i := (o[i].0, v)];
    var n := |o|;
    if i == n - 1 {
      assert o'[..n - 1] == o[..n - 1];
    } else {
      var init := o[..n - 1];
      assert o'[..n - 1] == init[i := (init[i].0, v)];
      assert Distinct(KeysOf(init)) by {
        forall a, b | 0 <= a < b < |init|
          ensures KeysOf(init)[a] != KeysOf(init)[b]
        {
          assert KeysOf(o)[a] != KeysOf(o)[b];
        }
      }
      ToMapUpdate(init, i, v);
      assert KeysOf(o)[i] != KeysOf(o)[n - 1];
      var (k, w) := o[n - 1];
      assert o'[n - 1] == (k, w);
      assert ToMap(o') == ToMap(init)[o[i].0 := v][k := w];
      assert ToMap(o) == ToMap(init)[k := w];
    }
  }

  /** The inner `for (var i in src) dst[i] = src[i]` loop: the source's
      entries are assigned in their enumeration order. */
  function AssignAll(dst: Entries, src: Entries): (r: Entries)
    ensures Distinct(KeysOf(dst)) ==> Distinct(KeysOf(r))
    ensures KeysOf(dst) <= KeysOf(r)
    decreases |src|
  {
    if |src| == 0 then dst
    else Put(AssignAll(dst, src[..|src| - 1]), src[|src| - 1].0, src[|src| - 1].1)
  }

  /** The whole of `_extend` on ordered objects: sources left to right. */
  function ExtendOrdered(dst: Entries, srcs: seq<Entries>): (r: Entries)
    ensures Distinct(KeysOf(dst)) ==> Distinct(KeysOf(r))
    ensures KeysOf(dst) <= KeysOf(r)
    decreases |srcs|
  {
    if |srcs| == 0 then dst
    else AssignAll(ExtendOrdered(dst, srcs[..|srcs| - 1]), srcs[|srcs| - 1])
  }

  /** The map views of the sources. */
  function Views(srcs: seq<Entries>): (vs: seq<Object>)
    ensures |vs| == |srcs|
    ensures forall j :: 0 <= j < |srcs| ==> vs[j] == ToMap(srcs[j])
  {
    seq(|srcs|, j requires 0 <= j < |srcs| => ToMap(srcs[j]))
  }

  /** Copying one source's entries overrides the destination's map view
      with the source's. */
  lemma {:induction false} AssignAllView(dst: Entries, src: Entries)
    requires Distinct(KeysOf(dst))
    ensures ToMap(AssignAll(dst, src)) == ToMap(dst) + ToMap(src)
    decreases |src|
  {
    if |src| > 0 {
      var init := src[..|src| - 1];
      AssignAllView(dst, init);
      var l := src[|src| - 1];
      var acc := AssignAll(dst, init);
      assert Distinct(KeysOf(acc));
      assert ToMap(AssignAll(dst, src)) == ToMap(acc)[l.0 := l.1];
      assert ToMap(src) == ToMap(init)[l.0 := l.1];
      MapOverrideUpdate(ToMap(dst), ToMap(init), l.0, l.1);
    }
  }

  lemma MapOverrideUpdate(a: Object, b: Object, k: string, v: Node)
    ensures (a + b)[k := v] == a + b[k := v]
  {
  }

  /** The ordered merge and the map merge agree: forgetting the order of the
      result gives `Extend` of the forgotten inputs. */
  lemma {:induction false} ExtendOrderedView(dst: Entries, srcs: seq<Entries>)
    requires Distinct(KeysOf(dst))
    ensures ToMap(ExtendOrdered(dst, srcs)) == Extend(ToMap(dst), Views(srcs))
    decreases |srcs|
  {
    if |srcs| > 0 {
      var init := srcs[..|srcs| - 1];
      ExtendOrderedView(dst, init);
      assert Views(srcs)[..|srcs| - 1] == Views(init);
      AssignAllView(ExtendOrdered(dst, init), srcs[|srcs| - 1]);
    }
  }

  /** The keys of `ks` that are not in `seen`, in their order. */
  function Unseen(ks: seq<string>, seen: seq<string>): (r: seq<string>)
    ensures forall x :: x in r <==> x in ks && x !in seen
  {
    if |ks| == 0 then []
    else if ks[|ks| - 1] in seen then Unseen(ks[..|ks| - 1], seen)
    else Unseen(ks[..|ks| - 1], seen) + [ks[|ks| - 1]]
  }

  /** The key order one source leaves behind: the destination's keys where
      they were (overwritten ones included), then the source's new keys in
      the source's order. */
  lemma {:induction false} AssignAllOrder(dst: Entries, src: Entries)
    requires Distinct(KeysOf(src))
    ensures KeysOf(AssignAll(dst, src)) == KeysOf(dst) + Unseen(KeysOf(src), KeysOf(dst))
    decreases |src|
  {
    if |src| > 0 {
      var init := src[..|src| - 1];
      var l := src[|src| - 1].0;
      assert KeysOf(init) == KeysOf(src)[..|src| - 1];
      assert Distinct(KeysOf(init));
      AssignAllOrder(dst, init);
      var acc := AssignAll(dst, init);
      assert l !in KeysOf(init) by {
        forall a | 0 <= a < |init|
          ensures KeysOf(init)[a] != l
        {
          assert KeysOf(src)[a] != KeysOf(src)[|src| - 1];
        }
      }
      if l in KeysOf(dst) {
        assert l in KeysOf(acc);
        var i :| 0 <= i < |acc| && KeysOf(acc)[i] == l;
        assert IndexOf(acc, l).Some?;
      } else {
        assert l !in KeysOf(acc);
        assert IndexOf(acc, l).None?;
        assert KeysOf(dst) + Unseen(KeysOf(init), KeysOf(dst)) + [l]
            == KeysOf(dst) + (Unseen(KeysOf(init), KeysOf(dst)) + [l]);
      }
    }
  }

  /** `_extend` as the script runs it: `srcs.forEach(src => { for (var i
      in src) dst[i] = src[i]; })`, one assignment at a time. The result is
      the ordered merge; the destination's keys stay in front, and the map
      view is `Extend` of the inputs' map views. */
  method ExtendInPlace(dst: Entries, srcs: seq<Entries>) returns (r: Entries)
    ensures r == ExtendOrdered(dst, srcs)
    ensures KeysOf(dst) <= KeysOf(r)
    ensures Distinct(KeysOf(dst)) ==> Distinct(KeysOf(r)) && ToMap(r) == Extend(ToMap(dst), Views(srcs))
  {
    r := dst;
    var i := 0;
    while i < |srcs|
      invariant 0 <= i <= |srcs|
      invariant r == ExtendOrdered(dst, srcs[..i])
    {
      var src := srcs[i];
      ghost var before := r;
      var j := 0;
      while j < |src|
        invariant 0 <= j <= |src|
        invariant r == AssignAll(before, src[..j])
      {
        r := Put(r, src[j].0, src[j].1);
        j := j + 1;
        assert src[..j][..j - 1] == src[..j - 1];
      }
      assert src[..j] == src;
      i := i + 1;
      assert srcs[..i][..i - 1] == srcs[..i - 1];
    }
    assert srcs[..i] == srcs;
    if Distinct(KeysOf(dst)) {
      ExtendOrderedView(dst, srcs);
    }
  }
}
