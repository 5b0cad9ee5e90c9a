/** `_extend(dst, src1, ..., srcN)`: the shallow, left-to-right merge of
    build.js. Each source's enumerable keys are copied into the destination
    in argument order, so a later source overwrites an earlier one and every
    source overwrites the destination. Nested objects are copied as values:
    a key present in a source replaces the destination's entry wholesale,
    it is never merged into it.
 */
module Merge {
  import opened Nodes

  /** Every key held by at least one source. */
  function SourceKeys(srcs: seq<Object>): set<string>
  {
    if |srcs| == 0 then {} else SourceKeys(srcs[..|srcs| - 1]) + srcs[|srcs| - 1].Keys
  }

  /** The merge as a left fold over the sources: the destination absorbs the
      first source, then the second, and so on. It is written here by peeling
      off the last source, which is the same fold (see `ExtendCons`). */
  function Extend(dst: Object, srcs: seq<Object>): (r: Object)
    ensures r.Keys == dst.Keys + SourceKeys(srcs)
    ensures forall k :: k in dst && k !in SourceKeys(srcs) ==> r[k] == dst[k]
    ensures |srcs| > 0 ==> forall k :: k in srcs[|srcs| - 1] ==> r[k] == srcs[|srcs| - 1][k]
    decreases |srcs|
  {
    if |srcs| == 0 then dst
    else Extend(dst, srcs[..|srcs| - 1]) + srcs[|srcs| - 1]
  }

  /** Reference definition of "last write wins": the position of the last
      source that holds `k`, if any does. */
  function LastWith(srcs: seq<Object>, k: string): (o: Option<nat>)
    ensures o.Some? ==> o.value < |srcs| && k in srcs[o.value]
    ensures o.Some? ==> forall j :: o.value < j < |srcs| ==> k !in srcs[j]
    ensures o.None? ==> forall j :: 0 <= j < |srcs| ==> k !in srcs[j]
  {
    if |srcs| == 0 then None
    else if k in srcs[|srcs| - 1] then Some(|srcs| - 1)
    else LastWith(srcs[..|srcs| - 1], k)
  }

  /** A key belongs to some source exactly when one of the sources holds it. */
  lemma {:induction false} SourceKeysSpec(srcs: seq<Object>, k: string)
    ensures k in SourceKeys(srcs) <==> exists j :: 0 <= j < |srcs| && k in srcs[j]
    ensures k in SourceKeys(srcs) <==> LastWith(srcs, k).Some?
    decreases |srcs|
  {
    if |srcs| > 0 {
      var init := srcs[..|srcs| - 1];
      SourceKeysSpec(init, k);
      if k in SourceKeys(init) {
        var j :| 0 <= j < |init| && k in init[j];
        assert k in srcs[j];
      }
      if exists j :: 0 <= j < |srcs| && k in srcs[j] {
        var j :| 0 <= j < |srcs| && k in srcs[j];
        if j < |init| {
          assert k in init[j];
        }
      }
    }
  }

  /** Key union and last-write-wins: the result holds a key exactly when the
      destination or some source does, and its value is the one of the last
      source holding it, or the destination's own when no source does. */
  lemma {:induction false} ExtendLastWriteWins(dst: Object, srcs: seq<Object>, k: string)
    ensures k in Extend(dst, srcs) <==> k in dst || exists j :: 0 <= j < |srcs| && k in srcs[j]
    ensures LastWith(srcs, k).Some? ==>
      Extend(dst, srcs)[k] == srcs[LastWith(srcs, k).value][k]
    ensures LastWith(srcs, k).None? && k in dst ==> Extend(dst, srcs)[k] == dst[k]
    decreases |srcs|
  {
    SourceKeysSpec(srcs, k);
    if |srcs| > 0 {
      var init := srcs[..|srcs| - 1];
      ExtendLastWriteWins(dst, init, k);
      if k !in srcs[|srcs| - 1] {
        assert LastWith(srcs, k) == LastWith(init, k);
      }
    }
  }

  /** A single source overrides the destination key by key. */
  lemma ExtendOne(dst: Object, s: Object)
    ensures Extend(dst, [s]) == dst + s
  {
    assert [s][..0] == [];
  }

  /** Merging sources one call at a time is the same as merging them in one
      call: `_extend(_extend(d, a...), b...)` equals `_extend(d, a..., b...)`. */
  lemma {:induction false} ExtendAppend(dst: Object, a: seq<Object>, b: seq<Object>)
    ensures Extend(dst, a + b) == Extend(Extend(dst, a), b)
    decreases |b|
  {
    if |b| == 0 {
      assert a + b == a;
    } else {
      assert (a + b)[..|a + b| - 1] == a + b[..|b| - 1];
      ExtendAppend(dst, a, b[..|b| - 1]);
    }
  }

  /** The definition is the usual left fold: the first source is absorbed
      first and the remaining sources are merged into that. */
  lemma {:induction false} ExtendCons(dst: Object, s: Object, rest: seq<Object>)
    ensures Extend(dst, [s] + rest) == Extend(dst + s, rest)
    decreases |rest|
  {
    if |rest| == 0 {
      assert [s] + rest == [s];
      ExtendOne(dst, s);
    } else {
      var init := rest[..|rest| - 1];
      var all := [s] + rest;
      assert all[..|all| - 1] == [s] + init;
      assert all[|all| - 1] == rest[|rest| - 1];
      ExtendCons(dst, s, init);
    }
  }

  /** No sources, or only empty ones, leave the destination as it was. */
  lemma {:induction false} ExtendEmptySources(dst: Object, srcs: seq<Object>)
    requires forall j :: 0 <= j < |srcs| ==> srcs[j] == map[]
    ensures Extend(dst, srcs) == dst
    decreases |srcs|
  {
    if |srcs| > 0 {
      ExtendEmptySources(dst, srcs[..|srcs| - 1]);
    }
  }

  /** Merging the same sources a second time changes nothing. */
  lemma ExtendIdempotent(dst: Object, srcs: seq<Object>)
    ensures Extend(Extend(dst, srcs), srcs) == Extend(dst, srcs)
  {
    var once := Extend(dst, srcs);
    var twice := Extend(once, srcs);
    forall k | k in twice
      ensures k in once && twice[k] == once[k]
    {
      ExtendLastWriteWins(dst, srcs, k);
      ExtendLastWriteWins(once, srcs, k);
    }
    assert twice.Keys == once.Keys;
  }

  /** Copying an object into `{}` yields an equal object, and copying it in
      again yields that object still. */
  lemma CloneIdempotent(x: Object)
    ensures Extend(map[], [x]) == x
    ensures Extend(Extend(map[], [x]), [x]) == Extend(map[], [x])
  {
    ExtendIdempotent(map[], [x]);
  }

  /** The merge is shallow: the entry under `k` is the last source's value
      itself, so when the destination's nested object has a field the
      source's object lacks, the result is not the one-level deep merge of
      the two objects. */
  lemma ExtendIsShallow(dst: Object, srcs: seq<Object>, k: string)
    requires k in dst && dst[k].Obj?
    requires LastWith(srcs, k).Some?
    ensures var s := srcs[LastWith(srcs, k).value][k];
      s.Obj? && (exists f :: f in dst[k].fields && f !in s.fields) ==>
        Extend(dst, srcs)[k] != Obj(dst[k].fields + s.fields)
  {
    ExtendLastWriteWins(dst, srcs, k);
    var s := srcs[LastWith(srcs, k).value][k];
    if s.Obj? && exists f :: f in dst[k].fields && f !in s.fields {
      var f :| f in dst[k].fields && f !in s.fields;
      assert f in (dst[k].fields + s.fields);
    }
  }

  /** An illustration of shallowness, not a merge build.js performs: build.js
      documents `owner` once with "!doc" (on `Creep`) and once with "!" (on
      `OwnedStructure`). Were one written over the other, the "!doc" field
      would be gone rather than kept beside "!". */
  lemma ShallowOwnerExample()
    ensures var before := map["owner" := Obj(map["!doc" := Leaf("owner info"), "username" := Prop("string")])];
            var after := Extend(before, [map["owner" := Obj(map["!" := Leaf("owner info"), "username" := Prop("string")])]]);
            "owner" in after && after["owner"].Obj? && "!doc" !in after["owner"].fields
  {
  }
}
