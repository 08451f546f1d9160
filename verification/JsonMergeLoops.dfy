/** The loops that build merged objects, collections and arrays, each equal to its function. */
module JsonMergeLoops {
  import opened Wrappers
  import opened Ordering
  import opened JsonMerge

  lemma {:induction false} SomesSnoc<T>(s: seq<Option<T>>, x: Option<T>)
    ensures Somes(s + [x]) == Somes(s) + if x.Some? then [x.value] else []
  {
    if s == [] {
      assert [] + [x] == [x] && [x][1..] == [];
    } else {
      SomesSnoc(s[1..], x);
      assert (s + [x])[1..] == s[1..] + [x];
    }
  }

  lemma SomesStep<T>(s: seq<Option<T>>, i: nat)
    requires i < |s|
    ensures Somes(s[..i + 1]) == Somes(s[..i]) + if s[i].Some? then [s[i].value] else []
  {
    SomesSnoc(s[..i], s[i]);
    assert s[..i + 1] == s[..i] + [s[i]];
  }

  method MergeIdMaps(b: IdMap, l: IdMap, r: IdMap, ghost ctx: Value) returns (out: seq<Value>, unresolved: seq<string>)
    requires Inside(l, ctx)
    ensures out == Items(MergeIds(b, l, r, ctx)) && unresolved == Flags(MergeIds(b, l, r, ctx))
  {
    hide MergeItem;
    var ids := Ids(b, l, r);
    ghost var merged := MergeIds(b, l, r, ctx);
    ghost var items := seq(|merged|, i requires 0 <= i < |merged| => merged[i].item);
    ghost var flags := seq(|merged|, i requires 0 <= i < |merged| => merged[i].flag);
    out, unresolved := [], [];
    for i := 0 to |ids|
      invariant out == Somes(items[..i]) && unresolved == Somes(flags[..i])
    {
      var m := MergeItem(ids[i], Get(b, ids[i]), Get(l, ids[i]), Get(r, ids[i]), ctx);
      assert merged[i] == m;
      SomesStep(items, i);
      SomesStep(flags, i);
      if m.item.Some? {
        out := out + [m.item.value];
      }
      if m.flag.Some? {
        unresolved := unresolved + [m.flag.value];
      }
    }
    assert items[..|ids|] == items && flags[..|ids|] == flags;
  }

  /** The collection under one key, absent when no side holds an array there. */
  method MergeCollectionAt(coll: string, base: Value, local: Value, remote: Value) returns (merged: Option<Value>, unresolved: seq<string>)
    requires base.Object? && local.Object? && remote.Object?
    ensures merged == if Handled(coll, base.fields, local.fields, remote.fields)
                      then Some(Array(Items(MergeCollection(coll, base.fields, local.fields, remote.fields, local)))) else None
    ensures unresolved == Flags(MergeCollection(coll, base.fields, local.fields, remote.fields, local))
  {
    hide MergeIds, Items;
    var b, l, r := base.fields, local.fields, remote.fields;
    if Handled(coll, b, l, r) {
      var lm := AsIdMap(Get(l, coll));
      assert Inside(lm, local);
      var items, flags := MergeIdMaps(AsIdMap(Get(b, coll)), lm, AsIdMap(Get(r, coll)), local);
      merged, unresolved := Some(Array(items)), flags;
    } else {
      merged, unresolved := None, [];
    }
  }

  /** The walk over the plain fields in ascending order. */
  method MergePlainFields(base: Value, local: Value, remote: Value, collections: map<string, Value>)
    returns (out: map<string, Value>, unresolved: seq<string>)
    requires base.Object? && local.Object? && remote.Object?
    ensures var fields := MergeFields(base.fields, local.fields, remote.fields, local);
      out == collections + KeptFields(fields) && unresolved == FailedKeys(FieldKeys(base.fields, local.fields, remote.fields), fields)
  {
    hide MergeField, Handled, KeptFields, FieldKeys, MergeFields, KeptPrefix;
    var b, l, r := base.fields, local.fields, remote.fields;
    out, unresolved := collections, [];
    var keys := Sorted(FieldKeys(b, l, r));
    AscendingIsDistinct(keys);
    ghost var fields := MergeFields(b, l, r, local);
    ghost var failed := seq(|keys|, i requires 0 <= i < |keys| => if fields[keys[i]].Failed? then Some(keys[i]) else None);
    KeptEnds(fields, keys);
    assert out == collections + KeptPrefix(fields, keys, 0);
    for i := 0 to |keys|
      invariant out == collections + KeptPrefix(fields, keys, i)
      invariant unresolved == Somes(failed[..i])
    {
      var k := keys[i];
      var m := MergeField(Get(b, k), Get(l, k), Get(r, k), local);
      FieldAt(b, l, r, k, local);
      SomesStep(failed, i);
      KeptStep(fields, keys, i);
      if m.Failed? {
        unresolved := unresolved + [k];
      } else if m.value.Some? {
        out := out[k := m.value.value];
      }
    }
    assert failed[..|keys|] == failed;
  }

  lemma FieldAt(b: map<string, Value>, l: map<string, Value>, r: map<string, Value>, k: string, ctx: Value)
    requires Inside(l, ctx) && k in FieldKeys(b, l, r)
    ensures MergeFields(b, l, r, ctx)[k] == MergeField(Get(b, k), Get(l, k), Get(r, k), ctx)
  {
  }

  /** The kept fields among the first `i` keys. */
  ghost function KeptPrefix(fields: map<string, FieldMerge>, keys: seq<string>, i: nat): map<string, Value>
    requires i <= |keys|
  {
    KeptFields(map k | k in fields && k in keys[..i] :: fields[k])
  }

  lemma KeptEnds(fields: map<string, FieldMerge>, keys: seq<string>)
    requires forall k :: k in fields ==> k in keys
    ensures KeptPrefix(fields, keys, 0) == map[]
    ensures KeptPrefix(fields, keys, |keys|) == KeptFields(fields)
  {
    assert keys[..|keys|] == keys;
    assert (map k | k in fields && k in keys :: fields[k]) == fields;
  }

  lemma KeptStep(fields: map<string, FieldMerge>, keys: seq<string>, i: nat)
    requires i < |keys| && keys[i] in fields
    ensures KeptPrefix(fields, keys, i + 1) ==
      var before := KeptPrefix(fields, keys, i);
      if fields[keys[i]].Kept? && fields[keys[i]].value.Some? then before[keys[i] := fields[keys[i]].value.value] else before
  {
    assert keys[..i + 1] == keys[..i] + [keys[i]];
  }

  method MergeObjectsByKey(base: Value, local: Value, remote: Value) returns (o: Outcome)
    requires base.Object? && local.Object? && remote.Object?
    ensures o == MergeObjects(base, local, remote)
  {
    hide MergeFields, MergeCollection, Items, Flags, Handled, KeptFields, FailedKeys;
    var out: map<string, Value> := map[];
    var nodes, nodeFlags := MergeCollectionAt("nodes", base, local, remote);
    if nodes.Some? {
      out := out["nodes" := nodes.value];
    }
    var edges, edgeFlags := MergeCollectionAt("edges", base, local, remote);
    if edges.Some? {
      out := out["edges" := edges.value];
    }
    ghost var n := MergeCollection("nodes", base.fields, local.fields, remote.fields, local);
    ghost var e := MergeCollection("edges", base.fields, local.fields, remote.fields, local);
    assert out == map coll | coll in {"nodes", "edges"} && Handled(coll, base.fields, local.fields, remote.fields) ::
      Array(Items(if coll == "nodes" then n else e));
    var fieldFlags;
    out, fieldFlags := MergePlainFields(base, local, remote, out);
    var unresolved := nodeFlags + edgeFlags + fieldFlags;
    if unresolved == [] {
      o := Clean(Object(out));
    } else {
      o := Conflict(Object(out), unresolved);
    }
  }

}
