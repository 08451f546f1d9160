/** Laws of the JSON merge: symmetry of the two sides, conservation of ids, and disjoint edits. */
module JsonMergeLaws {
  import opened Wrappers
  import opened Ordering
  import opened JsonMerge

  // ---------------------------------------------------------------- lists of optional entries

  lemma {:induction false} SomesEmpty<T>(s: seq<Option<T>>)
    ensures Somes(s) == [] <==> forall i :: 0 <= i < |s| ==> s[i].None?
  {
    if s != [] {
      SomesEmpty(s[1..]);
      assert s[0].None? && (forall i :: 0 <= i < |s[1..]| ==> s[1..][i].None?) ==> forall i :: 0 <= i < |s| ==> s[i].None? by {
        assert forall i :: 0 < i < |s| ==> s[i] == s[1..][i - 1];
      }
    }
  }

  lemma {:induction false} SomesContain<T>(s: seq<Option<T>>, x: T)
    ensures x in Somes(s) <==> Some(x) in s
  {
    if s != [] {
      SomesContain(s[1..], x);
      assert s == [s[0]] + s[1..];
    }
  }

  /** Lists with the same gaps have the same entries exactly when they are equal. */
  lemma {:induction false} SomesEqual<T>(s: seq<Option<T>>, t: seq<Option<T>>)
    requires |s| == |t| && forall i :: 0 <= i < |s| ==> s[i].Some? == t[i].Some?
    ensures |Somes(s)| == |Somes(t)|
    ensures Somes(s) == Somes(t) <==> s == t
  {
    if s != [] {
      SomesEqual(s[1..], t[1..]);
      assert s == [s[0]] + s[1..] && t == [t[0]] + t[1..];
      var x, y := Somes(s), Somes(t);
      if s[0].Some? {
        assert x[0] == s[0].value && y[0] == t[0].value;
        assert x[1..] == Somes(s[1..]) && y[1..] == Somes(t[1..]);
        assert x == [x[0]] + x[1..] && y == [y[0]] + y[1..];
        assert x == y <==> s[0] == t[0] && s[1..] == t[1..];
      } else {
        assert x == Somes(s[1..]) && y == Somes(t[1..]) && s[0] == t[0];
      }
    }
  }

  // ---------------------------------------------------------------- when a merge is clean

  ghost predicate ItemClean(b: Option<Value>, l: Option<Value>, r: Option<Value>) {
    match (b, l, r)
    case (None, Some(lv), Some(rv)) => lv == rv
    case (Some(bv), Some(lv), Some(rv)) => MergeJson(bv, lv, rv).Clean?
    case (Some(_), Some(_), None) => false
    case (Some(_), None, Some(_)) => false
    case _ => true
  }

  ghost predicate IdsClean(b: IdMap, l: IdMap, r: IdMap) {
    forall id :: id in b.Keys + l.Keys + r.Keys ==> ItemClean(Get(b, id), Get(l, id), Get(r, id))
  }

  ghost predicate FieldClean(b: Option<Value>, l: Option<Value>, r: Option<Value>) {
    b.Some? && l.Some? && r.Some? ==> MergeJson(b.value, l.value, r.value).Clean?
  }

  lemma ItemFlag(id: string, b: Option<Value>, l: Option<Value>, r: Option<Value>, ctx: Value)
    requires l.Some? ==> l.value < ctx
    ensures MergeItem(id, b, l, r, ctx).flag.None? <==> ItemClean(b, l, r)
  {
  }

  lemma FieldKept(b: Option<Value>, l: Option<Value>, r: Option<Value>, ctx: Value)
    requires l.Some? ==> l.value < ctx
    ensures MergeField(b, l, r, ctx).Kept? <==> FieldClean(b, l, r)
  {
  }

  lemma FlagsEmpty(b: IdMap, l: IdMap, r: IdMap, ctx: Value)
    requires Inside(l, ctx)
    ensures Flags(MergeIds(b, l, r, ctx)) == [] <==> IdsClean(b, l, r)
  {
    hide MergeItem, ItemClean;
    var ids, merged := Ids(b, l, r), MergeIds(b, l, r, ctx);
    var flags := seq(|merged|, i requires 0 <= i < |merged| => merged[i].flag);
    SomesEmpty(flags);
    forall i | 0 <= i < |ids|
      ensures flags[i].None? <==> ItemClean(Get(b, ids[i]), Get(l, ids[i]), Get(r, ids[i]))
    {
      assert merged[i] == MergeItem(ids[i], Get(b, ids[i]), Get(l, ids[i]), Get(r, ids[i]), ctx);
      ItemFlag(ids[i], Get(b, ids[i]), Get(l, ids[i]), Get(r, ids[i]), ctx);
    }
    if Flags(merged) == [] {
      forall id | id in b.Keys + l.Keys + r.Keys
        ensures ItemClean(Get(b, id), Get(l, id), Get(r, id))
      {
        assert id in ids;
        var i :| 0 <= i < |ids| && ids[i] == id;
        assert flags[i].None?;
      }
    } else {
      var i :| 0 <= i < |ids| && flags[i].Some?;
      assert ids[i] in ids;
    }
  }

  lemma FailedKeysEmpty(keys: set<string>, fields: map<string, FieldMerge>)
    requires keys <= fields.Keys
    ensures FailedKeys(keys, fields) == [] <==> forall k :: k in keys ==> fields[k].Kept?
  {
    var order := Sorted(keys);
    var failed := seq(|order|, i requires 0 <= i < |order| => if fields[order[i]].Failed? then Some(order[i]) else None);
    SomesEmpty(failed);
    if FailedKeys(keys, fields) == [] {
      forall k | k in keys
        ensures fields[k].Kept?
      {
        assert k in order;
        var i :| 0 <= i < |order| && order[i] == k;
        assert failed[i].None?;
      }
    } else {
      var i :| 0 <= i < |order| && failed[i].Some?;
      assert order[i] in order;
    }
  }

  ghost predicate CollectionClean(coll: string, b: map<string, Value>, l: map<string, Value>, r: map<string, Value>) {
    Handled(coll, b, l, r) ==> IdsClean(AsIdMap(Get(b, coll)), AsIdMap(Get(l, coll)), AsIdMap(Get(r, coll)))
  }

  lemma CollectionFlagsEmpty(coll: string, b: map<string, Value>, l: map<string, Value>, r: map<string, Value>, ctx: Value)
    requires Inside(l, ctx)
    ensures Flags(MergeCollection(coll, b, l, r, ctx)) == [] <==> CollectionClean(coll, b, l, r)
  {
    var lm := AsIdMap(Get(l, coll));
    assert Inside(lm, ctx);
    if Handled(coll, b, l, r) {
      FlagsEmpty(AsIdMap(Get(b, coll)), lm, AsIdMap(Get(r, coll)), ctx);
    }
  }

  /** An object merge is clean exactly when each collection and each plain field is. */
  lemma ObjectsClean(base: Value, local: Value, remote: Value)
    requires base.Object? && local.Object? && remote.Object?
    ensures var b, l, r := base.fields, local.fields, remote.fields;
      MergeObjects(base, local, remote).Clean? <==>
        CollectionClean("nodes", b, l, r) && CollectionClean("edges", b, l, r)
        && forall k :: k in FieldKeys(b, l, r) ==> FieldClean(Get(b, k), Get(l, k), Get(r, k))
  {
    hide MergeField, FieldClean, FieldKeys, CollectionClean, FailedKeys, Flags, MergeCollection;
    var b, l, r := base.fields, local.fields, remote.fields;
    CollectionFlagsEmpty("nodes", b, l, r, local);
    CollectionFlagsEmpty("edges", b, l, r, local);
    var fields := MergeFields(b, l, r, local);
    FailedKeysEmpty(FieldKeys(b, l, r), fields);
    forall k | k in FieldKeys(b, l, r)
      ensures fields[k].Kept? <==> FieldClean(Get(b, k), Get(l, k), Get(r, k))
    {
      assert fields[k] == MergeField(Get(b, k), Get(l, k), Get(r, k), local);
      FieldKept(Get(b, k), Get(l, k), Get(r, k), local);
    }
  }

  // ---------------------------------------------------------------- swapping the sides

  lemma KeysSwap(b: map<string, Value>, l: map<string, Value>, r: map<string, Value>)
    ensures b.Keys + l.Keys + r.Keys == b.Keys + r.Keys + l.Keys
    ensures FieldKeys(b, l, r) == FieldKeys(b, r, l)
    ensures Ids(b, l, r) == Ids(b, r, l)
  {
    assert b.Keys + l.Keys + r.Keys == b.Keys + r.Keys + l.Keys;
  }

  lemma {:induction false} IdsCleanSwap(b: IdMap, l: IdMap, r: IdMap, ctx: Value)
    requires Inside(l, ctx)
    ensures IdsClean(b, l, r) <==> IdsClean(b, r, l)
    decreases ctx, 0
  {
    KeysSwap(b, l, r);
    forall id | id in b.Keys + l.Keys + r.Keys
      ensures ItemClean(Get(b, id), Get(l, id), Get(r, id)) <==> ItemClean(Get(b, id), Get(r, id), Get(l, id))
    {
      if id in b && id in l && id in r {
        CleanIsSymmetric(b[id], l[id], r[id]);
      }
    }
  }

  lemma {:induction false} CollectionCleanSwap(coll: string, b: map<string, Value>, l: map<string, Value>, r: map<string, Value>, ctx: Value)
    requires Inside(l, ctx)
    ensures CollectionClean(coll, b, l, r) <==> CollectionClean(coll, b, r, l)
    decreases ctx, 1
  {
    var lm := AsIdMap(Get(l, coll));
    assert Inside(lm, ctx);
    IdsCleanSwap(AsIdMap(Get(b, coll)), lm, AsIdMap(Get(r, coll)), ctx);
  }

  /** Swapping local and remote never decides whether the merge is clean. */
  lemma {:induction false} CleanIsSymmetric(base: Value, local: Value, remote: Value)
    ensures MergeJson(base, local, remote).Clean? <==> MergeJson(base, remote, local).Clean?
    decreases local, 2
  {
    if local == remote || local == base || remote == base {
    } else if base.Object? && local.Object? && remote.Object? {
      var b, l, r := base.fields, local.fields, remote.fields;
      ObjectsClean(base, local, remote);
      ObjectsClean(base, remote, local);
      KeysSwap(b, l, r);
      CollectionCleanSwap("nodes", b, l, r, local);
      CollectionCleanSwap("edges", b, l, r, local);
      forall k | k in FieldKeys(b, l, r)
        ensures FieldClean(Get(b, k), Get(l, k), Get(r, k)) <==> FieldClean(Get(b, k), Get(r, k), Get(l, k))
      {
        if k in b && k in l && k in r {
          CleanIsSymmetric(b[k], l[k], r[k]);
        }
      }
    } else if base.Array? && local.Array? && remote.Array? {
      var b, l, r := ArrayAsIdMap(base.items), ArrayAsIdMap(local.items), ArrayAsIdMap(remote.items);
      if b.Some? && l.Some? && r.Some? {
        assert Inside(l.value, local) && Inside(r.value, remote);
        FlagsEmpty(b.value, l.value, r.value, local);
        FlagsEmpty(b.value, r.value, l.value, remote);
        IdsCleanSwap(b.value, l.value, r.value, local);
      }
    }
  }

  /** No object that the merge reaches has a field, absent from the base, that the two sides set differently. */
  ghost predicate NoClash(base: Value, local: Value, remote: Value)
    decreases local
  {
    if local == remote || local == base || remote == base then true
    else if base.Object? && local.Object? && remote.Object? then
      var b, l, r := base.fields, local.fields, remote.fields;
      && (forall coll :: coll in COLLECTIONS && Handled(coll, b, l, r) ==>
            var bm, lm, rm := AsIdMap(Get(b, coll)), AsIdMap(Get(l, coll)), AsIdMap(Get(r, coll));
            forall id :: id in bm && id in lm && id in rm ==> NoClash(bm[id], lm[id], rm[id]))
      && (forall k :: k in FieldKeys(b, l, r) && k in l && k in r ==>
            if k in b then NoClash(b[k], l[k], r[k]) else l[k] == r[k])
    else if base.Array? && local.Array? && remote.Array? then
      var bm, lm, rm := ArrayAsIdMap(base.items), ArrayAsIdMap(local.items), ArrayAsIdMap(remote.items);
      bm.Some? && lm.Some? && rm.Some? ==>
        forall id :: id in bm.value && id in lm.value && id in rm.value ==> NoClash(bm.value[id], lm.value[id], rm.value[id])
    else true
  }

  ghost predicate IdsNoClash(b: IdMap, l: IdMap, r: IdMap) {
    forall id :: id in b && id in l && id in r ==> NoClash(b[id], l[id], r[id])
  }

  ghost predicate FieldNoClash(b: Option<Value>, l: Option<Value>, r: Option<Value>) {
    l.Some? && r.Some? ==> if b.Some? then NoClash(b.value, l.value, r.value) else l.value == r.value
  }

  lemma IdsListed(b: IdMap, l: IdMap, r: IdMap)
    ensures forall id :: id in Ids(b, l, r) <==> id in b.Keys + l.Keys + r.Keys
  {
  }

  lemma ItemsAre(merged: seq<ItemMerge>)
    ensures Items(merged) == Somes(seq(|merged|, i requires 0 <= i < |merged| => merged[i].item))
  {
  }

  lemma {:induction false} ItemSwap(id: string, b: Option<Value>, l: Option<Value>, r: Option<Value>, lctx: Value, rctx: Value)
    requires (l.Some? ==> l.value < lctx) && (r.Some? ==> r.value < rctx)
    requires ItemClean(b, l, r)
    ensures var x, y := MergeItem(id, b, l, r, lctx).item, MergeItem(id, b, r, l, rctx).item;
      x.Some? == y.Some? && (x == y <==> (b.Some? && l.Some? && r.Some? ==> NoClash(b.value, l.value, r.value)))
    decreases lctx, 0
  {
    hide NoClash, MergeObjects, MergeArrays;
    if b.Some? && l.Some? && r.Some? {
      CleanIsSymmetric(b.value, l.value, r.value);
      SwapGivesSameValue(b.value, l.value, r.value);
      if l.value == r.value || l.value == b.value || r.value == b.value {
        ShortCircuitNoClash(b.value, l.value, r.value);
      }
    }
  }

  lemma ShortCircuitNoClash(b: Value, l: Value, r: Value)
    requires l == r || l == b || r == b
    ensures NoClash(b, l, r)
  {
  }

  lemma {:induction false} FieldSwap(b: Option<Value>, l: Option<Value>, r: Option<Value>, lctx: Value, rctx: Value)
    requires (l.Some? ==> l.value < lctx) && (r.Some? ==> r.value < rctx)
    requires FieldClean(b, l, r)
    ensures MergeField(b, l, r, lctx).Kept? && MergeField(b, r, l, rctx).Kept?
    ensures MergeField(b, l, r, lctx) == MergeField(b, r, l, rctx) <==> FieldNoClash(b, l, r)
    decreases lctx, 0
  {
    hide NoClash, MergeObjects, MergeArrays;
    if b.Some? && l.Some? && r.Some? {
      CleanIsSymmetric(b.value, l.value, r.value);
      SwapGivesSameValue(b.value, l.value, r.value);
      if l.value == r.value || l.value == b.value || r.value == b.value {
        ShortCircuitNoClash(b.value, l.value, r.value);
      }
    }
  }

  lemma {:induction false} ItemsSwap(b: IdMap, l: IdMap, r: IdMap, lctx: Value, rctx: Value)
    requires Inside(l, lctx) && Inside(r, rctx) && IdsClean(b, l, r)
    ensures Items(MergeIds(b, l, r, lctx)) == Items(MergeIds(b, r, l, rctx)) <==> IdsNoClash(b, l, r)
    decreases lctx, 1
  {
    hide MergeItem, ItemClean, NoClash, Ids, Items, Somes;
    KeysSwap(b, l, r);
    IdsCleanSwap(b, l, r, lctx);
    IdsListed(b, l, r);
    ItemsAre(MergeIds(b, l, r, lctx));
    ItemsAre(MergeIds(b, r, l, rctx));
    var ids, x, y := Ids(b, l, r), MergeIds(b, l, r, lctx), MergeIds(b, r, l, rctx);
    var xs := seq(|x|, i requires 0 <= i < |x| => x[i].item);
    var ys := seq(|y|, i requires 0 <= i < |y| => y[i].item);
    forall i | 0 <= i < |ids|
      ensures xs[i].Some? == ys[i].Some?
      ensures xs[i] == ys[i] <==> NoClashAt(b, l, r, ids[i])
    {
      var id := ids[i];
      assert id in ids;
      assert x[i] == MergeItem(id, Get(b, id), Get(l, id), Get(r, id), lctx);
      assert y[i] == MergeItem(id, Get(b, id), Get(r, id), Get(l, id), rctx);
      ItemSwap(id, Get(b, id), Get(l, id), Get(r, id), lctx, rctx);
    }
    SomesEqual(xs, ys);
    hide MergeIds;
    NoClashSomewhere(b, l, r, ids);
    hide NoClashAt, IdsNoClash, IdsClean;
    if forall i :: 0 <= i < |ids| ==> NoClashAt(b, l, r, ids[i]) {
      assert xs == ys;
    } else {
      var i :| 0 <= i < |ids| && !NoClashAt(b, l, r, ids[i]);
      assert xs[i] != ys[i];
    }
  }

  ghost predicate NoClashAt(b: IdMap, l: IdMap, r: IdMap, id: string) {
    id in b && id in l && id in r ==> NoClash(b[id], l[id], r[id])
  }

  lemma NoClashSomewhere(b: IdMap, l: IdMap, r: IdMap, ids: seq<string>)
    requires forall id :: id in b && id in l && id in r ==> id in ids
    ensures IdsNoClash(b, l, r) <==> forall i :: 0 <= i < |ids| ==> NoClashAt(b, l, r, ids[i])
  {
    hide NoClash;
    if !IdsNoClash(b, l, r) {
      var id :| id in b && id in l && id in r && !NoClash(b[id], l[id], r[id]);
      var i :| 0 <= i < |ids| && ids[i] == id;
      assert !NoClashAt(b, l, r, ids[i]);
    }
  }

  /** What the merged object holds at each key. */
  lemma ObjectResult(base: Value, local: Value, remote: Value, k: string)
    requires base.Object? && local.Object? && remote.Object?
    ensures MergeObjects(base, local, remote).Merged().Object?
    ensures var b, l, r := base.fields, local.fields, remote.fields;
      var out := MergeObjects(base, local, remote).Merged().fields;
      && (Handled(k, b, l, r) ==> Get(out, k) == Some(Array(Items(MergeCollection(k, b, l, r, local)))))
      && (k in FieldKeys(b, l, r) ==>
            Get(out, k) == var m := MergeField(Get(b, k), Get(l, k), Get(r, k), local); if m.Kept? then m.value else None)
      && (k in out ==> Handled(k, b, l, r) || k in FieldKeys(b, l, r))
  {
    var b, l, r := base.fields, local.fields, remote.fields;
    var fields := MergeFields(b, l, r, local);
    assert k in FieldKeys(b, l, r) ==> fields[k] == MergeField(Get(b, k), Get(l, k), Get(r, k), local);
  }

  ghost predicate CollectionNoClash(coll: string, b: map<string, Value>, l: map<string, Value>, r: map<string, Value>) {
    Handled(coll, b, l, r) ==> IdsNoClash(AsIdMap(Get(b, coll)), AsIdMap(Get(l, coll)), AsIdMap(Get(r, coll)))
  }

  /** At one key, the two orders agree exactly when there is no clash there. */
  lemma {:induction false} KeySwap(base: Value, local: Value, remote: Value, k: string)
    requires base.Object? && local.Object? && remote.Object?
    requires MergeObjects(base, local, remote).Clean?
    ensures var b, l, r := base.fields, local.fields, remote.fields;
      Get(MergeObjects(base, local, remote).Merged().fields, k) == Get(MergeObjects(base, remote, local).Merged().fields, k) <==>
        CollectionNoClash(k, b, l, r) && (k in FieldKeys(b, l, r) ==> FieldNoClash(Get(b, k), Get(l, k), Get(r, k)))
    decreases local, 2
  {
    hide MergeObjects, MergeField, FieldClean, FieldNoClash, FieldKeys, IdsNoClash, IdsClean, MergeIds, Items;
    var b, l, r := base.fields, local.fields, remote.fields;
    ObjectResult(base, local, remote, k);
    ObjectResult(base, remote, local, k);
    ObjectsClean(base, local, remote);
    KeysSwap(b, l, r);
    if Handled(k, b, l, r) {
      var lm, rm := AsIdMap(Get(l, k)), AsIdMap(Get(r, k));
      assert Inside(lm, local) && Inside(rm, remote);
      assert CollectionClean(k, b, l, r);
      ItemsSwap(AsIdMap(Get(b, k)), lm, rm, local, remote);
      NotBoth(k, b, l, r);
    } else if k in FieldKeys(b, l, r) {
      FieldSwap(Get(b, k), Get(l, k), Get(r, k), local, remote);
    }
  }

  lemma NotBoth(k: string, b: map<string, Value>, l: map<string, Value>, r: map<string, Value>)
    requires Handled(k, b, l, r)
    ensures k !in FieldKeys(b, l, r)
  {
  }

  lemma SameMap(m: map<string, Value>, n: map<string, Value>)
    ensures m == n <==> forall k :: Get(m, k) == Get(n, k)
  {
    if forall k :: Get(m, k) == Get(n, k) {
      forall k
        ensures k in m <==> k in n
        ensures k in m ==> m[k] == n[k]
      {
        assert Get(m, k) == Get(n, k);
      }
    }
  }

  lemma ObjectNoClash(base: Value, local: Value, remote: Value)
    requires base.Object? && local.Object? && remote.Object?
    requires local != remote && local != base && remote != base
    ensures var b, l, r := base.fields, local.fields, remote.fields;
      NoClash(base, local, remote) <==>
        forall k :: CollectionNoClash(k, b, l, r) && (k in FieldKeys(b, l, r) ==> FieldNoClash(Get(b, k), Get(l, k), Get(r, k)))
  {
  }

  /** Of a clean merge: the two orders give the same value exactly when no clash is reached. */
  lemma {:induction false} SwapGivesSameValue(base: Value, local: Value, remote: Value)
    requires MergeJson(base, local, remote).Clean?
    ensures MergeJson(base, local, remote) == MergeJson(base, remote, local) <==> NoClash(base, local, remote)
    decreases local, 3
  {
    CleanIsSymmetric(base, local, remote);
    hide MergeObjects, MergeIds, Items, Flags, ArrayAsIdMap;
    if local == remote || local == base || remote == base {
    } else if base.Object? && local.Object? && remote.Object? {
      var m, n := MergeObjects(base, local, remote), MergeObjects(base, remote, local);
      assert m == MergeJson(base, local, remote) && n == MergeJson(base, remote, local);
      ObjectResult(base, local, remote, "");
      ObjectResult(base, remote, local, "");
      SameMap(m.value.fields, n.value.fields);
      ObjectNoClash(base, local, remote);
      forall k {
        KeySwap(base, local, remote, k);
      }
    } else if base.Array? && local.Array? && remote.Array? {
      var b, l, r := ArrayAsIdMap(base.items), ArrayAsIdMap(local.items), ArrayAsIdMap(remote.items);
      if b.Some? && l.Some? && r.Some? {
        assert Inside(l.value, local) && Inside(r.value, remote);
        FlagsEmpty(b.value, l.value, r.value, local);
        ItemsSwap(b.value, l.value, r.value, local, remote);
      }
    }
  }
}
