/** What the JSON merge means, told on the values alone: which versions merge cleanly, and what a clean merge holds. */
module JsonMeaning {
  import opened Wrappers
  import opened Ordering
  import opened JsonMerge
  import opened JsonMergeLaws

  // ---------------------------------------------------------------- items by id

  /** The value holds this text under the first of the four id keys that holds a text. */
  ghost predicate Carries(v: Value, id: string) {
    v.Object? && exists n :: 0 <= n < 4 && TextAt(v, n) == Some(id) && forall m :: 0 <= m < n ==> TextAt(v, m) == None
  }

  function TextAt(v: Value, n: int): Option<string>
    requires v.Object?
  {
    var k := if n == 0 then "id" else if n == 1 then "node_id" else if n == 2 then "workflow_id" else "edge_id";
    if k in v.fields && v.fields[k].String? then Some(v.fields[k].s) else None
  }

  ghost predicate HasSomeId(v: Value) {
    exists id :: Carries(v, id)
  }

  lemma {:induction false} FirstStringFrom(v: Value, n: nat, id: string)
    requires v.Object? && n <= 4
    ensures FirstStringAt(v.fields, ID_KEYS[n..]) == Some(id) <==>
      exists k :: n <= k < 4 && TextAt(v, k) == Some(id) && forall m :: n <= m < k ==> TextAt(v, m) == None
    decreases 4 - n
  {
    if n < 4 {
      assert ID_KEYS[n..][0] == ID_KEYS[n] && ID_KEYS[n..][1..] == ID_KEYS[n + 1..];
      FirstStringFrom(v, n + 1, id);
      if TextAt(v, n) == Some(id) {
        assert n <= n < 4;
      }
    }
  }

  /** The id that the merge reads from an item is the one it carries. */
  lemma ItemIdIs(v: Value, id: string)
    ensures ItemId(v) == Some(id) <==> Carries(v, id)
  {
    if v.Object? {
      assert ID_KEYS[0..] == ID_KEYS;
      FirstStringFrom(v, 0, id);
    }
  }

  lemma ItemIdSome(v: Value)
    ensures ItemId(v).Some? <==> HasSomeId(v)
  {
    if ItemId(v).Some? {
      ItemIdIs(v, ItemId(v).value);
    }
    if HasSomeId(v) {
      var id :| Carries(v, id);
      ItemIdIs(v, id);
    }
  }

  /** The last item that carries the id. */
  ghost function LastWith(items: seq<Value>, id: string): (r: Option<Value>)
    ensures r.Some? ==> r.value in items && Carries(r.value, id)
  {
    if items == [] then None
    else if Carries(items[|items| - 1], id) then Some(items[|items| - 1])
    else LastWith(items[..|items| - 1], id)
  }

  ghost predicate AllIdentified(items: seq<Value>) {
    forall i :: 0 <= i < |items| ==> HasSomeId(items[i])
  }

  /** The item with this id in an array; an array with an item that carries no id, or anything else, has none. */
  ghost function Lookup(v: Option<Value>, id: string): (r: Option<Value>)
    ensures r.Some? ==> v.Some? && v.value.Array? && r.value in v.value.items
  {
    if v.Some? && v.value.Array? && AllIdentified(v.value.items) then LastWith(v.value.items, id) else None
  }

  lemma {:induction false} ReadsById(items: seq<Value>, id: string)
    ensures ArrayAsIdMap(items).Some? <==> AllIdentified(items)
    ensures ArrayAsIdMap(items).Some? ==> Get(ArrayAsIdMap(items).value, id) == LastWith(items, id)
  {
    hide Carries, HasSomeId, ItemId;
    if items != [] {
      var n := |items| - 1;
      ReadsById(items[..n], id);
      ItemIdSome(items[n]);
      ItemIdIs(items[n], id);
      assert items == items[..n] + [items[n]];
    }
  }

  lemma LookupReads(v: Option<Value>, id: string)
    ensures Get(AsIdMap(v), id) == Lookup(v, id)
  {
    if v.Some? && v.value.Array? {
      ReadsById(v.value.items, id);
    }
  }

  // ---------------------------------------------------------------- which versions merge cleanly

  /** At this key the objects are merged item by item. */
  ghost predicate IsCollection(k: string, b: map<string, Value>, l: map<string, Value>, r: map<string, Value>) {
    k in {"nodes", "edges"} && ((k in b && b[k].Array?) || (k in l && l[k].Array?) || (k in r && r[k].Array?))
  }

  /** Of an item that base or both sides hold: both sides hold it, or neither; without a base both hold the same. */
  ghost predicate Agreed(b: Option<Value>, l: Option<Value>, r: Option<Value>) {
    (b.Some? ==> l.Some? == r.Some?) && (b.None? && l.Some? && r.Some? ==> l == r)
  }

  /** Two of the versions are equal; or they are objects of which all fields and items are mergeable; or arrays of identified items that are. */
  ghost predicate Mergeable(b: Value, l: Value, r: Value)
    decreases l, 2
  {
    || l == r || l == b || r == b
    || (b.Object? && l.Object? && r.Object? && forall k: string :: MergeableAt(b, l, r, k))
    || (b.Array? && l.Array? && r.Array? && AllIdentified(b.items) && AllIdentified(l.items) && AllIdentified(r.items)
        && ItemsMergeable(Some(b), Some(l), Some(r), l))
  }

  /** At one key of three objects. */
  ghost predicate MergeableAt(b: Value, l: Value, r: Value, k: string)
    requires b.Object? && l.Object? && r.Object?
    decreases l, 1
  {
    if IsCollection(k, b.fields, l.fields, r.fields) then ItemsMergeable(Get(b.fields, k), Get(l.fields, k), Get(r.fields, k), l)
    else k in b.fields && k in l.fields && k in r.fields ==> Mergeable(b.fields[k], l.fields[k], r.fields[k])
  }

  ghost predicate ItemsMergeable(b: Option<Value>, l: Option<Value>, r: Option<Value>, ctx: Value)
    requires forall id :: Lookup(l, id).Some? ==> Lookup(l, id).value < ctx
    decreases ctx, 0
  {
    forall id: string ::
      && Agreed(Lookup(b, id), Lookup(l, id), Lookup(r, id))
      && (Lookup(b, id).Some? && Lookup(l, id).Some? && Lookup(r, id).Some? ==>
            Mergeable(Lookup(b, id).value, Lookup(l, id).value, Lookup(r, id).value))
  }

  lemma {:induction false} ItemsMergeableIff(b: Option<Value>, l: Option<Value>, r: Option<Value>, ctx: Value)
    requires forall id :: Lookup(l, id).Some? ==> Lookup(l, id).value < ctx
    ensures ItemsMergeable(b, l, r, ctx) <==> IdsClean(AsIdMap(b), AsIdMap(l), AsIdMap(r))
    decreases ctx, 0
  {
    hide Mergeable, AsIdMap, Lookup, MergeJson;
    forall id: string
      ensures ItemClean(Get(AsIdMap(b), id), Get(AsIdMap(l), id), Get(AsIdMap(r), id)) <==>
        Agreed(Lookup(b, id), Lookup(l, id), Lookup(r, id))
        && (Lookup(b, id).Some? && Lookup(l, id).Some? && Lookup(r, id).Some? ==>
              Mergeable(Lookup(b, id).value, Lookup(l, id).value, Lookup(r, id).value))
    {
      LookupReads(b, id);
      LookupReads(l, id);
      LookupReads(r, id);
      if Lookup(b, id).Some? && Lookup(l, id).Some? && Lookup(r, id).Some? {
        MergeCleanIff(Lookup(b, id).value, Lookup(l, id).value, Lookup(r, id).value);
      }
    }
    IdsCleanEverywhere(AsIdMap(b), AsIdMap(l), AsIdMap(r));
  }

  lemma IdsCleanEverywhere(b: IdMap, l: IdMap, r: IdMap)
    ensures IdsClean(b, l, r) <==> forall id: string :: ItemClean(Get(b, id), Get(l, id), Get(r, id))
  {
  }

  lemma {:induction false} MergeableAtIff(b: Value, l: Value, r: Value, k: string)
    requires b.Object? && l.Object? && r.Object?
    ensures Handled(k, b.fields, l.fields, r.fields) <==> IsCollection(k, b.fields, l.fields, r.fields)
    ensures MergeableAt(b, l, r, k) <==> CleanAt(b, l, r, k)
    decreases l, 1
  {
    hide Mergeable, AsIdMap, Lookup, MergeJson, ItemsMergeable, IdsClean;
    if IsCollection(k, b.fields, l.fields, r.fields) {
      ItemsMergeableIff(Get(b.fields, k), Get(l.fields, k), Get(r.fields, k), l);
    } else if k in b.fields && k in l.fields && k in r.fields {
      MergeCleanIff(b.fields[k], l.fields[k], r.fields[k]);
    }
  }

  /** The merge is clean exactly for the mergeable versions. */
  lemma {:induction false} MergeCleanIff(b: Value, l: Value, r: Value)
    ensures MergeJson(b, l, r).Clean? <==> Mergeable(b, l, r)
    decreases l, 2
  {
    hide MergeObjects, IdsClean, AsIdMap, FieldClean, FieldKeys, Flags, Items, ItemsMergeable, Lookup;
    if l == r || l == b || r == b {
    } else if b.Object? && l.Object? && r.Object? {
      forall k: string {
        MergeableAtIff(b, l, r, k);
      }
      ObjectsCleanAt(b, l, r);
    } else if b.Array? && l.Array? && r.Array? {
      ArraysMergeableIff(b, l, r);
    }
  }

  /** Whether an object merge is clean, key by key. */
  lemma ObjectsCleanAt(b: Value, l: Value, r: Value)
    requires b.Object? && l.Object? && r.Object?
    ensures MergeObjects(b, l, r).Clean? <==> forall k: string :: CleanAt(b, l, r, k)
  {
    hide MergeObjects, IdsClean, AsIdMap, FieldClean, FieldKeys, Handled;
    ObjectsClean(b, l, r);
    if MergeObjects(b, l, r).Clean? {
      forall k: string
        ensures CleanAt(b, l, r, k)
      {
        OnlyCollections(k, b.fields, l.fields, r.fields);
      }
    } else if forall k: string :: CleanAt(b, l, r, k) {
      assert CleanAt(b, l, r, "nodes") && CleanAt(b, l, r, "edges");
      forall k | k in FieldKeys(b.fields, l.fields, r.fields)
        ensures FieldClean(Get(b.fields, k), Get(l.fields, k), Get(r.fields, k))
      {
        assert CleanAt(b, l, r, k);
      }
    }
  }

  lemma OnlyCollections(k: string, b: map<string, Value>, l: map<string, Value>, r: map<string, Value>)
    ensures Handled(k, b, l, r) ==> k == "nodes" || k == "edges"
  {
  }

  ghost predicate CleanAt(b: Value, l: Value, r: Value, k: string)
    requires b.Object? && l.Object? && r.Object?
  {
    && (Handled(k, b.fields, l.fields, r.fields) ==> CollectionClean(k, b.fields, l.fields, r.fields))
    && (k in FieldKeys(b.fields, l.fields, r.fields) ==> FieldClean(Get(b.fields, k), Get(l.fields, k), Get(r.fields, k)))
  }

  lemma {:induction false} ArraysMergeableIff(b: Value, l: Value, r: Value)
    requires b.Array? && l.Array? && r.Array? && l != r && l != b && r != b
    ensures MergeArrays(b, l, r).Clean? <==> Mergeable(b, l, r)
    decreases l, 1
  {
    hide ItemsMergeable, IdsClean, AllIdentified, Flags, Items, MergeIds, ArrayAsIdMap;
    ReadsById(b.items, "");
    ReadsById(l.items, "");
    ReadsById(r.items, "");
    var bm, lm, rm := ArrayAsIdMap(b.items), ArrayAsIdMap(l.items), ArrayAsIdMap(r.items);
    if bm.Some? && lm.Some? && rm.Some? {
      assert Inside(lm.value, l);
      FlagsEmpty(bm.value, lm.value, rm.value, l);
      ItemsMergeableIff(Some(b), Some(l), Some(r), l);
    }
  }

  // ---------------------------------------------------------------- what a clean merge holds

  /** The merged value: where only one side changed anything, what that side holds; elsewhere woven field by field or item by item. */
  ghost predicate Woven(b: Value, l: Value, r: Value, v: Value)
    decreases l, 4
  {
    if l == r || r == b then v == l
    else if l == b then v == r
    else if b.Object? && l.Object? && r.Object? then v.Object? && forall k: string :: WovenAt(b, l, r, v, k)
    else v.Array? && WovenItems(Some(b), Some(l), Some(r), v.items, l)
  }

  /** A plain field is there exactly when a side holds it; a collection that any version holds always is. */
  ghost predicate WovenAt(b: Value, l: Value, r: Value, v: Value, k: string)
    requires b.Object? && l.Object? && r.Object? && v.Object?
    decreases l, 3
  {
    if IsCollection(k, b.fields, l.fields, r.fields) then
      && k in v.fields && v.fields[k].Array?
      && WovenItems(Get(b.fields, k), Get(l.fields, k), Get(r.fields, k), v.fields[k].items, l)
    else
      && (k in v.fields <==> k in l.fields || k in r.fields)
      && (k in v.fields ==> WovenOf(Get(b.fields, k), Get(l.fields, k), Get(r.fields, k), v.fields[k], l))
  }

  /** In ascending order of the ids, one item for each id that a side holds. */
  ghost predicate WovenItems(b: Option<Value>, l: Option<Value>, r: Option<Value>, items: seq<Value>, ctx: Value)
    requires forall id :: Lookup(l, id).Some? ==> Lookup(l, id).value < ctx
    decreases ctx, 2
  {
    exists ids: seq<string> :: HeldIds(ids, l, r) && WovenUnder(ids, b, l, r, items, ctx)
  }

  ghost predicate WovenUnder(ids: seq<string>, b: Option<Value>, l: Option<Value>, r: Option<Value>, items: seq<Value>, ctx: Value)
    requires forall id :: Lookup(l, id).Some? ==> Lookup(l, id).value < ctx
    decreases ctx, 1
  {
    |ids| == |items| && forall i :: 0 <= i < |ids| ==> WovenOf(Lookup(b, ids[i]), Lookup(l, ids[i]), Lookup(r, ids[i]), items[i], ctx)
  }

  ghost predicate HeldIds(ids: seq<string>, l: Option<Value>, r: Option<Value>) {
    Ascending(ids) && forall id :: id in ids <==> Lookup(l, id).Some? || Lookup(r, id).Some?
  }

  /** Of a field or an item that a side holds: merged when base and both sides hold it, else what the side holds, local before remote. */
  ghost predicate WovenOf(b: Option<Value>, l: Option<Value>, r: Option<Value>, v: Value, ctx: Value)
    requires l.Some? ==> l.value < ctx
    decreases ctx, 0
  {
    if b.Some? && l.Some? && r.Some? then Woven(b.value, l.value, r.value, v) else Some(v) == if l.Some? then l else r
  }

  // ---------------------------------------------------------------- which entries are listed

  /** The places of the entries that are there. */
  lemma {:induction false} SomesPlaces<T>(xs: seq<Option<T>>) returns (at: seq<nat>)
    ensures |at| == |Somes(xs)|
    ensures forall i, j :: 0 <= i < j < |at| ==> at[i] < at[j]
    ensures forall i :: 0 <= i < |at| ==> at[i] < |xs| && xs[at[i]] == Some(Somes(xs)[i])
    ensures forall j :: 0 <= j < |xs| && xs[j].Some? ==> j in at
  {
    if xs == [] {
      at := [];
    } else {
      var n := |xs| - 1;
      at := SomesPlaces(xs[..n]);
      SomesSnoc(xs[..n], xs[n]);
      assert xs == xs[..n] + [xs[n]];
      if xs[n].Some? {
        at := at + [n];
      }
    }
  }

  lemma {:induction false} SomesSnoc<T>(xs: seq<Option<T>>, x: Option<T>)
    ensures Somes(xs + [x]) == Somes(xs) + if x.Some? then [x.value] else []
  {
    if xs == [] {
      assert xs + [x] == [x] && [x][1..] == [];
    } else {
      SomesSnoc(xs[1..], x);
      assert (xs + [x])[1..] == xs[1..] + [x];
    }
  }

  lemma ItemThere(id: string, b: Option<Value>, l: Option<Value>, r: Option<Value>, ctx: Value)
    requires (l.Some? ==> l.value < ctx) && ItemClean(b, l, r)
    ensures MergeItem(id, b, l, r, ctx).item.Some? <==> l.Some? || r.Some?
  {
    hide MergeJson;
  }

  /** Under which ids the items of a clean collection merge are listed. */
  lemma CleanItemsListed(b: IdMap, l: IdMap, r: IdMap, ctx: Value) returns (ids: seq<string>)
    requires Inside(l, ctx) && IdsClean(b, l, r)
    ensures Ascending(ids) && forall id :: id in ids <==> id in l || id in r
    ensures |ids| == |Items(MergeIds(b, l, r, ctx))|
    ensures forall i :: 0 <= i < |ids| ==>
      MergeItem(ids[i], Get(b, ids[i]), Get(l, ids[i]), Get(r, ids[i]), ctx).item == Some(Items(MergeIds(b, l, r, ctx))[i])
  {
    hide MergeItem, ItemClean, Somes, Items;
    var keys, merged := Ids(b, l, r), MergeIds(b, l, r, ctx);
    var xs := seq(|merged|, i requires 0 <= i < |merged| => merged[i].item);
    ItemsAre(merged);
    var at := SomesPlaces(xs);
    ids := seq(|at|, i requires 0 <= i < |at| => keys[at[i]]);
    forall i | 0 <= i < |keys|
      ensures merged[i] == MergeItem(keys[i], Get(b, keys[i]), Get(l, keys[i]), Get(r, keys[i]), ctx)
      ensures xs[i].Some? <==> keys[i] in l || keys[i] in r
    {
      assert keys[i] in keys;
      ItemThere(keys[i], Get(b, keys[i]), Get(l, keys[i]), Get(r, keys[i]), ctx);
    }
    Chosen(keys, at, ids, l, r);
  }

  lemma Chosen(keys: seq<string>, at: seq<nat>, ids: seq<string>, l: IdMap, r: IdMap)
    requires |ids| == |at| && forall i :: 0 <= i < |at| ==> at[i] < |keys| && ids[i] == keys[at[i]]
    requires forall j :: 0 <= j < |keys| ==> (j in at <==> keys[j] in l || keys[j] in r)
    requires forall id :: id in l || id in r ==> id in keys
    ensures forall id :: id in ids <==> id in l || id in r
  {
    forall id | id in ids
      ensures id in l || id in r
    {
      var i :| 0 <= i < |ids| && ids[i] == id;
      assert at[i] in at;
    }
    forall id | id in l || id in r
      ensures id in ids
    {
      var j :| 0 <= j < |keys| && keys[j] == id;
      var i :| 0 <= i < |at| && at[i] == j;
      assert ids[i] == id;
    }
  }

  /** The same, told by looking the ids up. */
  lemma CleanItemsHeld(b: Option<Value>, l: Option<Value>, r: Option<Value>, ctx: Value) returns (ids: seq<string>)
    requires forall id :: Lookup(l, id).Some? ==> Lookup(l, id).value < ctx
    requires Inside(AsIdMap(l), ctx) && IdsClean(AsIdMap(b), AsIdMap(l), AsIdMap(r))
    ensures HeldIds(ids, l, r)
    ensures var merged := Items(MergeIds(AsIdMap(b), AsIdMap(l), AsIdMap(r), ctx));
      |ids| == |merged| && forall i :: 0 <= i < |ids| ==>
        && ItemClean(Lookup(b, ids[i]), Lookup(l, ids[i]), Lookup(r, ids[i]))
        && MergeItem(ids[i], Lookup(b, ids[i]), Lookup(l, ids[i]), Lookup(r, ids[i]), ctx).item == Some(merged[i])
  {
    hide MergeItem, ItemClean, Items, MergeIds, AsIdMap, Lookup;
    var bm, lm, rm := AsIdMap(b), AsIdMap(l), AsIdMap(r);
    ids := CleanItemsListed(bm, lm, rm, ctx);
    forall id
      ensures id in ids <==> Lookup(l, id).Some? || Lookup(r, id).Some?
    {
      LookupReads(l, id);
      LookupReads(r, id);
    }
    var merged := Items(MergeIds(bm, lm, rm, ctx));
    forall i | 0 <= i < |ids|
      ensures ItemClean(Lookup(b, ids[i]), Lookup(l, ids[i]), Lookup(r, ids[i]))
      ensures MergeItem(ids[i], Lookup(b, ids[i]), Lookup(l, ids[i]), Lookup(r, ids[i]), ctx).item == Some(merged[i])
    {
      assert ids[i] in ids;
      LookupReads(b, ids[i]);
      LookupReads(l, ids[i]);
      LookupReads(r, ids[i]);
    }
  }

  lemma {:induction false} SameAscending(xs: seq<string>, ys: seq<string>)
    requires Ascending(xs) && Ascending(ys) && forall x :: x in xs <==> x in ys
    ensures xs == ys
  {
    AscendingIsDistinct(xs);
    AscendingIsDistinct(ys);
    BothEmpty(xs, ys);
    if xs != [] {
      assert xs[0] in ys;
      assert ys[0] in xs;
      FirstIsLeast(xs, ys[0]);
      FirstIsLeast(ys, xs[0]);
      if xs[0] != ys[0] {
        LessIsTransitive(xs[0], ys[0], xs[0]);
        LessIsIrreflexive(xs[0]);
      }
      TailElements(xs);
      TailElements(ys);
      SameAscending(xs[1..], ys[1..]);
      assert xs == [xs[0]] + xs[1..] && ys == [ys[0]] + ys[1..];
    }
  }

  lemma BothEmpty(xs: seq<string>, ys: seq<string>)
    requires forall x :: x in xs <==> x in ys
    ensures xs == [] <==> ys == []
  {
    if xs != [] {
      assert xs[0] in xs;
    }
    if ys != [] {
      assert ys[0] in ys;
    }
  }

  lemma FirstIsLeast(xs: seq<string>, x: string)
    requires Ascending(xs) && x in xs
    ensures x == xs[0] || Less(xs[0], x)
  {
  }

  lemma TailElements(xs: seq<string>)
    requires xs != [] && forall i, j :: 0 <= i < j < |xs| ==> xs[i] != xs[j]
    ensures forall x :: x in xs[1..] <==> x in xs && x != xs[0]
  {
    forall x | x in xs && x != xs[0]
      ensures x in xs[1..]
    {
      var i :| 0 <= i < |xs| && xs[i] == x;
      assert xs[1..][i - 1] == x;
    }
  }

  // ---------------------------------------------------------------- the meaning of the merge

  lemma {:induction false} WovenOfIff(id: string, b: Option<Value>, l: Option<Value>, r: Option<Value>, v: Value, ctx: Value)
    requires (l.Some? ==> l.value < ctx) && (l.Some? || r.Some?)
    ensures FieldClean(b, l, r) ==> (MergeField(b, l, r, ctx) == Kept(Some(v)) <==> WovenOf(b, l, r, v, ctx))
    ensures ItemClean(b, l, r) ==> (MergeItem(id, b, l, r, ctx).item == Some(v) <==> WovenOf(b, l, r, v, ctx))
    decreases ctx, 0
  {
    hide MergeObjects, MergeArrays, Woven;
    if b.Some? && l.Some? && r.Some? && MergeJson(b.value, l.value, r.value).Clean? {
      CleanIsWoven(b.value, l.value, r.value, v);
    }
  }

  lemma {:induction false} WovenItemsIff(b: Option<Value>, l: Option<Value>, r: Option<Value>, items: seq<Value>, ctx: Value)
    requires forall id :: Lookup(l, id).Some? ==> Lookup(l, id).value < ctx
    requires Inside(AsIdMap(l), ctx) && IdsClean(AsIdMap(b), AsIdMap(l), AsIdMap(r))
    ensures WovenItems(b, l, r, items, ctx) <==> items == Items(MergeIds(AsIdMap(b), AsIdMap(l), AsIdMap(r), ctx))
    decreases ctx, 2
  {
    hide MergeItem, ItemClean, Items, MergeIds, AsIdMap, Lookup, WovenUnder, IdsClean, HeldIds;
    var ids := CleanItemsHeld(b, l, r, ctx);
    WovenUnderIff(ids, b, l, r, items, ctx);
    if WovenItems(b, l, r, items, ctx) {
      var other: seq<string> :| HeldIds(other, l, r) && WovenUnder(other, b, l, r, items, ctx);
      HeldIdsAreUnique(ids, other, l, r);
    }
  }

  lemma {:induction false} WovenUnderIff(ids: seq<string>, b: Option<Value>, l: Option<Value>, r: Option<Value>, items: seq<Value>, ctx: Value)
    requires forall id :: Lookup(l, id).Some? ==> Lookup(l, id).value < ctx
    requires Inside(AsIdMap(l), ctx) && HeldIds(ids, l, r)
    requires var merged := Items(MergeIds(AsIdMap(b), AsIdMap(l), AsIdMap(r), ctx));
      |ids| == |merged| && forall i :: 0 <= i < |ids| ==>
        && ItemClean(Lookup(b, ids[i]), Lookup(l, ids[i]), Lookup(r, ids[i]))
        && MergeItem(ids[i], Lookup(b, ids[i]), Lookup(l, ids[i]), Lookup(r, ids[i]), ctx).item == Some(merged[i])
    ensures WovenUnder(ids, b, l, r, items, ctx) <==> items == Items(MergeIds(AsIdMap(b), AsIdMap(l), AsIdMap(r), ctx))
    decreases ctx, 1
  {
    hide MergeItem, ItemClean, Items, MergeIds, AsIdMap, Lookup, WovenOf, HeldIds;
    HeldByASide(ids, l, r);
    var merged := Items(MergeIds(AsIdMap(b), AsIdMap(l), AsIdMap(r), ctx));
    if |items| == |ids| {
      forall i | 0 <= i < |ids|
        ensures items[i] == merged[i] <==> WovenOf(Lookup(b, ids[i]), Lookup(l, ids[i]), Lookup(r, ids[i]), items[i], ctx)
      {
        WovenOfIff(ids[i], Lookup(b, ids[i]), Lookup(l, ids[i]), Lookup(r, ids[i]), items[i], ctx);
      }
    }
  }

  lemma HeldByASide(ids: seq<string>, l: Option<Value>, r: Option<Value>)
    requires HeldIds(ids, l, r)
    ensures forall i :: 0 <= i < |ids| ==> Lookup(l, ids[i]).Some? || Lookup(r, ids[i]).Some?
  {
    hide Lookup;
    assert forall i :: 0 <= i < |ids| ==> ids[i] in ids;
  }

  lemma HeldIdsAreUnique(xs: seq<string>, ys: seq<string>, l: Option<Value>, r: Option<Value>)
    requires HeldIds(xs, l, r) && HeldIds(ys, l, r)
    ensures xs == ys
  {
    hide Lookup;
    SameAscending(xs, ys);
  }

  lemma FieldThere(b: Option<Value>, l: Option<Value>, r: Option<Value>, ctx: Value)
    requires (l.Some? ==> l.value < ctx) && FieldClean(b, l, r)
    ensures var m := MergeField(b, l, r, ctx); m.Kept? && (m.value.Some? <==> l.Some? || r.Some?)
  {
    hide MergeObjects, MergeArrays;
  }

  lemma {:induction false} WovenAtIff(b: Value, l: Value, r: Value, v: Value, k: string)
    requires b.Object? && l.Object? && r.Object? && v.Object? && MergeObjects(b, l, r).Clean?
    ensures WovenAt(b, l, r, v, k) <==>
      MergeObjects(b, l, r).value.Object? && Get(v.fields, k) == Get(MergeObjects(b, l, r).value.fields, k)
    decreases l, 3
  {
    hide MergeObjects, MergeField, FieldClean, IdsClean, MergeIds, Items, WovenItems, WovenOf, AsIdMap, Lookup;
    ObjectResult(b, l, r, k);
    ObjectsCleanAt(b, l, r);
    assert CleanAt(b, l, r, k);
    var x, y, z := Get(b.fields, k), Get(l.fields, k), Get(r.fields, k);
    if Handled(k, b.fields, l.fields, r.fields) {
      assert Inside(AsIdMap(y), l);
      NotBoth(k, b.fields, l.fields, r.fields);
      if k in v.fields && v.fields[k].Array? {
        WovenItemsIff(x, y, z, v.fields[k].items, l);
      }
    } else if k in FieldKeys(b.fields, l.fields, r.fields) {
      FieldThere(x, y, z, l);
      if k in v.fields && (y.Some? || z.Some?) {
        WovenOfIff(k, x, y, z, v.fields[k], l);
      }
    }
  }

  /** Of a clean merge, the value is the woven one and no other. */
  lemma {:induction false} CleanIsWoven(b: Value, l: Value, r: Value, v: Value)
    requires MergeJson(b, l, r).Clean?
    ensures MergeJson(b, l, r) == Clean(v) <==> Woven(b, l, r, v)
    decreases l, 4
  {
    hide MergeObjects, ArrayAsIdMap, MergeIds, Items, Flags, IdsClean, WovenAt, WovenItems, Lookup;
    if l == r || l == b || r == b {
    } else if b.Object? && l.Object? && r.Object? {
      ObjectResult(b, l, r, "");
      if v.Object? {
        forall k: string {
          WovenAtIff(b, l, r, v, k);
        }
        SameMap(v.fields, MergeObjects(b, l, r).value.fields);
      }
    } else if b.Array? && l.Array? && r.Array? {
      var bm, lm, rm := ArrayAsIdMap(b.items), ArrayAsIdMap(l.items), ArrayAsIdMap(r.items);
      if bm.Some? && lm.Some? && rm.Some? {
        assert Inside(lm.value, l);
        FlagsEmpty(bm.value, lm.value, rm.value, l);
        if v.Array? {
          WovenItemsIff(Some(b), Some(l), Some(r), v.items, l);
        }
      }
    }
  }

  /** The merge yields a value without conflicts exactly for mergeable versions, and then the woven one. */
  lemma MergeMeans(b: Value, l: Value, r: Value, v: Value)
    ensures MergeJson(b, l, r) == Clean(v) <==> Mergeable(b, l, r) && Woven(b, l, r, v)
  {
    hide Mergeable, Woven, MergeJson;
    MergeCleanIff(b, l, r);
    if Mergeable(b, l, r) {
      CleanIsWoven(b, l, r, v);
    }
  }

  // ---------------------------------------------------------------- what a conflict reports

  /** What is reported for an id, by what the versions hold under it. */
  ghost function Reported(id: string, b: Option<Value>, l: Option<Value>, r: Option<Value>): Option<string> {
    if b.None? then if l.Some? && r.Some? && l != r then Some(id + ":add_conflict") else None
    else if l.Some? && r.Some? then if Mergeable(b.value, l.value, r.value) then None else Some(id)
    else if l.None? && r.None? then None
    else Some(id + if l == b || r == b then ":rename_or_delete" else ":delete_vs_edit")
  }

  ghost predicate ReportedAmong(b: Option<Value>, l: Option<Value>, r: Option<Value>, x: string) {
    exists id: string :: Reported(id, Lookup(b, id), Lookup(l, id), Lookup(r, id)) == Some(x)
  }

  /** Of an object conflict: a plain field that is not mergeable, or something about an id of a collection. */
  ghost predicate ReportedIn(b: map<string, Value>, l: map<string, Value>, r: map<string, Value>, x: string) {
    || (!IsCollection(x, b, l, r) && x in b && x in l && x in r && !Mergeable(b[x], l[x], r[x]))
    || (IsCollection("nodes", b, l, r) && ReportedAmong(Get(b, "nodes"), Get(l, "nodes"), Get(r, "nodes"), x))
    || (IsCollection("edges", b, l, r) && ReportedAmong(Get(b, "edges"), Get(l, "edges"), Get(r, "edges"), x))
  }

  lemma FlagIsReported(id: string, b: Option<Value>, l: Option<Value>, r: Option<Value>, ctx: Value)
    requires l.Some? ==> l.value < ctx
    ensures MergeItem(id, b, l, r, ctx).flag == Reported(id, b, l, r)
  {
    hide MergeJson, Mergeable;
    if b.Some? && l.Some? && r.Some? {
      MergeCleanIff(b.value, l.value, r.value);
      EqualVersionsMerge(b.value, l.value, r.value);
    }
  }

  lemma EqualVersionsMerge(b: Value, l: Value, r: Value)
    ensures l == r || l == b || r == b ==> MergeJson(b, l, r).Clean?
  {
  }

  lemma ReportedAmongIff(b: Option<Value>, l: Option<Value>, r: Option<Value>, ctx: Value, x: string)
    requires Inside(AsIdMap(l), ctx)
    ensures x in Flags(MergeIds(AsIdMap(b), AsIdMap(l), AsIdMap(r), ctx)) <==> ReportedAmong(b, l, r, x)
  {
    hide MergeItem, AsIdMap, Lookup, Reported, Flags;
    var bm, lm, rm := AsIdMap(b), AsIdMap(l), AsIdMap(r);
    var keys, merged := Ids(bm, lm, rm), MergeIds(bm, lm, rm, ctx);
    FlagsHold(merged, x);
    forall i | 0 <= i < |keys|
      ensures merged[i].flag == Reported(keys[i], Lookup(b, keys[i]), Lookup(l, keys[i]), Lookup(r, keys[i]))
    {
      FlagAt(keys[i], b, l, r, ctx);
      assert merged[i] == MergeItem(keys[i], Get(bm, keys[i]), Get(lm, keys[i]), Get(rm, keys[i]), ctx);
    }
    forall id | Reported(id, Lookup(b, id), Lookup(l, id), Lookup(r, id)).Some?
      ensures id in keys
    {
      ReportedIsHeld(id, b, l, r);
    }
    ReportedUnder(merged, keys, b, l, r, x);
  }

  lemma ReportedUnder(merged: seq<ItemMerge>, keys: seq<string>, b: Option<Value>, l: Option<Value>, r: Option<Value>, x: string)
    requires |merged| == |keys|
    requires forall i :: 0 <= i < |keys| ==> merged[i].flag == Reported(keys[i], Lookup(b, keys[i]), Lookup(l, keys[i]), Lookup(r, keys[i]))
    requires forall id :: Reported(id, Lookup(b, id), Lookup(l, id), Lookup(r, id)).Some? ==> id in keys
    ensures (exists i :: 0 <= i < |merged| && merged[i].flag == Some(x)) <==> ReportedAmong(b, l, r, x)
  {
    hide Lookup, Reported;
    if i :| 0 <= i < |merged| && merged[i].flag == Some(x) {
      assert Reported(keys[i], Lookup(b, keys[i]), Lookup(l, keys[i]), Lookup(r, keys[i])) == Some(x);
    }
    if ReportedAmong(b, l, r, x) {
      var id: string :| Reported(id, Lookup(b, id), Lookup(l, id), Lookup(r, id)) == Some(x);
      var i :| 0 <= i < |keys| && keys[i] == id;
      assert merged[i].flag == Some(x);
    }
  }

  lemma FlagsHold(merged: seq<ItemMerge>, x: string)
    ensures x in Flags(merged) <==> exists i :: 0 <= i < |merged| && merged[i].flag == Some(x)
  {
    var flags := seq(|merged|, i requires 0 <= i < |merged| => merged[i].flag);
    SomesContain(flags, x);
    if i :| 0 <= i < |merged| && merged[i].flag == Some(x) {
      assert flags[i] == Some(x);
    }
  }

  lemma FlagAt(id: string, b: Option<Value>, l: Option<Value>, r: Option<Value>, ctx: Value)
    requires Inside(AsIdMap(l), ctx)
    ensures MergeItem(id, Get(AsIdMap(b), id), Get(AsIdMap(l), id), Get(AsIdMap(r), id), ctx).flag ==
      Reported(id, Lookup(b, id), Lookup(l, id), Lookup(r, id))
  {
    hide MergeItem, AsIdMap, Lookup, Reported;
    LookupReads(b, id);
    LookupReads(l, id);
    LookupReads(r, id);
    FlagIsReported(id, Get(AsIdMap(b), id), Get(AsIdMap(l), id), Get(AsIdMap(r), id), ctx);
  }

  lemma ReportedIsHeld(id: string, b: Option<Value>, l: Option<Value>, r: Option<Value>)
    requires Reported(id, Lookup(b, id), Lookup(l, id), Lookup(r, id)).Some?
    ensures id in AsIdMap(b).Keys + AsIdMap(l).Keys + AsIdMap(r).Keys
  {
    hide AsIdMap, Lookup, Mergeable;
    LookupReads(b, id);
    LookupReads(l, id);
  }

  lemma FailedListed(keys: set<string>, fields: map<string, FieldMerge>, x: string)
    requires keys <= fields.Keys
    ensures x in FailedKeys(keys, fields) <==> x in keys && fields[x].Failed?
  {
    var order := Sorted(keys);
    var failed := seq(|order|, i requires 0 <= i < |order| => if fields[order[i]].Failed? then Some(order[i]) else None);
    SomesContain(failed, x);
    if x in keys && fields[x].Failed? {
      assert x in order;
      var i :| 0 <= i < |order| && order[i] == x;
      assert failed[i] == Some(x);
    }
    if Some(x) in failed {
      var i :| 0 <= i < |failed| && failed[i] == Some(x);
      assert order[i] in order;
    }
  }

  lemma CollectionReports(coll: string, b: Value, l: Value, r: Value, x: string)
    requires b.Object? && l.Object? && r.Object?
    ensures x in Flags(MergeCollection(coll, b.fields, l.fields, r.fields, l)) <==>
      IsCollection(coll, b.fields, l.fields, r.fields) && ReportedAmong(Get(b.fields, coll), Get(l.fields, coll), Get(r.fields, coll), x)
  {
    hide MergeIds, AsIdMap, Lookup, ReportedAmong;
    var lm := AsIdMap(Get(l.fields, coll));
    assert Inside(lm, l);
    ReportedAmongIff(Get(b.fields, coll), Get(l.fields, coll), Get(r.fields, coll), l, x);
  }

  lemma FieldReports(b: Value, l: Value, r: Value, x: string)
    requires b.Object? && l.Object? && r.Object?
    ensures var keys := FieldKeys(b.fields, l.fields, r.fields);
      x in FailedKeys(keys, MergeFields(b.fields, l.fields, r.fields, l)) <==>
        && !IsCollection(x, b.fields, l.fields, r.fields) && x in b.fields && x in l.fields && x in r.fields
        && !Mergeable(b.fields[x], l.fields[x], r.fields[x])
  {
    hide MergeField, Mergeable, MergeJson, FailedKeys;
    var fields := MergeFields(b.fields, l.fields, r.fields, l);
    FailedListed(FieldKeys(b.fields, l.fields, r.fields), fields, x);
    if x in fields {
      FieldKept(Get(b.fields, x), Get(l.fields, x), Get(r.fields, x), l);
    }
    if x in b.fields && x in l.fields && x in r.fields {
      MergeCleanIff(b.fields[x], l.fields[x], r.fields[x]);
    }
  }

  /** What a conflict reports: of three objects or three arrays of identified items, each field and id in question and nothing else;
      otherwise the whole value, which is left as local has it. */
  lemma ConflictReports(b: Value, l: Value, r: Value, x: string)
    requires !Mergeable(b, l, r)
    ensures var m := MergeJson(b, l, r);
      && m.Conflict?
      && if b.Object? && l.Object? && r.Object? then x in m.unresolved <==> ReportedIn(b.fields, l.fields, r.fields, x)
         else if b.Array? && l.Array? && r.Array? then
           if AllIdentified(b.items) && AllIdentified(l.items) && AllIdentified(r.items) then
             x in m.unresolved <==> ReportedAmong(Some(b), Some(l), Some(r), x)
           else m == Conflict(l, ["<array>"])
         else m == Conflict(l, ["<root>"])
  {
    hide Mergeable, FailedKeys, Flags, Items, MergeIds, ReportedAmong, MergeCollection, MergeFields, AllIdentified, ArrayAsIdMap;
    MergeCleanIff(b, l, r);
    EqualVersionsMerge(b, l, r);
    if b.Object? && l.Object? && r.Object? {
      CollectionReports("nodes", b, l, r, x);
      CollectionReports("edges", b, l, r, x);
      FieldReports(b, l, r, x);
    } else if b.Array? && l.Array? && r.Array? {
      ReadsById(b.items, "");
      ReadsById(l.items, "");
      ReadsById(r.items, "");
      if AllIdentified(l.items) {
        assert Inside(AsIdMap(Some(l)), l);
        ReportedAmongIff(Some(b), Some(l), Some(r), l, x);
      }
    }
  }
}
