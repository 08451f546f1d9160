/** Edits of two copies of a document that do not overlap merge cleanly, in either order. */
module JsonDisjointEdits {
  import opened Wrappers
  import opened Ordering
  import opened JsonMerge
  import opened JsonMergeLaws
  import opened JsonIdLaws

  /** A collection is absent, or an array of items that carry an `id`. */
  ghost predicate ReadsAsItems(v: Option<Value>) {
    v.Some? ==> v.value.Array? && Identified(v.value.items)
  }

  function Plain(doc: map<string, Value>): map<string, Value> {
    map k | k in doc && k !in COLLECTIONS :: doc[k]
  }

  ghost predicate DisjointCollection(b: Option<Value>, l: Option<Value>, r: Option<Value>) {
    ReadsAsItems(b) && ReadsAsItems(l) && ReadsAsItems(r) && DisjointItems(AsIdMap(b), AsIdMap(l), AsIdMap(r))
  }

  /** No id and no field is deleted, and each item field and each document field is changed or added by at most
      one side, or by both in the same way. */
  ghost predicate DisjointDocs(b: map<string, Value>, l: map<string, Value>, r: map<string, Value>) {
    && (forall coll :: coll in COLLECTIONS ==> DisjointCollection(Get(b, coll), Get(l, coll), Get(r, coll)))
    && DisjointFields(Plain(b), Plain(l), Plain(r))
  }

  lemma ReadsAsKeyed(v: Option<Value>)
    requires ReadsAsItems(v)
    ensures Keyed(AsIdMap(v))
  {
    if v.Some? {
      IdentifiedIsKeyed(v.value.items);
    }
  }

  lemma CombinedItemsShortCuts(b: IdMap, l: IdMap, r: IdMap)
    requires DisjointItems(b, l, r)
    ensures l == r ==> CombinedItems(b, l, r) == l
    ensures l == b ==> CombinedItems(b, l, r) == r
    ensures r == b ==> CombinedItems(b, l, r) == l
  {
    hide Combined, DisjointFields;
    forall id | id in b
      ensures l[id] == r[id] ==> Combined(b[id].fields, l[id].fields, r[id].fields) == l[id].fields
      ensures l[id] == b[id] ==> Combined(b[id].fields, l[id].fields, r[id].fields) == r[id].fields
      ensures r[id] == b[id] ==> Combined(b[id].fields, l[id].fields, r[id].fields) == l[id].fields
    {
      assert DisjointItem(b[id], l[id], r[id]);
      CombinedShortCuts(b[id].fields, l[id].fields, r[id].fields);
    }
  }

  lemma CombinedIsKeyed(b: IdMap, l: IdMap, r: IdMap)
    requires DisjointItems(b, l, r) && Keyed(b) && Keyed(l) && Keyed(r)
    ensures Keyed(CombinedItems(b, l, r))
  {
    forall id | id in l.Keys + r.Keys
      ensures HasId(CombinedItems(b, l, r)[id], id)
    {
      if id in b {
        assert DisjointItem(b[id], l[id], r[id]) && HasId(b[id], id) && HasId(l[id], id) && HasId(r[id], id);
      } else if id in l {
        assert HasId(l[id], id);
      } else {
        assert HasId(r[id], id);
      }
    }
  }

  lemma CombinedReadsBack(b: IdMap, l: IdMap, r: IdMap)
    requires DisjointItems(b, l, r) && Keyed(b) && Keyed(l) && Keyed(r)
    ensures var c := CombinedItems(b, l, r);
      ArrayAsIdMap(InOrder(c, Sorted(l.Keys + r.Keys))) == Some(c)
  {
    hide CombinedItems, DisjointItems, Keyed, ArrayAsIdMap, InOrder;
    var c, ids := CombinedItems(b, l, r), Sorted(l.Keys + r.Keys);
    CombinedKeys(b, l, r);
    CombinedIsKeyed(b, l, r);
    InOrderReadsBack(c, ids);
    assert (map id | id in c && id in ids :: c[id]) == c;
  }

  /** The merged collection reads as the combined items. */
  lemma MergedCollection(base: Value, local: Value, remote: Value, coll: string)
    requires base.Object? && local.Object? && remote.Object? && coll in COLLECTIONS
    requires DisjointCollection(Get(base.fields, coll), Get(local.fields, coll), Get(remote.fields, coll))
    ensures var b, l, r := base.fields, local.fields, remote.fields;
      && CollectionClean(coll, b, l, r)
      && MergeObjects(base, local, remote).Merged().Object?
      && AsIdMap(Get(MergeObjects(base, local, remote).Merged().fields, coll))
           == CombinedItems(AsIdMap(Get(b, coll)), AsIdMap(Get(l, coll)), AsIdMap(Get(r, coll)))
  {
    hide MergeObjects, MergeIds, CombinedItems, Items, DisjointItems, IdsClean, Keyed, MergeField, ArrayAsIdMap, InOrder, Sorted;
    var b, l, r := base.fields, local.fields, remote.fields;
    var bm, lm, rm := AsIdMap(Get(b, coll)), AsIdMap(Get(l, coll)), AsIdMap(Get(r, coll));
    assert Inside(lm, local);
    DisjointIdsMerge(bm, lm, rm, local);
    ObjectResult(base, local, remote, coll);
    CombinedKeys(bm, lm, rm);
    var c := CombinedItems(bm, lm, rm);
    if Handled(coll, b, l, r) {
      ReadsAsKeyed(Get(b, coll));
      ReadsAsKeyed(Get(l, coll));
      ReadsAsKeyed(Get(r, coll));
      CombinedReadsBack(bm, lm, rm);
    } else {
      assert c == map[] && coll !in FieldKeys(b, l, r);
    }
  }

  lemma PlainFieldMerge(b: map<string, Value>, l: map<string, Value>, r: map<string, Value>, k: string, ctx: Value)
    requires DisjointFields(Plain(b), Plain(l), Plain(r)) && k !in COLLECTIONS && Inside(l, ctx)
    ensures FieldClean(Get(b, k), Get(l, k), Get(r, k))
    ensures MergeField(Get(b, k), Get(l, k), Get(r, k), ctx) == Kept(Get(Combined(Plain(b), Plain(l), Plain(r)), k))
  {
    hide MergeField, FieldClean;
    var pb, pl, pr := Plain(b), Plain(l), Plain(r);
    assert Get(b, k) == Get(pb, k) && Get(l, k) == Get(pl, k) && Get(r, k) == Get(pr, k);
    DisjointFieldMerge(Get(b, k), Get(l, k), Get(r, k), ctx);
  }

  lemma DisjointDocsClean(base: Value, local: Value, remote: Value)
    requires base.Object? && local.Object? && remote.Object?
    requires DisjointDocs(base.fields, local.fields, remote.fields)
    ensures MergeObjects(base, local, remote).Clean?
  {
    hide MergeObjects, DisjointCollection, CollectionClean, DisjointFields, FieldClean;
    var b, l, r := base.fields, local.fields, remote.fields;
    assert "nodes" in COLLECTIONS && "edges" in COLLECTIONS;
    MergedCollection(base, local, remote, "nodes");
    MergedCollection(base, local, remote, "edges");
    forall k | k in FieldKeys(b, l, r)
      ensures FieldClean(Get(b, k), Get(l, k), Get(r, k))
    {
      if k in COLLECTIONS {
        UnhandledIsAbsent(b, l, r, k);
      } else {
        PlainFieldMerge(b, l, r, k, local);
      }
    }
    ObjectsClean(base, local, remote);
  }

  lemma UnhandledIsAbsent(b: map<string, Value>, l: map<string, Value>, r: map<string, Value>, coll: string)
    requires coll in COLLECTIONS && DisjointCollection(Get(b, coll), Get(l, coll), Get(r, coll))
    ensures coll !in FieldKeys(b, l, r)
  {
  }

  ghost predicate HoldsCombined(out: map<string, Value>, b: map<string, Value>, l: map<string, Value>, r: map<string, Value>)
    requires DisjointDocs(b, l, r)
  {
    && (forall coll :: coll in COLLECTIONS ==>
          AsIdMap(Get(out, coll)) == CombinedItems(AsIdMap(Get(b, coll)), AsIdMap(Get(l, coll)), AsIdMap(Get(r, coll))))
    && (forall k :: k !in COLLECTIONS ==> Get(out, k) == Get(Combined(Plain(b), Plain(l), Plain(r)), k))
  }

  lemma ShortCutHoldsCombined(b: map<string, Value>, l: map<string, Value>, r: map<string, Value>)
    requires DisjointDocs(b, l, r)
    ensures l == r || r == b ==> HoldsCombined(l, b, l, r)
    ensures l == b ==> HoldsCombined(r, b, l, r)
  {
    hide Combined, CombinedItems, DisjointItems, AsIdMap;
    CombinedShortCuts(Plain(b), Plain(l), Plain(r));
    forall coll | coll in COLLECTIONS
      ensures var bm, lm, rm := AsIdMap(Get(b, coll)), AsIdMap(Get(l, coll)), AsIdMap(Get(r, coll));
        && (l == r || r == b ==> CombinedItems(bm, lm, rm) == lm)
        && (l == b ==> CombinedItems(bm, lm, rm) == rm)
    {
      CombinedItemsShortCuts(AsIdMap(Get(b, coll)), AsIdMap(Get(l, coll)), AsIdMap(Get(r, coll)));
    }
  }

  lemma ObjectsHoldCombined(base: Value, local: Value, remote: Value)
    requires base.Object? && local.Object? && remote.Object?
    requires DisjointDocs(base.fields, local.fields, remote.fields)
    ensures MergeObjects(base, local, remote).Clean? && MergeObjects(base, local, remote).value.Object?
    ensures HoldsCombined(MergeObjects(base, local, remote).value.fields, base.fields, local.fields, remote.fields)
  {
    hide MergeObjects, DisjointFields, Combined, CombinedItems, MergeField;
    var b, l, r := base.fields, local.fields, remote.fields;
    DisjointDocsClean(base, local, remote);
    ObjectResult(base, local, remote, "");
    var out := MergeObjects(base, local, remote).value.fields;
    forall coll | coll in COLLECTIONS
      ensures AsIdMap(Get(out, coll)) == CombinedItems(AsIdMap(Get(b, coll)), AsIdMap(Get(l, coll)), AsIdMap(Get(r, coll)))
    {
      MergedCollection(base, local, remote, coll);
    }
    forall k | k !in COLLECTIONS
      ensures Get(out, k) == Get(Combined(Plain(b), Plain(l), Plain(r)), k)
    {
      ObjectResult(base, local, remote, k);
      PlainFieldMerge(b, l, r, k, local);
      AbsentField(local);
    }
  }

  lemma AbsentField(ctx: Value)
    ensures MergeField(None, None, None, ctx) == Kept(None)
  {
  }

  lemma FlatNoClash(b: Value, l: Value, r: Value)
    requires DisjointItem(b, l, r)
    ensures NoClash(b, l, r)
  {
    hide NoClash, Handled;
    if l == r || l == b || r == b {
      ShortCircuitNoClash(b, l, r);
    } else {
      forall k
        ensures CollectionNoClash(k, b.fields, l.fields, r.fields)
        ensures k in FieldKeys(b.fields, l.fields, r.fields) ==> FieldNoClash(Get(b.fields, k), Get(l.fields, k), Get(r.fields, k))
      {
        NotHandled(k, b, l, r);
        FieldsNoClash(b.fields, l.fields, r.fields, k);
      }
      ObjectNoClash(b, l, r);
    }
  }

  lemma NotHandled(k: string, b: Value, l: Value, r: Value)
    requires DisjointItem(b, l, r)
    ensures !Handled(k, b.fields, l.fields, r.fields)
  {
  }

  lemma FieldsNoClash(b: map<string, Value>, l: map<string, Value>, r: map<string, Value>, k: string)
    requires DisjointFields(b, l, r)
    ensures FieldNoClash(Get(b, k), Get(l, k), Get(r, k))
  {
    hide NoClash;
    if k in b && k in l && k in r {
      ShortCircuitNoClash(b[k], l[k], r[k]);
    }
  }

  lemma DocsNoClash(base: Value, local: Value, remote: Value)
    requires base.Object? && local.Object? && remote.Object?
    requires local != remote && local != base && remote != base
    requires DisjointDocs(base.fields, local.fields, remote.fields)
    ensures NoClash(base, local, remote)
  {
    hide NoClash, DisjointItem, FieldNoClash, AsIdMap;
    var b, l, r := base.fields, local.fields, remote.fields;
    forall k
      ensures CollectionNoClash(k, b, l, r)
      ensures k in FieldKeys(b, l, r) ==> FieldNoClash(Get(b, k), Get(l, k), Get(r, k))
    {
      if k in COLLECTIONS {
        var bm, lm, rm := AsIdMap(Get(b, k)), AsIdMap(Get(l, k)), AsIdMap(Get(r, k));
        forall id | id in bm && id in lm && id in rm
          ensures NoClash(bm[id], lm[id], rm[id])
        {
          FlatNoClash(bm[id], lm[id], rm[id]);
        }
        UnhandledIsAbsent(b, l, r, k);
      } else {
        assert Get(b, k) == Get(Plain(b), k) && Get(l, k) == Get(Plain(l), k) && Get(r, k) == Get(Plain(r), k);
        FieldsNoClash(Plain(b), Plain(l), Plain(r), k);
      }
    }
    ObjectNoClash(base, local, remote);
  }

  /** Disjoint edits of two copies of a document: the merge is clean, holds every edit of either side and every
      unchanged field of the base, and does not depend on which copy is called local. */
  lemma DisjointEditsCommute(base: Value, local: Value, remote: Value)
    requires base.Object? && local.Object? && remote.Object?
    requires DisjointDocs(base.fields, local.fields, remote.fields)
    ensures MergeJson(base, local, remote).Clean? && MergeJson(base, local, remote).value.Object?
    ensures HoldsCombined(MergeJson(base, local, remote).value.fields, base.fields, local.fields, remote.fields)
    ensures MergeJson(base, remote, local) == MergeJson(base, local, remote)
  {
    hide MergeObjects, DisjointDocs, HoldsCombined, NoClash;
    if local == remote || local == base || remote == base {
      ShortCutHoldsCombined(base.fields, local.fields, remote.fields);
    } else {
      ObjectsHoldCombined(base, local, remote);
      DocsNoClash(base, local, remote);
      SwapGivesSameValue(base, local, remote);
    }
  }
}
