/** What the JSON merge guarantees for collections of identified items, and for edits that do not overlap. */
module JsonIdLaws {
  import opened Wrappers
  import opened Ordering
  import opened JsonMerge
  import opened JsonMergeLaws

  /** The item carries this id under the key `id`. */
  ghost predicate HasId(v: Value, id: string) {
    v.Object? && "id" in v.fields && v.fields["id"] == String(id)
  }

  ghost predicate Keyed(m: IdMap) {
    forall id :: id in m ==> HasId(m[id], id)
  }

  ghost predicate Identified(items: seq<Value>) {
    forall i :: 0 <= i < |items| ==> exists id :: HasId(items[i], id)
  }

  lemma HasIdIsItemId(v: Value, id: string)
    requires HasId(v, id)
    ensures ItemId(v) == Some(id)
  {
    assert ID_KEYS[0] == "id";
  }

  /** An array of items that carry an `id` reads as a map from those ids. */
  lemma IdentifiedIsKeyed(items: seq<Value>)
    requires Identified(items)
    ensures ArrayAsIdMap(items).Some? && Keyed(ArrayAsIdMap(items).value)
  {
    forall i | 0 <= i < |items|
      ensures ItemId(items[i]).Some? && HasId(items[i], ItemId(items[i]).value)
    {
      var id :| HasId(items[i], id);
      HasIdIsItemId(items[i], id);
    }
  }

  lemma MergeKeepsId(b: Value, l: Value, r: Value, id: string)
    requires HasId(b, id) && HasId(l, id) && HasId(r, id)
    ensures HasId(MergeJson(b, l, r).Merged(), id)
  {
    hide MergeObjects;
    ObjectResult(b, l, r, "id");
  }

  ghost predicate OptionHasId(v: Option<Value>, id: string) {
    v.Some? ==> HasId(v.value, id)
  }

  lemma ItemKeepsId(id: string, b: Option<Value>, l: Option<Value>, r: Option<Value>, ctx: Value)
    requires l.Some? ==> l.value < ctx
    requires OptionHasId(b, id) && OptionHasId(l, id) && OptionHasId(r, id)
    ensures OptionHasId(MergeItem(id, b, l, r, ctx).item, id)
  {
    hide MergeJson;
    if b.Some? && l.Some? && r.Some? {
      MergeKeepsId(b.value, l.value, r.value, id);
    }
  }

  /** The items carry strictly ascending ids. */
  ghost predicate AscendingIds(items: seq<Value>, ids: seq<string>) {
    |ids| == |items| && Ascending(ids) && forall i :: 0 <= i < |items| ==> HasId(items[i], ids[i])
  }

  lemma {:induction false} SomesAscend(xs: seq<Option<Value>>, keys: seq<string>) returns (ids: seq<string>)
    requires |xs| == |keys| && Ascending(keys)
    requires forall i :: 0 <= i < |xs| ==> OptionHasId(xs[i], keys[i])
    ensures AscendingIds(Somes(xs), ids)
    ensures forall id :: id in ids <==> exists i :: 0 <= i < |keys| && keys[i] == id && xs[i].Some?
  {
    if xs == [] {
      ids := [];
    } else {
      var rest := SomesAscend(xs[1..], keys[1..]);
      ids := (if xs[0].Some? then [keys[0]] else []) + rest;
      forall i | 0 <= i < |rest|
        ensures Less(keys[0], rest[i])
      {
        assert rest[i] in rest;
        var j :| 0 <= j < |keys[1..]| && keys[1..][j] == rest[i] && xs[1..][j].Some?;
        assert keys[1..][j] == keys[j + 1];
      }
      SomesCovered(xs, keys, rest, ids);
    }
  }

  lemma SomesCovered(xs: seq<Option<Value>>, keys: seq<string>, rest: seq<string>, ids: seq<string>)
    requires |xs| == |keys| && xs != [] && ids == (if xs[0].Some? then [keys[0]] else []) + rest
    requires forall id :: id in rest <==> exists i :: 0 <= i < |keys[1..]| && keys[1..][i] == id && xs[1..][i].Some?
    ensures forall id :: id in ids <==> exists i :: 0 <= i < |keys| && keys[i] == id && xs[i].Some?
  {
    forall id | id in ids
      ensures exists i :: 0 <= i < |keys| && keys[i] == id && xs[i].Some?
    {
      if id in rest {
        var j :| 0 <= j < |keys[1..]| && keys[1..][j] == id && xs[1..][j].Some?;
        assert keys[j + 1] == id && xs[j + 1].Some?;
      }
    }
    forall i | 0 <= i < |keys| && xs[i].Some?
      ensures keys[i] in ids
    {
      if i > 0 {
        assert keys[1..][i - 1] == keys[i] && xs[1..][i - 1] == xs[i];
      }
    }
  }

  /** Merging identified items: ascending ids; an id is in the result exactly when its own merge keeps an item;
      a clean result holds exactly the ids of the two sides; and any id lost from a side is flagged. */
  lemma IdCollectionMerge(b: IdMap, l: IdMap, r: IdMap, ctx: Value) returns (ids: seq<string>)
    requires Inside(l, ctx) && Keyed(b) && Keyed(l) && Keyed(r)
    ensures AscendingIds(Items(MergeIds(b, l, r, ctx)), ids)
    ensures forall id :: id in ids <==> id in l.Keys + r.Keys && MergeItem(id, Get(b, id), Get(l, id), Get(r, id), ctx).item.Some?
    ensures Flags(MergeIds(b, l, r, ctx)) == [] ==> forall id :: id in ids <==> id in l.Keys + r.Keys
    ensures forall id :: id in l.Keys + r.Keys && id !in ids ==> id + ":rename_or_delete" in Flags(MergeIds(b, l, r, ctx))
  {
    hide MergeIds, Ids, Items, Flags, HasId, MergeItem, ItemFate;
    IdsListed(b, l, r);
    var keys, merged := Ids(b, l, r), MergeIds(b, l, r, ctx);
    var xs := seq(|merged|, i requires 0 <= i < |merged| => merged[i].item);
    ItemsAre(merged);
    AscendingKeys(b, l, r);
    forall i | 0 <= i < |keys|
      ensures OptionHasId(xs[i], keys[i]) && merged[i] == MergeItem(keys[i], Get(b, keys[i]), Get(l, keys[i]), Get(r, keys[i]), ctx)
    {
      KeyFate(b, l, r, ctx, i);
    }
    ids := SomesAscend(xs, keys);
    forall id | id in ids
      ensures id in l.Keys + r.Keys && MergeItem(id, Get(b, id), Get(l, id), Get(r, id), ctx).item.Some?
    {
      var i :| 0 <= i < |keys| && keys[i] == id && xs[i].Some?;
      NothingFromNothing(id, Get(b, id), Get(l, id), Get(r, id), ctx);
    }
    forall id | id in l.Keys + r.Keys
      ensures MergeItem(id, Get(b, id), Get(l, id), Get(r, id), ctx).item.Some? ==> id in ids
      ensures id !in ids ==> id + ":rename_or_delete" in Flags(merged)
    {
      assert id in keys;
      var i :| 0 <= i < |keys| && keys[i] == id;
      if id !in ids {
        assert xs[i].None?;
        MissingIsFlagged(id, Get(b, id), Get(l, id), Get(r, id), ctx);
        FlagListed(merged, i);
      }
    }
  }

  /** What becomes of one id, by what base, local and remote hold under it. */
  ghost predicate ItemFate(id: string, b: Option<Value>, l: Option<Value>, r: Option<Value>, m: ItemMerge) {
    // gone from both sides, or from one while the other left it as it was: no item, flagged in the second case
    && (m.item.None? <==> (l.None? && r.None?) || (b.Some? && (l.None? || r.None?) && (l == b || r == b)))
    && (m.flag == Some(id + ":rename_or_delete") <==> b.Some? && ((l.None? && r == b) || (r.None? && l == b)))
    // gone from one side and edited by the other: the edited item, flagged
    && (m.flag == Some(id + ":delete_vs_edit") <==> b.Some? && ((l.None? && r.Some? && r != b) || (r.None? && l.Some? && l != b)))
    // added by both sides in different ways: the local item, flagged
    && (m.flag == Some(id + ":add_conflict") <==> b.None? && l.Some? && r.Some? && l != r)
    // edited by both sides in different ways: flagged exactly when the two edits do not merge cleanly
    && (m.flag == Some(id) <==> BothEdited(b, l, r) && !MergeJson(b.value, l.value, r.value).Clean?)
    && (m.item.Some? ==> (l.Some? || r.Some?) && m.item.value == Survivor(b, l, r))
    && (m.flag.Some? ==> m.flag.value in {id, id + ":rename_or_delete", id + ":delete_vs_edit", id + ":add_conflict"})
  }

  /** The item that is kept when one is: the merge of two edits, else the side that edited or still holds it, local first. */
  ghost function Survivor(b: Option<Value>, l: Option<Value>, r: Option<Value>): Value
    requires l.Some? || r.Some?
  {
    if BothEdited(b, l, r) then MergeJson(b.value, l.value, r.value).Merged()
    else if l.None? || (b.Some? && l == b && r.Some?) then r.value
    else l.value
  }

  ghost predicate BothEdited(b: Option<Value>, l: Option<Value>, r: Option<Value>) {
    b.Some? && l.Some? && r.Some? && l != r && l != b && r != b
  }

  lemma FlagsDiffer(id: string)
    ensures id + ":rename_or_delete" != id + ":delete_vs_edit" && id + ":rename_or_delete" != id + ":add_conflict"
    ensures id + ":delete_vs_edit" != id + ":add_conflict"
    ensures id != id + ":rename_or_delete" && id != id + ":delete_vs_edit" && id != id + ":add_conflict"
  {
    assert (id + ":rename_or_delete")[|id| + 1] == 'r' && (id + ":delete_vs_edit")[|id| + 1] == 'd' && (id + ":add_conflict")[|id| + 1] == 'a';
  }

  lemma FateOfItem(id: string, b: Option<Value>, l: Option<Value>, r: Option<Value>, ctx: Value)
    requires l.Some? ==> l.value < ctx
    ensures ItemFate(id, b, l, r, MergeItem(id, b, l, r, ctx))
  {
    hide MergeJson;
    FlagsDiffer(id);
  }

  /** What becomes of one id in every combination. */
  lemma KeyFate(b: IdMap, l: IdMap, r: IdMap, ctx: Value, i: nat)
    requires Inside(l, ctx) && Keyed(b) && Keyed(l) && Keyed(r) && i < |Ids(b, l, r)|
    ensures var id, m := Ids(b, l, r)[i], MergeIds(b, l, r, ctx)[i];
      && m == MergeItem(id, Get(b, id), Get(l, id), Get(r, id), ctx) && OptionHasId(m.item, id)
      && ItemFate(id, Get(b, id), Get(l, id), Get(r, id), m)
      && (m.flag.Some? ==> m.flag.value in Flags(MergeIds(b, l, r, ctx)))
  {
    hide MergeItem, Flags, HasId, ItemFate;
    var id, merged := Ids(b, l, r)[i], MergeIds(b, l, r, ctx);
    assert merged[i] == MergeItem(id, Get(b, id), Get(l, id), Get(r, id), ctx);
    ItemKeepsId(id, Get(b, id), Get(l, id), Get(r, id), ctx);
    FateOfItem(id, Get(b, id), Get(l, id), Get(r, id), ctx);
    if merged[i].flag.Some? {
      FlagListed(merged, i);
    }
  }

  lemma NothingFromNothing(id: string, b: Option<Value>, l: Option<Value>, r: Option<Value>, ctx: Value)
    requires l.Some? ==> l.value < ctx
    ensures MergeItem(id, b, l, r, ctx).item.Some? ==> l.Some? || r.Some?
  {
  }

  lemma AscendingKeys(b: IdMap, l: IdMap, r: IdMap)
    ensures Ascending(Ids(b, l, r))
  {
  }

  lemma FlagListed(merged: seq<ItemMerge>, i: nat)
    requires i < |merged| && merged[i].flag.Some?
    ensures merged[i].flag.value in Flags(merged)
  {
    var flags := seq(|merged|, i requires 0 <= i < |merged| => merged[i].flag);
    SomesContain(flags, merged[i].flag.value);
    assert flags[i] in flags;
  }

  lemma MissingIsFlagged(id: string, b: Option<Value>, l: Option<Value>, r: Option<Value>, ctx: Value)
    requires l.Some? ==> l.value < ctx
    ensures var m := MergeItem(id, b, l, r, ctx);
      && (m.item.Some? ==> l.Some? || r.Some?)
      && (m.item.None? && (l.Some? || r.Some?) ==> m.flag == Some(id + ":rename_or_delete"))
  {
  }

  // ---------------------------------------------------------------- which id a merged item has

  function TextIn(v: Option<Value>): Option<string> {
    if v.Some? && v.value.String? then Some(v.value.s) else None
  }

  /** The text that one field of a merged item holds, if it holds one: of two sides that set it differently the one that edited it,
      or local when the base has no such field; none when both edited it. */
  function WinningText(b: Option<Value>, l: Option<Value>, r: Option<Value>): Option<string> {
    var w := if l.None? then r else if r.None? || b.None? || l == r || r == b then l else if l == b then r else None;
    TextIn(w)
  }

  function WinningId(b: map<string, Value>, l: map<string, Value>, r: map<string, Value>, keys: seq<string>): Option<string> {
    if keys == [] then None
    else if WinningText(Get(b, keys[0]), Get(l, keys[0]), Get(r, keys[0])).Some? then
      WinningText(Get(b, keys[0]), Get(l, keys[0]), Get(r, keys[0]))
    else WinningId(b, l, r, keys[1..])
  }

  lemma MixedIsNoText(b: Value, l: Value, r: Value)
    requires l != r && l != b && r != b && MergeJson(b, l, r).Clean?
    ensures !MergeJson(b, l, r).value.String?
  {
    if b.Object? && l.Object? && r.Object? {
      ObjectResult(b, l, r, "");
    }
  }

  lemma MergedFieldText(b: Option<Value>, l: Option<Value>, r: Option<Value>, ctx: Value)
    requires l.Some? ==> l.value < ctx
    ensures var m := MergeField(b, l, r, ctx); TextIn(if m.Kept? then m.value else None) == WinningText(b, l, r)
  {
    hide MergeJson;
    if BothEdited(b, l, r) && MergeJson(b.value, l.value, r.value).Clean? {
      MixedIsNoText(b.value, l.value, r.value);
    }
  }

  lemma FieldText(b: Value, l: Value, r: Value, k: string)
    requires b.Object? && l.Object? && r.Object? && k !in COLLECTIONS
    ensures MergeObjects(b, l, r).Merged().Object?
    ensures TextIn(Get(MergeObjects(b, l, r).Merged().fields, k)) == WinningText(Get(b.fields, k), Get(l.fields, k), Get(r.fields, k))
  {
    hide MergeObjects, MergeField, WinningText, TextIn;
    ObjectResult(b, l, r, k);
    MergedFieldText(Get(b.fields, k), Get(l.fields, k), Get(r.fields, k), l);
    AbsentIsNoText();
    if k !in FieldKeys(b.fields, l.fields, r.fields) {
      NowhereIsNoText(b.fields, l.fields, r.fields, k);
    }
  }

  lemma AbsentIsNoText()
    ensures TextIn(None) == None == WinningText(None, None, None)
  {
  }

  lemma NowhereIsNoText(b: map<string, Value>, l: map<string, Value>, r: map<string, Value>, k: string)
    requires k !in COLLECTIONS && k !in FieldKeys(b, l, r)
    ensures WinningText(Get(b, k), Get(l, k), Get(r, k)) == None && !Handled(k, b, l, r)
  {
  }

  lemma {:induction false} FirstText(b: Value, l: Value, r: Value, keys: seq<string>)
    requires b.Object? && l.Object? && r.Object? && forall i :: 0 <= i < |keys| ==> keys[i] !in COLLECTIONS
    ensures MergeObjects(b, l, r).Merged().Object?
    ensures FirstStringAt(MergeObjects(b, l, r).Merged().fields, keys) == WinningId(b.fields, l.fields, r.fields, keys)
  {
    hide MergeObjects, WinningText;
    ObjectResult(b, l, r, "");
    if keys != [] {
      FieldText(b, l, r, keys[0]);
      FirstText(b, l, r, keys[1..]);
    }
  }

  /** An item that all three versions hold under one id keeps it if and only if two versions are equal, or the first of the four id keys at
      which a text survives gives that id. */
  lemma ItemKeepsIdIff(b: Value, l: Value, r: Value, id: string)
    requires ItemId(b) == ItemId(l) == ItemId(r) == Some(id)
    ensures ItemId(MergeJson(b, l, r).Merged()) == Some(id) <==>
      l == r || l == b || r == b || WinningId(b.fields, l.fields, r.fields, ID_KEYS) == Some(id)
  {
    hide MergeObjects, WinningId, FirstStringAt;
    assert forall i :: 0 <= i < |ID_KEYS| ==> ID_KEYS[i] !in COLLECTIONS;
    FirstText(b, l, r, ID_KEYS);
  }

  /** Such an item does keep it when all three versions hold the id under the same first key. */
  lemma SameFirstKeyKeepsId(b: Value, l: Value, r: Value, id: string, n: nat)
    requires b.Object? && l.Object? && r.Object? && n < |ID_KEYS|
    requires forall i :: 0 <= i < n ==> NoText(b, ID_KEYS[i]) && NoText(l, ID_KEYS[i]) && NoText(r, ID_KEYS[i])
    requires Get(b.fields, ID_KEYS[n]) == Get(l.fields, ID_KEYS[n]) == Get(r.fields, ID_KEYS[n]) == Some(String(id))
    ensures ItemId(b) == ItemId(l) == ItemId(r) == Some(id) == ItemId(MergeJson(b, l, r).Merged())
  {
    hide MergeObjects;
    FirstTextAt(b.fields, ID_KEYS, n, id);
    FirstTextAt(l.fields, ID_KEYS, n, id);
    FirstTextAt(r.fields, ID_KEYS, n, id);
    WinsAt(b, l, r, ID_KEYS, n, id);
    hide WinningId, FirstStringAt;
    ItemKeepsIdIff(b, l, r, id);
  }

  ghost predicate NoText(v: Value, k: string)
    requires v.Object?
  {
    k in v.fields ==> !v.fields[k].String?
  }

  lemma {:induction false} FirstTextAt(fields: map<string, Value>, keys: seq<string>, n: nat, id: string)
    requires n < |keys| && Get(fields, keys[n]) == Some(String(id))
    requires forall i :: 0 <= i < n ==> NoText(Object(fields), keys[i])
    ensures FirstStringAt(fields, keys) == Some(id)
  {
    if n > 0 {
      assert NoText(Object(fields), keys[0]);
      forall i | 0 <= i < n - 1
        ensures NoText(Object(fields), keys[1..][i])
      {
        assert NoText(Object(fields), keys[i + 1]);
      }
      FirstTextAt(fields, keys[1..], n - 1, id);
    }
  }

  lemma {:induction false} WinsAt(b: Value, l: Value, r: Value, keys: seq<string>, n: nat, id: string)
    requires b.Object? && l.Object? && r.Object? && n < |keys|
    requires forall i :: 0 <= i < n ==> NoText(b, keys[i]) && NoText(l, keys[i]) && NoText(r, keys[i])
    requires Get(b.fields, keys[n]) == Get(l.fields, keys[n]) == Get(r.fields, keys[n]) == Some(String(id))
    ensures WinningId(b.fields, l.fields, r.fields, keys) == Some(id)
    decreases n
  {
    if n > 0 {
      assert NoText(b, keys[0]) && NoText(l, keys[0]) && NoText(r, keys[0]);
      forall i | 0 <= i < n - 1
        ensures NoText(b, keys[1..][i]) && NoText(l, keys[1..][i]) && NoText(r, keys[1..][i])
      {
        assert NoText(b, keys[i + 1]) && NoText(l, keys[i + 1]) && NoText(r, keys[i + 1]);
      }
      WinsAt(b, l, r, keys[1..], n - 1, id);
    }
  }

  /** A clean merge can change the identity of an item. */
  lemma ItemIdCanChange(b: map<string, Value>, l: map<string, Value>, r: map<string, Value>)
    requires b == map["id" := String("x"), "node_id" := String("x")]
    requires l == map["id" := String("x"), "node_id" := String("z")]
    requires r == map["id" := Null, "node_id" := String("x")]
    ensures ItemId(Object(b)) == ItemId(Object(l)) == ItemId(Object(r)) == Some("x")
    ensures MergeJson(Object(b), Object(l), Object(r)).Clean?
    ensures ItemId(MergeJson(Object(b), Object(l), Object(r)).value) == Some("z")
  {
    hide MergeObjects, MergeField, FieldClean, ItemId, WinningText;
    IdKeys(b);
    IdKeys(l);
    IdKeys(r);
    assert l["node_id"] != b["node_id"] && r["id"] != b["id"];
    forall k | k in FieldKeys(b, l, r)
      ensures FieldClean(Get(b, k), Get(l, k), Get(r, k))
    {
      assert k in {"id", "node_id"};
      DisjointFieldMerge(Get(b, k), Get(l, k), Get(r, k), Object(l));
    }
    ObjectsClean(Object(b), Object(l), Object(r));
    FieldText(Object(b), Object(l), Object(r), "id");
    FieldText(Object(b), Object(l), Object(r), "node_id");
    IdKeys(MergeObjects(Object(b), Object(l), Object(r)).Merged().fields);
    TextsHere(b, l, r);
  }

  lemma TextsHere(b: map<string, Value>, l: map<string, Value>, r: map<string, Value>)
    requires b == map["id" := String("x"), "node_id" := String("x")]
    requires l == map["id" := String("x"), "node_id" := String("z")]
    requires r == map["id" := Null, "node_id" := String("x")]
    ensures WinningText(Get(b, "id"), Get(l, "id"), Get(r, "id")) == None
    ensures WinningText(Get(b, "node_id"), Get(l, "node_id"), Get(r, "node_id")) == Some("z")
  {
  }

  lemma IdKeys(fields: map<string, Value>)
    ensures ItemId(Object(fields)) ==
      if "id" in fields && fields["id"].String? then Some(fields["id"].s)
      else if "node_id" in fields && fields["node_id"].String? then Some(fields["node_id"].s)
      else FirstStringAt(fields, ["workflow_id", "edge_id"])
  {
    var tail := ["node_id", "workflow_id", "edge_id"];
    assert ID_KEYS == ["id"] + tail && ID_KEYS[1..] == tail && ID_KEYS[0] == "id";
    assert ItemId(Object(fields)) == if "id" in fields && fields["id"].String? then Some(fields["id"].s) else FirstStringAt(fields, tail);
    assert tail[1..] == ["workflow_id", "edge_id"] && tail[0] == "node_id";
  }

  /** A field is in a clean object merge exactly when either side still has it: one side alone cannot delete a field. */
  lemma FieldsSurvive(base: Value, local: Value, remote: Value, k: string)
    requires base.Object? && local.Object? && remote.Object?
    requires MergeObjects(base, local, remote).Clean? && k !in COLLECTIONS
    ensures k in MergeObjects(base, local, remote).value.fields <==> k in local.fields || k in remote.fields
  {
    hide MergeObjects, MergeJson;
    ObjectResult(base, local, remote, k);
    ObjectsClean(base, local, remote);
    var b, l, r := base.fields, local.fields, remote.fields;
    if k in FieldKeys(b, l, r) {
      FieldKept(Get(b, k), Get(l, k), Get(r, k), local);
    }
  }

  /** A collection in which some item has no id merges like an empty one, whatever it holds. */
  lemma UnidentifiedReadsAsEmpty(items: seq<Value>, i: nat)
    requires i < |items| && ItemId(items[i]).None?
    ensures AsIdMap(Some(Array(items))) == map[] == AsIdMap(Some(Array([])))
  {
    assert ArrayAsIdMap([]) == Some(map[]);
  }

  // ---------------------------------------------------------------- disjoint edits

  /** Nothing is deleted, and wherever the sides differ from each other at most one of them differs from the base. */
  ghost predicate DisjointFields(b: map<string, Value>, l: map<string, Value>, r: map<string, Value>) {
    && b.Keys <= l.Keys && b.Keys <= r.Keys
    && (forall k :: k in b ==> l[k] == r[k] || l[k] == b[k] || r[k] == b[k])
    && (forall k :: k !in b && k in l && k in r ==> l[k] == r[k])
  }

  /** Every changed or added field with the value of the side that set it; every other field with the base value. */
  ghost function Combined(b: map<string, Value>, l: map<string, Value>, r: map<string, Value>): map<string, Value>
    requires DisjointFields(b, l, r)
  {
    map k | k in l.Keys + r.Keys ::
      if k in b then (if l[k] != b[k] then l[k] else r[k]) else if k in l then l[k] else r[k]
  }

  ghost predicate Flat(v: Value) {
    v.Object? && forall coll :: coll in COLLECTIONS ==> coll !in v.fields
  }

  ghost predicate DisjointItem(b: Value, l: Value, r: Value) {
    Flat(b) && Flat(l) && Flat(r) && DisjointFields(b.fields, l.fields, r.fields)
  }

  lemma CombinedShortCuts(b: map<string, Value>, l: map<string, Value>, r: map<string, Value>)
    requires DisjointFields(b, l, r)
    ensures l == r ==> Combined(b, l, r) == l
    ensures l == b ==> Combined(b, l, r) == r
    ensures r == b ==> Combined(b, l, r) == l
  {
  }

  lemma DisjointFieldMerge(b: Option<Value>, l: Option<Value>, r: Option<Value>, ctx: Value)
    requires l.Some? ==> l.value < ctx
    requires b.Some? ==> l.Some? && r.Some? && (l == r || l == b || r == b)
    requires b.None? && l.Some? && r.Some? ==> l == r
    ensures FieldClean(b, l, r)
    ensures MergeField(b, l, r, ctx) == Kept(if b.Some? then (if l != b then l else r) else if l.Some? then l else r)
  {
    hide MergeObjects, MergeArrays;
  }

  /** Disjoint edits of one flat object merge cleanly to the combined object. */
  lemma DisjointObjectMerge(b: Value, l: Value, r: Value)
    requires DisjointItem(b, l, r)
    ensures MergeJson(b, l, r) == Clean(Object(Combined(b.fields, l.fields, r.fields)))
  {
    hide MergeObjects, MergeField;
    CombinedShortCuts(b.fields, l.fields, r.fields);
    if l != r && l != b && r != b {
      var c := Combined(b.fields, l.fields, r.fields);
      FlatMerge(b, l, r, c);
    }
  }

  lemma FlatMerge(b: Value, l: Value, r: Value, c: map<string, Value>)
    requires DisjointItem(b, l, r) && c == Combined(b.fields, l.fields, r.fields)
    ensures MergeObjects(b, l, r) == Clean(Object(c))
  {
    hide MergeObjects, MergeField, FieldClean, MergeJson;
    forall k | k in FieldKeys(b.fields, l.fields, r.fields)
      ensures FieldClean(Get(b.fields, k), Get(l.fields, k), Get(r.fields, k))
    {
      DisjointFieldMerge(Get(b.fields, k), Get(l.fields, k), Get(r.fields, k), l);
    }
    ObjectsClean(b, l, r);
    ObjectResult(b, l, r, "");
    var out := MergeObjects(b, l, r).Merged().fields;
    forall k
      ensures Get(out, k) == Get(c, k)
    {
      ObjectResult(b, l, r, k);
      if k in FieldKeys(b.fields, l.fields, r.fields) {
        DisjointFieldMerge(Get(b.fields, k), Get(l.fields, k), Get(r.fields, k), l);
      }
    }
    SameMap(out, c);
  }

  /** Nothing is deleted, and every item is edited disjointly or added by one side only. */
  ghost predicate DisjointItems(b: IdMap, l: IdMap, r: IdMap) {
    && b.Keys <= l.Keys && b.Keys <= r.Keys
    && (forall id :: id in b ==> DisjointItem(b[id], l[id], r[id]))
    && (forall id :: id !in b && id in l && id in r ==> l[id] == r[id])
  }

  ghost function CombinedItems(b: IdMap, l: IdMap, r: IdMap): IdMap
    requires DisjointItems(b, l, r)
  {
    map id | id in l.Keys + r.Keys ::
      if id in b then Object(Combined(b[id].fields, l[id].fields, r[id].fields)) else if id in l then l[id] else r[id]
  }

  lemma DisjointItemMerge(id: string, b: IdMap, l: IdMap, r: IdMap, ctx: Value)
    requires DisjointItems(b, l, r) && id in l.Keys + r.Keys && Inside(l, ctx)
    ensures MergeItem(id, Get(b, id), Get(l, id), Get(r, id), ctx) == ItemMerge(Some(CombinedItems(b, l, r)[id]), None)
  {
    hide MergeObjects, MergeArrays;
    if id in b {
      assert DisjointItem(b[id], l[id], r[id]);
      DisjointObjectMerge(b[id], l[id], r[id]);
    }
  }

  /** The values of a map in ascending order of the keys. */
  ghost function InOrder(m: IdMap, ids: seq<string>): seq<Value>
    requires forall i :: 0 <= i < |ids| ==> ids[i] in m
  {
    seq(|ids|, i requires 0 <= i < |ids| => m[ids[i]])
  }

  lemma {:induction false} SomesOfAll<T>(s: seq<Option<T>>)
    requires forall i :: 0 <= i < |s| ==> s[i].Some?
    ensures |Somes(s)| == |s| && forall i :: 0 <= i < |s| ==> Somes(s)[i] == s[i].value
  {
    if s != [] {
      SomesOfAll(s[1..]);
    }
  }

  lemma DisjointIdsMerge(b: IdMap, l: IdMap, r: IdMap, ctx: Value)
    requires DisjointItems(b, l, r) && Inside(l, ctx)
    ensures IdsClean(b, l, r)
    ensures Items(MergeIds(b, l, r, ctx)) == InOrder(CombinedItems(b, l, r), Sorted(l.Keys + r.Keys))
  {
    hide MergeItem, CombinedItems, Items, Flags, DisjointItem, IdsClean, Sorted;
    var merged, ids := MergeIds(b, l, r, ctx), Ids(b, l, r);
    assert b.Keys + l.Keys + r.Keys == l.Keys + r.Keys;
    CombinedKeys(b, l, r);
    ItemsAre(merged);
    var xs := seq(|merged|, i requires 0 <= i < |merged| => merged[i].item);
    forall i | 0 <= i < |ids|
      ensures merged[i] == ItemMerge(Some(CombinedItems(b, l, r)[ids[i]]), None)
    {
      assert ids[i] in ids;
      DisjointItemMerge(ids[i], b, l, r, ctx);
    }
    SomesOfAll(xs);
    NoFlags(merged);
    FlagsEmpty(b, l, r, ctx);
  }

  lemma CombinedKeys(b: IdMap, l: IdMap, r: IdMap)
    requires DisjointItems(b, l, r)
    ensures CombinedItems(b, l, r).Keys == l.Keys + r.Keys
  {
  }

  lemma NoFlags(merged: seq<ItemMerge>)
    requires forall i :: 0 <= i < |merged| ==> merged[i].flag.None?
    ensures Flags(merged) == []
  {
    SomesEmpty(seq(|merged|, i requires 0 <= i < |merged| => merged[i].flag));
  }

  function Restricted(m: IdMap, ids: seq<string>): IdMap {
    map id | id in m && id in ids :: m[id]
  }

  lemma RestrictedSnoc(m: IdMap, ids: seq<string>, id: string)
    requires id in m
    ensures Restricted(m, ids + [id]) == Restricted(m, ids)[id := m[id]]
  {
    assert forall x :: x in ids + [id] <==> x in ids || x == id;
  }

  lemma InOrderSnoc(m: IdMap, ids: seq<string>, id: string)
    requires id in m && forall i :: 0 <= i < |ids| ==> ids[i] in m
    ensures InOrder(m, ids + [id]) == InOrder(m, ids) + [m[id]]
  {
  }

  lemma ReadSnoc(items: seq<Value>, item: Value, id: string)
    requires ArrayAsIdMap(items).Some? && ItemId(item) == Some(id)
    ensures ArrayAsIdMap(items + [item]) == Some(ArrayAsIdMap(items).value[id := item])
  {
    assert (items + [item])[..|items|] == items;
  }

  /** Items listed under their ids read back as the map they came from. */
  lemma {:induction false} InOrderReadsBack(m: IdMap, ids: seq<string>)
    requires Keyed(m) && forall i :: 0 <= i < |ids| ==> ids[i] in m
    ensures ArrayAsIdMap(InOrder(m, ids)).Some?
    ensures ArrayAsIdMap(InOrder(m, ids)).value == Restricted(m, ids)
  {
    if ids == [] {
      assert Restricted(m, ids) == map[];
    } else {
      hide HasId, ItemId, ArrayAsIdMap, InOrder, Restricted;
      var n := |ids| - 1;
      assert ids == ids[..n] + [ids[n]];
      InOrderReadsBack(m, ids[..n]);
      HasIdIsItemId(m[ids[n]], ids[n]);
      InOrderSnoc(m, ids[..n], ids[n]);
      RestrictedSnoc(m, ids[..n], ids[n]);
      ReadSnoc(InOrder(m, ids[..n]), m[ids[n]], ids[n]);
    }
  }
}
