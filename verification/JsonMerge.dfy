/** Structural three-way merge of workflow and graph JSON by stable ids. */
module JsonMerge {
  import opened Wrappers
  import opened Ordering

  /** A JSON value. Numbers are compared by their representation. */
  datatype Value =
    | Null
    | Bool(b: bool)
    | Number(repr: string)
    | String(s: string)
    | Array(items: seq<Value>)
    | Object(fields: map<string, Value>)

  datatype Outcome = Clean(value: Value) | Conflict(partial: Value, unresolved: seq<string>) {
    /** The merged value, whether or not ids are left unresolved. */
    function Merged(): Value {
      if Clean? then value else partial
    }
  }

  /** The merge of one object field: kept (possibly as absent), or left to the user. */
  datatype FieldMerge = Kept(value: Option<Value>) | Failed

  /** The merge of one item of an id collection. */
  datatype ItemMerge = ItemMerge(item: Option<Value>, flag: Option<string>)

  type IdMap = map<string, Value>

  const COLLECTIONS := ["nodes", "edges"]
  const ID_KEYS := ["id", "node_id", "workflow_id", "edge_id"]

  function Get(m: map<string, Value>, k: string): Option<Value> {
    if k in m then Some(m[k]) else None
  }

  function Somes<T>(s: seq<Option<T>>): seq<T> {
    if s == [] then [] else (if s[0].Some? then [s[0].value] else []) + Somes(s[1..])
  }

  // ---------------------------------------------------------------- ids

  function FirstStringAt(fields: map<string, Value>, keys: seq<string>): Option<string> {
    if keys == [] then None
    else if keys[0] in fields && fields[keys[0]].String? then Some(fields[keys[0]].s)
    else FirstStringAt(fields, keys[1..])
  }

  function ItemId(v: Value): Option<string> {
    if v.Object? then FirstStringAt(v.fields, ID_KEYS) else None
  }

  /** Items by id, a later item replacing an earlier one; absent as soon as one item has no id. */
  function ArrayAsIdMap(items: seq<Value>): (r: Option<IdMap>)
    ensures r.Some? ==> forall id :: id in r.value ==> r.value[id] in items && ItemId(r.value[id]) == Some(id)
    ensures r.Some? <==> forall i :: 0 <= i < |items| ==> ItemId(items[i]).Some?
    ensures r.Some? ==> forall i :: 0 <= i < |items| ==> ItemId(items[i]).value in r.value
  {
    if items == [] then Some(map[])
    else
      var n := |items| - 1;
      var front := ArrayAsIdMap(items[..n]);
      if front.None? || ItemId(items[n]).None? then None
      else
        assert items == items[..n] + [items[n]];
        Some(front.value[ItemId(items[n]).value := items[n]])
  }

  method ArrayToIdMap(items: seq<Value>) returns (r: Option<IdMap>)
    ensures r == ArrayAsIdMap(items)
  {
    var m: IdMap := map[];
    assert items[..0] == [];
    for i := 0 to |items|
      invariant ArrayAsIdMap(items[..i]) == Some(m)
    {
      var id := ItemId(items[i]);
      assert items[..i + 1][..i] == items[..i];
      if id.None? {
        assert items[i] == items[..][i];
        return None;
      }
      m := m[id.value := items[i]];
    }
    assert items[..|items|] == items;
    r := Some(m);
  }

  /** A field read as an id collection; anything but an array of identified items reads as an empty one. */
  function AsIdMap(v: Option<Value>): (m: IdMap)
    ensures forall id :: id in m ==> v.Some? && v.value.Array? && m[id] in v.value.items && ItemId(m[id]) == Some(id)
  {
    if v.Some? && v.value.Array? && ArrayAsIdMap(v.value.items).Some? then ArrayAsIdMap(v.value.items).value else map[]
  }

  // ---------------------------------------------------------------- the merge

  /** The items of one side are components of `ctx`, which bounds the recursion. */
  ghost predicate Inside(m: map<string, Value>, ctx: Value) {
    forall k :: k in m ==> m[k] < ctx
  }

  function MergeJson(base: Value, local: Value, remote: Value): Outcome
    decreases local, 4
  {
    if local == remote then Clean(local)
    else if local == base then Clean(remote)
    else if remote == base then Clean(local)
    else if base.Object? && local.Object? && remote.Object? then MergeObjects(base, local, remote)
    else if base.Array? && local.Array? && remote.Array? then MergeArrays(base, local, remote)
    else Conflict(local, ["<root>"])
  }

  /** Whether a collection key is merged item by item: at least one side holds an array there. */
  predicate Handled(coll: string, b: map<string, Value>, l: map<string, Value>, r: map<string, Value>) {
    coll in COLLECTIONS &&
    ((coll in b && b[coll].Array?) || (coll in l && l[coll].Array?) || (coll in r && r[coll].Array?))
  }

  /** The keys that are merged as plain fields. */
  function FieldKeys(b: map<string, Value>, l: map<string, Value>, r: map<string, Value>): set<string> {
    set k | k in b.Keys + l.Keys + r.Keys && !Handled(k, b, l, r)
  }

  function MergeCollection(coll: string, b: map<string, Value>, l: map<string, Value>, r: map<string, Value>, ghost ctx: Value): seq<ItemMerge>
    requires Inside(l, ctx)
    decreases ctx, 2
  {
    var lm := AsIdMap(Get(l, coll));
    assert Inside(lm, ctx);
    if Handled(coll, b, l, r) then MergeIds(AsIdMap(Get(b, coll)), lm, AsIdMap(Get(r, coll)), ctx) else []
  }

  function MergeObjects(base: Value, local: Value, remote: Value): Outcome
    requires base.Object? && local.Object? && remote.Object?
    decreases local, 3
  {
    var b, l, r := base.fields, local.fields, remote.fields;
    var nodes, edges := MergeCollection("nodes", b, l, r, local), MergeCollection("edges", b, l, r, local);
    var fields := MergeFields(b, l, r, local);
    var collections := map coll | coll in {"nodes", "edges"} && Handled(coll, b, l, r) :: Array(Items(if coll == "nodes" then nodes else edges));
    var out := Object(collections + KeptFields(fields));
    var unresolved := Flags(nodes) + Flags(edges) + FailedKeys(FieldKeys(b, l, r), fields);
    if unresolved == [] then Clean(out) else Conflict(out, unresolved)
  }

  function MergeFields(b: map<string, Value>, l: map<string, Value>, r: map<string, Value>, ghost ctx: Value): (m: map<string, FieldMerge>)
    requires Inside(l, ctx)
    ensures m.Keys == FieldKeys(b, l, r)
    decreases ctx, 1
  {
    map k | k in FieldKeys(b, l, r) :: MergeField(Get(b, k), Get(l, k), Get(r, k), ctx)
  }

  function KeptFields(fields: map<string, FieldMerge>): map<string, Value> {
    map k | k in fields && fields[k].Kept? && fields[k].value.Some? :: fields[k].value.value
  }

  function FailedKeys(keys: set<string>, fields: map<string, FieldMerge>): seq<string>
    requires keys <= fields.Keys
  {
    var order := Sorted(keys);
    Somes(seq(|order|, i requires 0 <= i < |order| => if fields[order[i]].Failed? then Some(order[i]) else None))
  }

  function MergeArrays(base: Value, local: Value, remote: Value): Outcome
    requires base.Array? && local.Array? && remote.Array?
    decreases local, 2
  {
    var b, l, r := ArrayAsIdMap(base.items), ArrayAsIdMap(local.items), ArrayAsIdMap(remote.items);
    if b.Some? && l.Some? && r.Some? then
      assert Inside(l.value, local);
      var merged := MergeIds(b.value, l.value, r.value, local);
      if Flags(merged) == [] then Clean(Array(Items(merged))) else Conflict(Array(Items(merged)), Flags(merged))
    else if local.items == remote.items then Clean(local)
    else if local.items == base.items then Clean(remote)
    else if remote.items == base.items then Clean(local)
    else Conflict(local, ["<array>"])
  }

  function MergeField(base: Option<Value>, local: Option<Value>, remote: Option<Value>, ghost ctx: Value): FieldMerge
    requires local.Some? ==> local.value < ctx
    decreases ctx, 0
  {
    match (base, local, remote)
    case (_, Some(l), None) => Kept(Some(l))
    case (_, None, Some(r)) => Kept(Some(r))
    case (_, None, None) => Kept(None)
    case (None, Some(l), Some(r)) => Kept(Some(l))
    case (Some(b), Some(l), Some(r)) =>
      if l == r then Kept(Some(l))
      else if l == b then Kept(Some(r))
      else if r == b then Kept(Some(l))
      else
        var m := MergeJson(b, l, r);
        if m.Clean? then Kept(Some(m.value)) else Failed
  }

  function MergeItem(id: string, base: Option<Value>, local: Option<Value>, remote: Option<Value>, ghost ctx: Value): ItemMerge
    requires local.Some? ==> local.value < ctx
    decreases ctx, 0
  {
    match (base, local, remote)
    case (None, Some(l), Some(r)) => if l == r then ItemMerge(Some(l), None) else ItemMerge(Some(l), Some(id + ":add_conflict"))
    case (Some(b), Some(l), Some(r)) =>
      if l == r then ItemMerge(Some(l), None)
      else if l == b then ItemMerge(Some(r), None)
      else if r == b then ItemMerge(Some(l), None)
      else
        var m := MergeJson(b, l, r);
        ItemMerge(Some(m.Merged()), if m.Clean? then None else Some(id))
    case (Some(b), Some(l), None) => OneSided(id, b, l)
    case (Some(b), None, Some(r)) => OneSided(id, b, r)
    case (None, Some(l), None) => ItemMerge(Some(l), None)
    case (None, None, Some(r)) => ItemMerge(Some(r), None)
    case (_, None, None) => ItemMerge(None, None)
  }

  /** An item in the base that only one side still holds. */
  function OneSided(id: string, b: Value, kept: Value): ItemMerge {
    if kept == b then ItemMerge(None, Some(id + ":rename_or_delete")) else ItemMerge(Some(kept), Some(id + ":delete_vs_edit"))
  }

  /** The merge of every id, in ascending order of the ids. */
  function MergeIds(b: IdMap, l: IdMap, r: IdMap, ghost ctx: Value): (merged: seq<ItemMerge>)
    requires Inside(l, ctx)
    ensures |merged| == |Ids(b, l, r)|
    decreases ctx, 1
  {
    var ids := Ids(b, l, r);
    seq(|ids|, i requires 0 <= i < |ids| => MergeItem(ids[i], Get(b, ids[i]), Get(l, ids[i]), Get(r, ids[i]), ctx))
  }

  function Ids(b: IdMap, l: IdMap, r: IdMap): seq<string> {
    Sorted(b.Keys + l.Keys + r.Keys)
  }

  function Items(merged: seq<ItemMerge>): seq<Value> {
    Somes(seq(|merged|, i requires 0 <= i < |merged| => merged[i].item))
  }

  function Flags(merged: seq<ItemMerge>): seq<string> {
    Somes(seq(|merged|, i requires 0 <= i < |merged| => merged[i].flag))
  }
}
