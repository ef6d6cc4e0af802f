/** What an export keeps, and how export and sync undo each other. */
module ExportLaws {
  import opened Common
  import opened ManagedTable
  import opened Store
  import opened Configuration
  import opened Text
  import opened Sync
  import opened SyncLaws
  import opened Export

  // ---- Assigning rows to keys ----

  ghost predicate Injective(keys: map<nat, string>) {
    forall i, j | i in keys && j in keys && keys[i] == keys[j] :: i == j
  }

  lemma {:induction false} AssignHasAll<V>(ids: seq<nat>, keys: map<nat, string>, values: map<nat, V>)
    requires forall id | id in ids :: id in keys && id in values
    ensures forall id | id in ids :: keys[id] in Assign(ids, keys, values)
    ensures forall u | u in Assign(ids, keys, values) ::
              exists id :: id in ids && keys[id] == u && Assign(ids, keys, values)[u] == values[id]
  {
    if ids != [] {
      var last := ids[|ids| - 1];
      var front := ids[..|ids| - 1];
      assert ids == front + [last];
      AssignHasAll(front, keys, values);
      forall u | u in Assign(ids, keys, values)
        ensures exists id :: id in ids && keys[id] == u && Assign(ids, keys, values)[u] == values[id]
      {
        if u == keys[last] {
          assert last in ids;
        } else {
          assert u in Assign(front, keys, values);
          var id :| id in front && keys[id] == u && Assign(front, keys, values)[u] == values[id];
          assert id in ids;
        }
      }
    }
  }

  ghost predicate DistinctKeys(ids: seq<nat>, keys: map<nat, string>)
    requires forall id | id in ids :: id in keys
  {
    forall i, j | 0 <= i < j < |ids| :: keys[ids[i]] != keys[ids[j]]
  }

  lemma DistinctKeysSplit(front: seq<nat>, last: nat, keys: map<nat, string>)
    requires last in keys && forall id | id in front :: id in keys
    ensures DistinctKeys(front + [last], keys) <==> DistinctKeys(front, keys) && forall id | id in front ::
              keys[id] != keys[last]
  {
    var ids := front + [last];
    if DistinctKeys(ids, keys) {
      forall i, j | 0 <= i < j < |front|
        ensures keys[front[i]] != keys[front[j]]
      {
        assert keys[ids[i]] != keys[ids[j]];
      }
      forall id | id in front
        ensures keys[id] != keys[last]
      {
        var k :| 0 <= k < |front| && front[k] == id;
        assert keys[ids[k]] != keys[ids[|front|]];
      }
    } else {
      assert forall i | 0 <= i < |front| :: ids[i] in front;
    }
  }

  /** The map has one entry per id exactly when no two ids share a key. */
  lemma {:induction false} AssignCounts<V>(ids: seq<nat>, keys: map<nat, string>, values: map<nat, V>)
    requires forall id | id in ids :: id in keys && id in values
    ensures |Assign(ids, keys, values)| <= |ids|
    ensures |Assign(ids, keys, values)| == |ids| <==> DistinctKeys(ids, keys)
  {
    if ids != [] {
      var last := ids[|ids| - 1];
      var front := ids[..|ids| - 1];
      assert ids == front + [last];
      AssignCounts(front, keys, values);
      DistinctKeysSplit(front, last, keys);
      var m := Assign(front, keys, values);
      if keys[last] in m {
        var id := AssignSourceIn(front, keys, values, keys[last]);
        assert m[keys[last] := values[last]].Keys == m.Keys;
      } else {
        assert forall id | id in front :: keys[id] != keys[last] by {
          AssignHasAll(front, keys, values);
        }
        assert m[keys[last] := values[last]].Keys == m.Keys + {keys[last]};
      }
    }
  }

  lemma AssignSourceIn<V>(ids: seq<nat>, keys: map<nat, string>, values: map<nat, V>, u: string) returns (id: nat)
    requires (forall id | id in ids :: id in keys && id in values) && u in Assign(ids, keys, values)
    ensures id in ids && keys[id] == u && Assign(ids, keys, values)[u] == values[id]
  {
    AssignHasAll(ids, keys, values);
    id :| id in ids && keys[id] == u && Assign(ids, keys, values)[u] == values[id];
  }

  lemma AssignSource<V>(keys: map<nat, string>, values: map<nat, V>, u: string) returns (id: nat)
    requires keys.Keys == values.Keys && u in AssignAll(keys, values)
    ensures id in keys && keys[id] == u && AssignAll(keys, values)[u] == values[id]
  {
    AscendingLists(keys.Keys);
    id := AssignSourceIn(Ascending(keys.Keys), keys, values, u);
  }

  lemma AssignTarget<V>(keys: map<nat, string>, values: map<nat, V>, id: nat)
    requires keys.Keys == values.Keys && id in keys
    ensures keys[id] in AssignAll(keys, values)
    ensures Injective(keys) ==> AssignAll(keys, values)[keys[id]] == values[id]
  {
    AscendingLists(keys.Keys);
    AssignHasAll(Ascending(keys.Keys), keys, values);
    var source := AssignSource(keys, values, keys[id]);
  }

  lemma AssignSize<V>(keys: map<nat, string>, values: map<nat, V>)
    requires keys.Keys == values.Keys
    ensures |AssignAll(keys, values)| <= |keys|
    ensures |AssignAll(keys, values)| == |keys| <==> Injective(keys)
  {
    var ids := Ascending(keys.Keys);
    AscendingLists(keys.Keys);
    AssignCounts(ids, keys, values);
    if DistinctKeys(ids, keys) {
      forall i, j | i in keys && j in keys && keys[i] == keys[j]
        ensures i == j
      {
        var a :| 0 <= a < |ids| && ids[a] == i;
        var b :| 0 <= b < |ids| && ids[b] == j;
      }
    }
  }

  // ---- Entries of an export and the rows they come from ----

  lemma NotifierSource(rt: Runtime, t: Tables, u: string) returns (id: nat)
    requires Exportable(rt, t) && u in ExportedConfig(rt, t).notifiers
    ensures id in t.notifiers.rows && NotifierKey(rt, t, id) == u
    ensures ExportedConfig(rt, t).notifiers[u] == NotifierEntry(rt, t.notifiers.rows[id].fields)
  {
    assert NotifierKeys(rt, t).Keys == NotifierEntries(rt, t).Keys == t.notifiers.rows.Keys;
    id := AssignSource(NotifierKeys(rt, t), NotifierEntries(rt, t), u);
  }

  lemma NotifierTarget(rt: Runtime, t: Tables, id: nat)
    requires Exportable(rt, t) && id in t.notifiers.rows
    ensures NotifierKey(rt, t, id) in ExportedConfig(rt, t).notifiers
    ensures Injective(NotifierKeys(rt, t)) ==>
              ExportedConfig(rt, t).notifiers[NotifierKey(rt, t, id)] == NotifierEntry(rt, t.notifiers.rows[id].fields)
  {
    assert NotifierKeys(rt, t).Keys == NotifierEntries(rt, t).Keys == t.notifiers.rows.Keys;
    AssignTarget(NotifierKeys(rt, t), NotifierEntries(rt, t), id);
  }

  lemma EndpointSource(rt: Runtime, t: Tables, u: string) returns (e: nat)
    requires Exportable(rt, t) && u in ExportedConfig(rt, t).endpoints
    ensures e in t.endpoints.rows && EndpointKey(rt, t, e) == u
    ensures ExportedConfig(rt, t).endpoints[u] == EndpointEntry(rt, t, e)
  {
    assert EndpointKeys(rt, t).Keys == EndpointEntries(rt, t).Keys == t.endpoints.rows.Keys;
    e := AssignSource(EndpointKeys(rt, t), EndpointEntries(rt, t), u);
  }

  lemma EndpointTarget(rt: Runtime, t: Tables, e: nat)
    requires Exportable(rt, t) && e in t.endpoints.rows
    ensures EndpointKey(rt, t, e) in ExportedConfig(rt, t).endpoints
    ensures Injective(EndpointKeys(rt, t)) ==>
              ExportedConfig(rt, t).endpoints[EndpointKey(rt, t, e)] == EndpointEntry(rt, t, e)
  {
    assert EndpointKeys(rt, t).Keys == EndpointEntries(rt, t).Keys == t.endpoints.rows.Keys;
    AssignTarget(EndpointKeys(rt, t), EndpointEntries(rt, t), e);
  }

  // ---- When an export loses nothing ----

  /** `keys` are the export keys of the rows of `tb`, whose names are `names`. */
  ghost predicate KeysFor<F, M>(rt: Runtime, tb: Table<F, M>, names: map<nat, string>, keys: map<nat, string>) {
    && keys.Keys == names.Keys == tb.rows.Keys
    && forall id | id in tb.rows :: keys[id] == GenerateUid(rt, tb.rows[id].uid, names[id], id)
  }

  /** The key generated for a UI row is the uid of a managed row. */
  ghost predicate Clash<F, M>(tb: Table<F, M>, keys: map<nat, string>) {
    exists i, j :: Managed(tb, i) && j in tb.rows && !Managed(tb, j) && j in keys && tb.rows[i].uid == Some(keys[j])
  }

  ghost predicate UidsAccepted<F, M>(tb: Table<F, M>) {
    forall id | Managed(tb, id) :: tb.rows[id].uid.Some? && UidText(tb.rows[id].uid.value)
  }

  /** Two rows share a key only when a generated key equals an existing uid. */
  lemma KeysDistinctIff<F, M>(rt: Runtime, tb: Table<F, M>, names: map<nat, string>, keys: map<nat, string>)
    requires Sound(tb) && UidsAccepted(tb) && KeysFor(rt, tb, names, keys)
    ensures Injective(keys) <==> !Clash(tb, keys)
  {
    forall i, j | i in keys && j in keys && keys[i] == keys[j] && i != j
      ensures Clash(tb, keys)
    {
      if Managed(tb, i) {
        assert HasUid(tb, i, keys[i]);
        assert HasUid(tb, j, keys[j]) ==> i == j;
      } else if Managed(tb, j) {
        assert HasUid(tb, j, keys[j]);
      } else {
        GeneratedKeysDiffer(rt, tb.rows[i].uid, names[i], i, tb.rows[j].uid, names[j], j);
      }
    }
    if Clash(tb, keys) {
      var i: nat, j: nat :| Managed(tb, i) && j in tb.rows && !Managed(tb, j) && j in keys &&
          tb.rows[i].uid == Some(keys[j]);
      assert keys[i] == keys[j];
    }
  }

  ghost predicate ClashFree(rt: Runtime, t: Tables) {
    !Clash(t.notifiers, NotifierKeys(rt, t)) && !Clash(t.endpoints, EndpointKeys(rt, t))
  }

  ghost predicate Accepted(t: Tables) {
    UidsAccepted(t.notifiers) && UidsAccepted(t.endpoints)
  }

  lemma NotifierKeysDistinctIff(rt: Runtime, t: Tables)
    requires Inv(t) && Accepted(t)
    ensures Injective(NotifierKeys(rt, t)) <==> !Clash(t.notifiers, NotifierKeys(rt, t))
  {
    KeysDistinctIff(rt, t.notifiers, map id | id in t.notifiers.rows :: t.notifiers.rows[id].fields.name,
        NotifierKeys(rt, t));
  }

  lemma EndpointKeysDistinctIff(rt: Runtime, t: Tables)
    requires Inv(t) && Accepted(t)
    ensures Injective(EndpointKeys(rt, t)) <==> !Clash(t.endpoints, EndpointKeys(rt, t))
  {
    KeysDistinctIff(rt, t.endpoints, map id | id in t.endpoints.rows :: t.endpoints.rows[id].fields.name,
        EndpointKeys(rt, t));
  }

  /**
   An export never has more items than the store, and as many exactly when no generated key clashes with an
   existing uid.
   */
  lemma ExportLosesNothing(rt: Runtime, t: Tables)
    requires Inv(t) && Accepted(t) && Exportable(rt, t)
    ensures var cfg := ExportedConfig(rt, t);
            && |cfg.notifiers| <= |t.notifiers.rows| && |cfg.endpoints| <= |t.endpoints.rows|
            && (|cfg.notifiers| == |t.notifiers.rows| <==> !Clash(t.notifiers, NotifierKeys(rt, t)))
            && (|cfg.endpoints| == |t.endpoints.rows| <==> !Clash(t.endpoints, EndpointKeys(rt, t)))
  {
    NotifierKeysDistinctIff(rt, t);
    EndpointKeysDistinctIff(rt, t);
    assert NotifierKeys(rt, t).Keys == NotifierEntries(rt, t).Keys == t.notifiers.rows.Keys;
    assert EndpointKeys(rt, t).Keys == EndpointEntries(rt, t).Keys == t.endpoints.rows.Keys;
    AssignSize(NotifierKeys(rt, t), NotifierEntries(rt, t));
    AssignSize(EndpointKeys(rt, t), EndpointEntries(rt, t));
    assert |NotifierKeys(rt, t)| == |NotifierKeys(rt, t).Keys| && |EndpointKeys(rt, t)| == |EndpointKeys(rt, t).Keys|;
    assert |t.notifiers.rows| == |t.notifiers.rows.Keys| && |t.endpoints.rows| == |t.endpoints.rows.Keys|;
  }

  /** A UI endpoint named "a" under id 1 beside a configured endpoint with uid "a_1". */
  function ClashingStore(f: EndpointFields, meta: EndpointMeta): Tables {
    EMPTY.(endpoints := Table(map[1 := Row(None, FromUi, f, meta), 2 := Row(Some("a_1"), FromConfig, f, meta)], 3))
  }

  lemma ClashingStoreIsSound(f: EndpointFields, meta: EndpointMeta)
    requires !meta.paused
    ensures Inv(ClashingStore(f, meta)) && Accepted(ClashingStore(f, meta))
  {
  }

  /** A clash loses an item. */
  lemma ExportMayLoseAnItem(rt: Runtime, f: EndpointFields, meta: EndpointMeta)
    requires rt.lower('a') == 'a' && f.name == "a" && !meta.paused
    ensures var t := ClashingStore(f, meta);
            Inv(t) && Accepted(t) && Exportable(rt, t) && |ExportedConfig(rt, t).endpoints| < |t.endpoints.rows|
  {
    var t := ClashingStore(f, meta);
    ClashingStoreIsSound(f, meta);
    KeyOfA(rt, f.name, 1);
    assert Managed(t.endpoints, 2) && !Managed(t.endpoints, 1) && 1 in EndpointKeys(rt, t);
    assert Clash(t.endpoints, EndpointKeys(rt, t));
    ExportLosesNothing(rt, t);
  }

  lemma KeyOfA(rt: Runtime, name: string, id: nat)
    requires rt.lower('a') == 'a' && name == "a" && id == 1
    ensures GenerateUid(rt, None, name, id) == "a_1"
  {
    SlugFixesSlugs(rt.lower, "a");
    assert "a" + "_" + Decimal(1) == "a_1";
  }

  /** Without a clash every row is found under its own key with its own columns. */
  lemma ExportKeepsRows(rt: Runtime, t: Tables, id: nat)
    requires Inv(t) && Accepted(t) && Exportable(rt, t) && ClashFree(rt, t)
    ensures id in t.notifiers.rows ==>
              && NotifierKey(rt, t, id) in ExportedConfig(rt, t).notifiers
              && ExportedConfig(rt, t).notifiers[NotifierKey(rt, t, id)] ==
                  NotifierEntry(rt, t.notifiers.rows[id].fields)
    ensures id in t.endpoints.rows ==>
              && EndpointKey(rt, t, id) in ExportedConfig(rt, t).endpoints
              && ExportedConfig(rt, t).endpoints[EndpointKey(rt, t, id)] == EndpointEntry(rt, t, id)
  {
    NotifierKeysDistinctIff(rt, t);
    EndpointKeysDistinctIff(rt, t);
    if id in t.notifiers.rows { NotifierTarget(rt, t, id); }
    if id in t.endpoints.rows { EndpointTarget(rt, t, id); }
  }

  /** Even with clashes, a row with no later row under the same key is exported under it. */
  lemma LaterRowWins(rt: Runtime, t: Tables, id: nat)
    requires Exportable(rt, t)
    ensures id in t.notifiers.rows
            && (forall j | j in t.notifiers.rows && j > id :: NotifierKey(rt, t, j) != NotifierKey(rt, t, id)) ==>
              && NotifierKey(rt, t, id) in ExportedConfig(rt, t).notifiers
              && ExportedConfig(rt, t).notifiers[NotifierKey(rt, t, id)] ==
                   NotifierEntry(rt, t.notifiers.rows[id].fields)
    ensures id in t.endpoints.rows
            && (forall j | j in t.endpoints.rows && j > id :: EndpointKey(rt, t, j) != EndpointKey(rt, t, id)) ==>
              && EndpointKey(rt, t, id) in ExportedConfig(rt, t).endpoints
              && ExportedConfig(rt, t).endpoints[EndpointKey(rt, t, id)] == EndpointEntry(rt, t, id)
  {
    assert NotifierKeys(rt, t).Keys == NotifierEntries(rt, t).Keys == t.notifiers.rows.Keys;
    assert EndpointKeys(rt, t).Keys == EndpointEntries(rt, t).Keys == t.endpoints.rows.Keys;
    LastAssigned(NotifierKeys(rt, t), NotifierEntries(rt, t), id);
    LastAssigned(EndpointKeys(rt, t), EndpointEntries(rt, t), id);
  }

  lemma LastAssigned<V>(keys: map<nat, string>, values: map<nat, V>, id: nat)
    requires keys.Keys == values.Keys
    ensures id in keys && (forall j | j in keys && j > id :: keys[j] != keys[id]) ==>
              keys[id] in AssignAll(keys, values) && AssignAll(keys, values)[keys[id]] == values[id]
  {
    if id in keys && forall j | j in keys && j > id :: keys[j] != keys[id] {
      var ids := Ascending(keys.Keys);
      AscendingLists(keys.Keys);
      var i :| 0 <= i < |ids| && ids[i] == id;
      assert forall j | i < j < |ids| :: ids[j] in ids && ids[j] > ids[i];
      LastIsKept(ids, keys, values, i);
    }
  }

  /** An exported entry holds its row, column by column, and a configured row is exported under its own uid. */
  lemma ExportedColumns(rt: Runtime, t: Tables, id: nat)
    requires Inv(t) && Accepted(t) && Exportable(rt, t) && ClashFree(rt, t)
    ensures id in t.endpoints.rows ==>
              && EndpointKey(rt, t, id) in ExportedConfig(rt, t).endpoints
              && var f, c := t.endpoints.rows[id].fields, ExportedConfig(rt, t).endpoints[EndpointKey(rt, t, id)];
                 c.name == f.name && c.kind == f.kind && c.url == f.url && c.interval == f.interval
                 && c.threshold == f.threshold
    ensures id in t.notifiers.rows ==>
              && NotifierKey(rt, t, id) in ExportedConfig(rt, t).notifiers
              && var f, c := t.notifiers.rows[id].fields, ExportedConfig(rt, t).notifiers[NotifierKey(rt, t, id)];
                 c.name == f.name && c.kind == f.kind && rt.unmarshal(f.json) == Some(c.block)
    ensures Managed(t.endpoints, id) ==> t.endpoints.rows[id].uid == Some(EndpointKey(rt, t, id))
    ensures Managed(t.notifiers, id) ==> t.notifiers.rows[id].uid == Some(NotifierKey(rt, t, id))
  {
    ExportKeepsRows(rt, t, id);
  }

  // ---- Exported references ----

  lemma {:induction false} KeysOfMembers(keys: map<nat, string>, ids: seq<nat>)
    requires forall id | id in ids :: id in keys
    ensures |KeysOf(keys, ids)| == |ids|
    ensures forall i | 0 <= i < |ids| :: KeysOf(keys, ids)[i] == keys[ids[i]]
  {
    if ids != [] {
      KeysOfMembers(keys, ids[..|ids| - 1]);
      assert ids == ids[..|ids| - 1] + [ids[|ids| - 1]];
    }
  }

  lemma LinkedIds(t: Tables, e: nat)
    ensures forall n: nat :: n in Ascending(LinkedTo(t, e)) <==> (e, n) in t.links
    ensures NoRepeats(Ascending(LinkedTo(t, e)))
  {
    AscendingLists(LinkedTo(t, e));
    forall n: nat
      ensures n in LinkedTo(t, e) <==> (e, n) in t.links
    {
      if (e, n) in t.links { assert (e, n).1 in LinkedTo(t, e); }
      if n in LinkedTo(t, e) {
        var l :| l in t.links && l.0 == e && l.1 == n;
        assert l == (e, n);
      }
    }
  }

  /** Endpoint `e` is linked to a notifier exported under `v`. */
  ghost predicate ListsKey(rt: Runtime, t: Tables, e: nat, v: string) {
    exists n: nat :: (e, n) in t.links && n in t.notifiers.rows && NotifierKey(rt, t, n) == v
  }

  /** The list exported for one endpoint names exactly its linked notifiers, each once if keys are distinct. */
  lemma ListIsLinks(rt: Runtime, t: Tables, e: nat)
    requires Inv(t) && e in t.endpoints.rows
    ensures forall v :: v in EndpointEntry(rt, t, e).notifiers <==> ListsKey(rt, t, e, v)
    ensures Injective(NotifierKeys(rt, t)) ==> NoRepeats(EndpointEntry(rt, t, e).notifiers)
  {
    var ids := Ascending(LinkedTo(t, e));
    LinkedIds(t, e);
    KeysOfMembers(NotifierKeys(rt, t), ids);
    var list := KeysOf(NotifierKeys(rt, t), ids);
    forall v
      ensures v in list <==> ListsKey(rt, t, e, v)
    {
      if v in list {
        var i :| 0 <= i < |list| && list[i] == v;
        assert ids[i] in ids && NotifierKey(rt, t, ids[i]) == v;
      }
      if ListsKey(rt, t, e, v) {
        var n: nat :| (e, n) in t.links && n in t.notifiers.rows && NotifierKey(rt, t, n) == v;
        assert n in ids;
        var i :| 0 <= i < |ids| && ids[i] == n;
        assert list[i] == v;
      }
    }
  }

  /** Every exported reference resolves within the export, clashes or not. */
  lemma ExportIsClosed(rt: Runtime, t: Tables)
    requires Inv(t) && Exportable(rt, t)
    ensures Closed(ExportedConfig(rt, t))
    ensures Injective(NotifierKeys(rt, t)) ==> RepeatFree(ExportedConfig(rt, t))
  {
    var cfg := ExportedConfig(rt, t);
    forall u | u in cfg.endpoints
      ensures forall v | v in cfg.endpoints[u].notifiers :: v in cfg.notifiers
      ensures Injective(NotifierKeys(rt, t)) ==> NoRepeats(cfg.endpoints[u].notifiers)
    {
      var e := EndpointSource(rt, t, u);
      ListIsLinks(rt, t, e);
      forall v | v in cfg.endpoints[u].notifiers
        ensures v in cfg.notifiers
      {
        var n: nat :| (e, n) in t.links && n in t.notifiers.rows && NotifierKey(rt, t, n) == v;
        NotifierTarget(rt, t, n);
      }
    }
  }

  /** Rows whose columns `validate` would accept, but for the threshold, which it fills in, and a notifier's type. */
  ghost predicate Presentable(t: Tables) {
    && (forall id | id in t.notifiers.rows :: t.notifiers.rows[id].fields.name != "")
    && (forall e | e in t.endpoints.rows :: PresentableEndpoint(t.endpoints.rows[e].fields))
  }

  /** Every notifier is stored under a type that `validate` supports, that is, in lower case. */
  ghost predicate KnownKinds(t: Tables) {
    forall id | id in t.notifiers.rows :: t.notifiers.rows[id].fields.kind in NOTIFIER_KINDS
  }

  predicate PresentableEndpoint(f: EndpointFields) {
    f.name != "" && f.url != "" && f.kind in ENDPOINT_KINDS && f.interval > 0
  }

  lemma KeyAccepted<F, M>(rt: Runtime, tb: Table<F, M>, id: nat, name: string)
    requires Sound(tb) && UidsAccepted(tb) && id in tb.rows
    ensures UidText(GenerateUid(rt, tb.rows[id].uid, name, id))
  {
    if Managed(tb, id) {
    } else {
      GeneratedShape(rt, tb.rows[id].uid, name, id);
    }
  }

  /** With known notifier types the exported file passes `validate`, clashes or not. */
  lemma ExportIsWellFormed(rt: Runtime, t: Tables)
    requires Inv(t) && Accepted(t) && Exportable(rt, t) && Presentable(t) && KnownKinds(t)
    ensures WellFormed(ExportedConfig(rt, t))
  {
    ExportIsClosed(rt, t);
    forall u | u in ExportedConfig(rt, t).notifiers
      ensures NotifierOk(u, ExportedConfig(rt, t).notifiers[u])
    {
      ExportedNotifierIsOk(rt, t, u);
    }
    forall u | u in ExportedConfig(rt, t).endpoints
      ensures EndpointOk(u, ExportedConfig(rt, t).endpoints[u], ExportedConfig(rt, t).notifiers.Keys)
    {
      ExportedEndpointIsOk(rt, t, u);
    }
  }

  /** When no item is lost, it passes exactly then. */
  lemma ExportIsWellFormedIff(rt: Runtime, t: Tables)
    requires Inv(t) && Accepted(t) && Exportable(rt, t) && Presentable(t) && ClashFree(rt, t)
    ensures WellFormed(ExportedConfig(rt, t)) <==> KnownKinds(t)
  {
    if KnownKinds(t) {
      ExportIsWellFormed(rt, t);
    }
    if WellFormed(ExportedConfig(rt, t)) {
      forall id | id in t.notifiers.rows
        ensures t.notifiers.rows[id].fields.kind in NOTIFIER_KINDS
      {
        ExportKeepsRows(rt, t, id);
      }
    }
  }

  lemma ExportedNotifierIsOk(rt: Runtime, t: Tables, u: string)
    requires Inv(t) && Accepted(t) && Exportable(rt, t) && Presentable(t) && KnownKinds(t)
    requires u in ExportedConfig(rt, t).notifiers
    ensures NotifierOk(u, ExportedConfig(rt, t).notifiers[u])
  {
    var id := NotifierSource(rt, t, u);
    KeyAccepted(rt, t.notifiers, id, t.notifiers.rows[id].fields.name);
  }

  lemma ExportedEndpointIsOk(rt: Runtime, t: Tables, u: string)
    requires Inv(t) && Accepted(t) && Exportable(rt, t) && Presentable(t) && u in ExportedConfig(rt, t).endpoints
    requires Closed(ExportedConfig(rt, t))
    ensures EndpointOk(u, ExportedConfig(rt, t).endpoints[u], ExportedConfig(rt, t).notifiers.Keys)
  {
    var e := EndpointSource(rt, t, u);
    KeyAccepted(rt, t.endpoints, e, t.endpoints.rows[e].fields.name);
    assert PresentableEndpoint(t.endpoints.rows[e].fields);
  }

  lemma UndefaultedIff(cfg: Config)
    ensures Defaulted(cfg) == cfg <==> forall u | u in cfg.endpoints ::
              WithDefaults(cfg.endpoints[u]) == cfg.endpoints[u]
  {
    if Defaulted(cfg) == cfg {
      assert forall u | u in cfg.endpoints :: Defaulted(cfg).endpoints[u] == WithDefaults(cfg.endpoints[u]);
    } else if forall u | u in cfg.endpoints :: WithDefaults(cfg.endpoints[u]) == cfg.endpoints[u] {
      SameMap(Defaulted(cfg).endpoints, cfg.endpoints);
    }
  }

  lemma ExportNeedsNoDefaults(rt: Runtime, t: Tables)
    requires Exportable(rt, t) && Presentable(t)
    requires forall e | e in t.endpoints.rows :: t.endpoints.rows[e].fields.threshold > 0
    ensures var cfg := ExportedConfig(rt, t);
            forall u | u in cfg.endpoints :: WithDefaults(cfg.endpoints[u]) == cfg.endpoints[u]
  {
    forall u | u in ExportedConfig(rt, t).endpoints
      ensures WithDefaults(ExportedConfig(rt, t).endpoints[u]) == ExportedConfig(rt, t).endpoints[u]
    {
      var e := EndpointSource(rt, t, u);
      assert PresentableEndpoint(t.endpoints.rows[e].fields);
    }
  }

  /** It passes unchanged exactly when no threshold has to be filled in. */
  lemma ExportIsValidIff(rt: Runtime, t: Tables)
    requires Inv(t) && Accepted(t) && Exportable(rt, t) && Presentable(t) && ClashFree(rt, t)
    ensures Defaulted(ExportedConfig(rt, t)) == ExportedConfig(rt, t) <==>
              forall e | e in t.endpoints.rows :: t.endpoints.rows[e].fields.threshold > 0
  {
    var cfg := ExportedConfig(rt, t);
    UndefaultedIff(cfg);
    if forall e | e in t.endpoints.rows :: t.endpoints.rows[e].fields.threshold > 0 {
      ExportNeedsNoDefaults(rt, t);
    }
    if Defaulted(cfg) == cfg {
      forall e | e in t.endpoints.rows
        ensures t.endpoints.rows[e].fields.threshold > 0
      {
        ExportKeepsRows(rt, t, e);
        assert WithDefaults(cfg.endpoints[EndpointKey(rt, t, e)]) == cfg.endpoints[EndpointKey(rt, t, e)];
      }
    }
  }

  // ---- Round trips ----

  /** JSON text that unmarshalling and marshalling again reproduces. */
  predicate Stable(rt: Runtime, json: string) {
    var block := rt.unmarshal(json);
    block.Some? && rt.marshal(block.value) == Some(json)
  }

  predicate StableStore(rt: Runtime, t: Tables) {
    forall id | id in t.notifiers.rows :: Stable(rt, t.notifiers.rows[id].fields.json)
  }

  /** JSON text that can be unmarshalled and marshalled again; the result may be spelled differently. */
  predicate Rewritable(rt: Runtime, json: string) {
    var block := rt.unmarshal(json);
    block.Some? && rt.marshal(block.value).Some?
  }

  predicate RewritableStore(rt: Runtime, t: Tables) {
    forall id | id in t.notifiers.rows :: Rewritable(rt, t.notifiers.rows[id].fields.json)
  }

  lemma RewritableMarshals(rt: Runtime, t: Tables)
    requires RewritableStore(rt, t)
    ensures Marshalable(rt, ExportedConfig(rt, t))
  {
    forall u | u in ExportedConfig(rt, t).notifiers
      ensures rt.marshal(ExportedConfig(rt, t).notifiers[u].block).Some?
    {
      var id := NotifierSource(rt, t, u);
      assert Rewritable(rt, t.notifiers.rows[id].fields.json);
    }
  }

  ghost predicate AllManaged(t: Tables) {
    && (forall id | id in t.notifiers.rows :: Managed(t.notifiers, id))
    && (forall e | e in t.endpoints.rows :: Managed(t.endpoints, e))
  }

  lemma ManagedKeys(rt: Runtime, t: Tables)
    requires Inv(t) && Accepted(t) && AllManaged(t)
    ensures forall id | id in t.notifiers.rows :: t.notifiers.rows[id].uid == Some(NotifierKey(rt, t, id))
    ensures forall e | e in t.endpoints.rows :: t.endpoints.rows[e].uid == Some(EndpointKey(rt, t, e))
    ensures ClashFree(rt, t) && Injective(NotifierKeys(rt, t)) && Injective(EndpointKeys(rt, t))
  {
    NotifierKeysDistinctIff(rt, t);
    EndpointKeysDistinctIff(rt, t);
  }

  /** The export of a fully managed store asks for exactly what the store shows. */
  lemma ExportRequestsView(rt: Runtime, t: Tables)
    requires Inv(t) && Accepted(t) && AllManaged(t) && StableStore(rt, t)
    ensures Requested(rt, ExportedConfig(rt, t)) == ConfigView(t)
    ensures Closed(ExportedConfig(rt, t)) && RepeatFree(ExportedConfig(rt, t)) && Marshalable(rt, ExportedConfig(rt, t))
  {
    ManagedKeys(rt, t);
    ExportIsClosed(rt, t);
    RewritableMarshals(rt, t);
    ExportedNotifiersView(rt, t);
    ExportedEndpointsView(rt, t);
    ExportedWiring(rt, t);
  }

  lemma ExportedNotifiersView(rt: Runtime, t: Tables)
    requires Inv(t) && Accepted(t) && AllManaged(t) && StableStore(rt, t)
    ensures WantedNotifiers(rt, ExportedConfig(rt, t)) == View(t.notifiers)
  {
    var cfg := ExportedConfig(rt, t);
    ManagedKeys(rt, t);
    forall u | u in cfg.notifiers
      ensures u in View(t.notifiers)
      ensures WantedNotifiers(rt, cfg)[u] == View(t.notifiers)[u]
    {
      var id := NotifierSource(rt, t, u);
      assert HasUid(t.notifiers, id, u);
    }
    forall u | u in View(t.notifiers)
      ensures u in cfg.notifiers
    {
      NotifierTarget(rt, t, IdOf(t.notifiers, u));
    }
    SameMap(WantedNotifiers(rt, cfg), View(t.notifiers));
  }

  lemma ExportedEndpointsView(rt: Runtime, t: Tables)
    requires Inv(t) && Accepted(t) && AllManaged(t) && Exportable(rt, t)
    ensures WantedEndpoints(ExportedConfig(rt, t)) == View(t.endpoints)
  {
    var cfg := ExportedConfig(rt, t);
    ManagedKeys(rt, t);
    forall u | u in cfg.endpoints
      ensures u in View(t.endpoints) && WantedEndpoints(cfg)[u] == View(t.endpoints)[u]
    {
      var e := EndpointSource(rt, t, u);
      assert HasUid(t.endpoints, e, u);
    }
    forall u | u in View(t.endpoints)
      ensures u in cfg.endpoints
    {
      EndpointTarget(rt, t, IdOf(t.endpoints, u));
    }
    assert forall u :: u in WantedEndpoints(cfg) <==> u in View(t.endpoints);
  }

  lemma ExportedWiring(rt: Runtime, t: Tables)
    requires Inv(t) && Accepted(t) && AllManaged(t) && Exportable(rt, t)
    ensures Requested(rt, ExportedConfig(rt, t)).wiring == ConfigView(t).wiring
  {
    var cfg := ExportedConfig(rt, t);
    ExportedEndpointsView(rt, t);
    assert forall u :: u in Uids(t.endpoints) <==> u in View(t.endpoints);
    assert forall u :: u in cfg.endpoints <==> u in WantedEndpoints(cfg);
    forall u | u in cfg.endpoints
      ensures References(cfg, u) == LinkedUids(t, IdOf(t.endpoints, u))
    {
      ExportedReferences(rt, t, u);
    }
    SameMap(Requested(rt, cfg).wiring, ConfigView(t).wiring);
  }

  lemma ExportedReferences(rt: Runtime, t: Tables, u: string)
    requires Inv(t) && Accepted(t) && AllManaged(t) && Exportable(rt, t)
    requires u in ExportedConfig(rt, t).endpoints && Knows(t.endpoints, u)
    ensures References(ExportedConfig(rt, t), u) == LinkedUids(t, IdOf(t.endpoints, u))
  {
    var e := ExportedEndpointId(rt, t, u);
    ReferencesAreListed(rt, t, u);
    ListIsLinks(rt, t, e);
    forall v
      ensures v in References(ExportedConfig(rt, t), u) <==> v in LinkedUids(t, e)
    {
      ListedIffLinked(rt, t, e, v);
    }
  }

  /** In a managed store the endpoint exported under a key is the one with that uid. */
  lemma ExportedEndpointId(rt: Runtime, t: Tables, u: string) returns (e: nat)
    requires Inv(t) && Accepted(t) && AllManaged(t) && Exportable(rt, t)
    requires u in ExportedConfig(rt, t).endpoints && Knows(t.endpoints, u)
    ensures e in t.endpoints.rows && e == IdOf(t.endpoints, u)
    ensures ExportedConfig(rt, t).endpoints[u] == EndpointEntry(rt, t, e)
  {
    e := EndpointSource(rt, t, u);
    ManagedKeys(rt, t);
    assert HasUid(t.endpoints, e, u);
  }

  /** All references of an export resolve. */
  lemma ReferencesAreListed(rt: Runtime, t: Tables, u: string)
    requires Inv(t) && Exportable(rt, t) && u in ExportedConfig(rt, t).endpoints
    ensures forall v :: v in References(ExportedConfig(rt, t), u) <==> v in ExportedConfig(rt, t).endpoints[u].notifiers
  {
    ExportIsClosed(rt, t);
  }

  lemma ListedIffLinked(rt: Runtime, t: Tables, e: nat, v: string)
    requires Inv(t) && Accepted(t) && AllManaged(t)
    ensures ListsKey(rt, t, e, v) <==> v in LinkedUids(t, e)
  {
    ManagedKeys(rt, t);
    assert forall n: nat | n in t.notifiers.rows :: HasUid(t.notifiers, n, v) <==> NotifierKey(rt, t, n) == v;
  }

  /** Syncing the export of a fully managed store commits and leaves every row, link and check as it was. */
  lemma SyncUndoesExport(rt: Runtime, t: Tables, t': Tables)
    requires Inv(t) && Accepted(t) && AllManaged(t) && StableStore(rt, t)
    ensures Committable(rt, ExportedConfig(rt, t), t)
    ensures Synced(rt, ExportedConfig(rt, t), t, t') ==> SameRows(t, t')
  {
    ExportRequestsView(rt, t);
    if Synced(rt, ExportedConfig(rt, t), t, t') {
      ShownIsFixed(rt, ExportedConfig(rt, t), t, t');
    }
  }

  /** The same configuration up to the order of notifier lists and the spelling of blocks with the same JSON. */
  ghost predicate SameConfig(rt: Runtime, a: Config, b: Config) {
    && a.notifiers.Keys == b.notifiers.Keys
    && (forall u | u in a.notifiers ::
          && a.notifiers[u].name == b.notifiers[u].name && a.notifiers[u].kind == b.notifiers[u].kind
          && rt.marshal(a.notifiers[u].block) == rt.marshal(b.notifiers[u].block))
    && a.endpoints.Keys == b.endpoints.Keys
    && (forall u | u in a.endpoints ::
          && FieldsOf(a.endpoints[u]) == FieldsOf(b.endpoints[u])
          && multiset(a.endpoints[u].notifiers) == multiset(b.endpoints[u].notifiers))
  }

  lemma {:induction false} NoRepeatsMultiset<T>(s: seq<T>)
    requires NoRepeats(s)
    ensures multiset(s) == multiset(set x | x in s)
  {
    if s != [] {
      var front, last := s[..|s| - 1], s[|s| - 1];
      assert s == front + [last];
      NoRepeatsMultiset(front);
      assert last !in front;
      assert (set x | x in s) == (set x | x in front) + {last};
    }
  }

  lemma SameRequestSameConfig(rt: Runtime, a: Config, b: Config)
    requires Requested(rt, a) == Requested(rt, b)
    requires Closed(a) && Closed(b) && RepeatFree(a) && RepeatFree(b) && Marshalable(rt, a) && Marshalable(rt, b)
    ensures SameConfig(rt, a, b)
  {
    assert a.notifiers.Keys == WantedNotifiers(rt, a).Keys == WantedNotifiers(rt, b).Keys == b.notifiers.Keys;
    assert a.endpoints.Keys == WantedEndpoints(a).Keys == WantedEndpoints(b).Keys == b.endpoints.Keys;
    forall u | u in a.notifiers
      ensures a.notifiers[u].name == b.notifiers[u].name && a.notifiers[u].kind == b.notifiers[u].kind
      ensures rt.marshal(a.notifiers[u].block) == rt.marshal(b.notifiers[u].block)
    {
      assert WantedNotifiers(rt, a)[u] == WantedNotifiers(rt, b)[u];
    }
    forall u | u in a.endpoints
      ensures FieldsOf(a.endpoints[u]) == FieldsOf(b.endpoints[u])
      ensures multiset(a.endpoints[u].notifiers) == multiset(b.endpoints[u].notifiers)
    {
      assert WantedEndpoints(a)[u] == WantedEndpoints(b)[u];
      assert References(a, u) == Requested(rt, a).wiring[u] == Requested(rt, b).wiring[u] == References(b, u);
      assert (set v | v in a.endpoints[u].notifiers) == References(a, u);
      assert (set v | v in b.endpoints[u].notifiers) == References(b, u);
      NoRepeatsMultiset(a.endpoints[u].notifiers);
      NoRepeatsMultiset(b.endpoints[u].notifiers);
    }
  }

  /** Every block's JSON survives a round trip through the store. */
  predicate StableConfig(rt: Runtime, cfg: Config) {
    forall u | u in cfg.notifiers ::
      var json := rt.marshal(cfg.notifiers[u].block);
      json.Some? && Stable(rt, json.value)
  }

  /**
   Exporting after a sync gives the configuration back, up to list order: into an empty store, or into
   any store whose items are all managed.
   */
  lemma ExportUndoesSync(rt: Runtime, cfg: Config, t0: Tables, t: Tables)
    requires Inv(t0) && AllManaged(t0) && Valid(cfg) && StableConfig(rt, cfg) && RepeatFree(cfg)
    requires Synced(rt, cfg, t0, t)
    ensures Exportable(rt, t) && SameConfig(rt, ExportedConfig(rt, t), cfg)
    ensures Defaulted(ExportedConfig(rt, t)) == ExportedConfig(rt, t)
  {
    SyncIsExact(rt, cfg, t0, t);
    OnlyManagedAfter(t0.notifiers, WantedNotifiers(rt, cfg), t.notifiers);
    OnlyManagedAfter(t0.endpoints, WantedEndpoints(cfg), t.endpoints);
    forall id | id in t.notifiers.rows
      ensures UidText(t.notifiers.rows[id].uid.value) && Stable(rt, t.notifiers.rows[id].fields.json)
    {
      var u := t.notifiers.rows[id].uid.value;
      assert HasUid(t.notifiers, id, u) && u in View(t.notifiers);
      assert View(t.notifiers)[u] == WantedNotifiers(rt, cfg)[u];
    }
    forall e | e in t.endpoints.rows
      ensures UidText(t.endpoints.rows[e].uid.value)
    {
      var u := t.endpoints.rows[e].uid.value;
      assert HasUid(t.endpoints, e, u) && u in View(t.endpoints);
    }
    ExportRequestsView(rt, t);
    SameRequestSameConfig(rt, ExportedConfig(rt, t), cfg);
    SameAsValidNeedsNoDefaults(rt, ExportedConfig(rt, t), cfg);
  }

  lemma SameAsValidNeedsNoDefaults(rt: Runtime, a: Config, b: Config)
    requires SameConfig(rt, a, b) && Valid(b)
    ensures Defaulted(a) == a
  {
    UndefaultedIff(a);
    forall u | u in a.endpoints
      ensures WithDefaults(a.endpoints[u]) == a.endpoints[u]
    {
      assert FieldsOf(a.endpoints[u]) == FieldsOf(b.endpoints[u]);
    }
  }

  lemma OnlyManagedAfter<F, M>(before: Table<F, M>, want: map<string, F>, after: Table<F, M>)
    requires Sound(before) && Reconciled(before, want, after)
    requires forall id | id in before.rows :: Managed(before, id)
    ensures forall id | id in after.rows :: Managed(after, id) && after.rows[id].uid.Some?
  {
    forall id | id in after.rows
      ensures Managed(after, id)
    {
      if id in before.rows {
        EarlierRow(before, want, after, id);
      }
    }
  }

  // ---- Syncing an exported file ----

  /** The exported configuration as it is, or as parsing the file fills it in. */
  ghost function File(rt: Runtime, t: Tables, parsed: bool): Config
    requires Exportable(rt, t)
  {
    if parsed then Defaulted(ExportedConfig(rt, t)) else ExportedConfig(rt, t)
  }

  /** What the file asks for in place of these columns. */
  function AskedEndpoint(f: EndpointFields, parsed: bool): EndpointFields {
    if parsed then FilledIn(f) else f
  }

  function AskedNotifier(rt: Runtime, f: NotifierFields): NotifierFields
    requires Rewritable(rt, f.json)
  {
    NotifierFields(f.name, f.kind, rt.marshal(rt.unmarshal(f.json).value).value)
  }

  /** Parsing has nothing to fill in. */
  ghost predicate Filled(t: Tables, parsed: bool) {
    forall e | e in t.endpoints.rows :: AskedEndpoint(t.endpoints.rows[e].fields, parsed) == t.endpoints.rows[e].fields
  }

  /** Filling in defaults does not touch notifiers or references. */
  lemma FileReferences(rt: Runtime, t: Tables, parsed: bool)
    requires Exportable(rt, t)
    ensures var cfg, file := ExportedConfig(rt, t), File(rt, t, parsed);
            && (Closed(file) <==> Closed(cfg)) && (RepeatFree(file) <==> RepeatFree(cfg))
            && (Marshalable(rt, file) <==> Marshalable(rt, cfg))
  {
    var cfg, file := ExportedConfig(rt, t), File(rt, t, parsed);
    assert forall u :: u in file.endpoints <==> u in cfg.endpoints;
    assert forall u | u in cfg.endpoints :: file.endpoints[u].notifiers == cfg.endpoints[u].notifiers;
  }

  /**
   Syncing an exported file commits exactly when its blocks marshal and no list repeats a key.  With blocks that
   can be rewritten only the lists matter, and they repeat nothing when no notifier key clashes.
   */
  lemma ExportCommitsIff(rt: Runtime, t: Tables, parsed: bool)
    requires Inv(t) && Accepted(t) && Exportable(rt, t)
    ensures Committable(rt, File(rt, t, parsed), t) <==>
              Marshalable(rt, ExportedConfig(rt, t)) && RepeatFree(ExportedConfig(rt, t))
    ensures RewritableStore(rt, t) ==> Marshalable(rt, ExportedConfig(rt, t))
    ensures !Clash(t.notifiers, NotifierKeys(rt, t)) ==> RepeatFree(ExportedConfig(rt, t))
  {
    NotifierKeysDistinctIff(rt, t);
    ExportIsClosed(rt, t);
    FileReferences(rt, t, parsed);
    ClosedCommits(rt, File(rt, t, parsed), t);
    if RewritableStore(rt, t) {
      RewritableMarshals(rt, t);
    }
  }

  lemma FileAsksForNotifier(rt: Runtime, t: Tables, parsed: bool, id: nat)
    requires Inv(t) && Accepted(t) && RewritableStore(rt, t) && ClashFree(rt, t) && id in t.notifiers.rows
    ensures var want := WantedNotifiers(rt, File(rt, t, parsed));
            && NotifierKey(rt, t, id) in want
            && want[NotifierKey(rt, t, id)] == AskedNotifier(rt, t.notifiers.rows[id].fields)
  {
    ExportKeepsRows(rt, t, id);
  }

  lemma FileAsksForEndpoint(rt: Runtime, t: Tables, parsed: bool, e: nat)
    requires Inv(t) && Accepted(t) && Exportable(rt, t) && ClashFree(rt, t) && e in t.endpoints.rows
    ensures var want := WantedEndpoints(File(rt, t, parsed));
            && EndpointKey(rt, t, e) in want
            && want[EndpointKey(rt, t, e)] == AskedEndpoint(t.endpoints.rows[e].fields, parsed)
  {
    ExportKeepsRows(rt, t, e);
  }

  /**
   Syncing an exported file does not make UI items managed: each stays as it is, and a managed twin appears under
   a fresh id.  The twin of an endpoint has its columns, filled in if the file was parsed; the twin of a notifier
   has its name, its type and its JSON unmarshalled and marshalled again.
   */
  lemma ExportDuplicatesUiItems(rt: Runtime, t: Tables, t': Tables, parsed: bool, id: nat)
    requires Inv(t) && Accepted(t) && RewritableStore(rt, t) && ClashFree(rt, t)
    requires Synced(rt, File(rt, t, parsed), t, t')
    ensures id in t.endpoints.rows && !Managed(t.endpoints, id) ==>
              && id in t'.endpoints.rows && t'.endpoints.rows[id] == t.endpoints.rows[id]
              && Twin(t.endpoints, t'.endpoints, EndpointKey(rt, t, id),
                      AskedEndpoint(t.endpoints.rows[id].fields, parsed))
    ensures id in t.notifiers.rows && !Managed(t.notifiers, id) ==>
              && id in t'.notifiers.rows && t'.notifiers.rows[id] == t.notifiers.rows[id]
              && Twin(t.notifiers, t'.notifiers, NotifierKey(rt, t, id),
                      AskedNotifier(rt, t.notifiers.rows[id].fields))
  {
    var file := File(rt, t, parsed);
    if id in t.endpoints.rows && !Managed(t.endpoints, id) {
      FileAsksForEndpoint(rt, t, parsed, id);
      TwinAppears(t.endpoints, WantedEndpoints(file), t'.endpoints, EndpointKey(rt, t, id));
      FreshKey(t.endpoints, EndpointKeys(rt, t), id);
    }
    if id in t.notifiers.rows && !Managed(t.notifiers, id) {
      FileAsksForNotifier(rt, t, parsed, id);
      TwinAppears(t.notifiers, WantedNotifiers(rt, file), t'.notifiers, NotifierKey(rt, t, id));
      FreshKey(t.notifiers, NotifierKeys(rt, t), id);
    }
  }

  /** A store that shows what its exported file asks for has no UI item, and nothing in it is respelled or filled in. */
  lemma ShownFileIsManaged(rt: Runtime, t: Tables, parsed: bool)
    requires Inv(t) && Accepted(t) && RewritableStore(rt, t) && ClashFree(rt, t)
    requires ConfigView(t) == Requested(rt, File(rt, t, parsed))
    ensures AllManaged(t) && StableStore(rt, t) && Filled(t, parsed)
  {
    forall id | id in t.notifiers.rows
      ensures Managed(t.notifiers, id) && Stable(rt, t.notifiers.rows[id].fields.json)
    {
      ShownNotifierIsManaged(rt, t, parsed, id);
    }
    forall e | e in t.endpoints.rows
      ensures Managed(t.endpoints, e)
      ensures AskedEndpoint(t.endpoints.rows[e].fields, parsed) == t.endpoints.rows[e].fields
    {
      ShownEndpointIsManaged(rt, t, parsed, e);
    }
  }

  lemma ShownNotifierIsManaged(rt: Runtime, t: Tables, parsed: bool, id: nat)
    requires Inv(t) && Accepted(t) && RewritableStore(rt, t) && ClashFree(rt, t) && id in t.notifiers.rows
    requires View(t.notifiers) == WantedNotifiers(rt, File(rt, t, parsed))
    ensures Managed(t.notifiers, id) && Stable(rt, t.notifiers.rows[id].fields.json)
  {
    FileAsksForNotifier(rt, t, parsed, id);
    ShownKeyIsUid(t.notifiers, NotifierKeys(rt, t), id);
    assert Rewritable(rt, t.notifiers.rows[id].fields.json);
  }

  lemma ShownEndpointIsManaged(rt: Runtime, t: Tables, parsed: bool, e: nat)
    requires Inv(t) && Accepted(t) && Exportable(rt, t) && ClashFree(rt, t) && e in t.endpoints.rows
    requires View(t.endpoints) == WantedEndpoints(File(rt, t, parsed))
    ensures Managed(t.endpoints, e)
    ensures AskedEndpoint(t.endpoints.rows[e].fields, parsed) == t.endpoints.rows[e].fields
  {
    FileAsksForEndpoint(rt, t, parsed, e);
    ShownKeyIsUid(t.endpoints, EndpointKeys(rt, t), e);
  }

  lemma ShownKeyIsUid<F, M>(tb: Table<F, M>, keys: map<nat, string>, id: nat)
    requires Sound(tb) && UidsAccepted(tb) && !Clash(tb, keys) && id in tb.rows && id in keys
    requires Managed(tb, id) ==> tb.rows[id].uid == Some(keys[id])
    requires keys[id] in View(tb)
    ensures Managed(tb, id) && View(tb)[keys[id]] == tb.rows[id].fields
  {
    if !Managed(tb, id) {
      FreshKey(tb, keys, id);
    } else {
      assert HasUid(tb, id, keys[id]);
    }
  }

  lemma FilledFileIsExport(rt: Runtime, t: Tables, parsed: bool)
    requires Exportable(rt, t) && Filled(t, parsed)
    ensures File(rt, t, parsed) == ExportedConfig(rt, t)
  {
    if parsed {
      var cfg := ExportedConfig(rt, t);
      UndefaultedIff(cfg);
      forall u | u in cfg.endpoints
        ensures WithDefaults(cfg.endpoints[u]) == cfg.endpoints[u]
      {
        var e := EndpointSource(rt, t, u);
        assert AskedEndpoint(t.endpoints.rows[e].fields, parsed) == t.endpoints.rows[e].fields;
      }
    }
  }

  /**
   Syncing its own export gives a clash-free store back exactly when it holds no UI item, its JSON text is as
   marshalling spells it, and, if the file was parsed, no column was left to be filled in.
   */
  lemma ExportSyncsBackIff(rt: Runtime, t: Tables, t': Tables, parsed: bool)
    requires Inv(t) && Accepted(t) && RewritableStore(rt, t) && ClashFree(rt, t)
    requires Synced(rt, File(rt, t, parsed), t, t')
    ensures SameRows(t, t') <==> AllManaged(t) && StableStore(rt, t) && Filled(t, parsed)
  {
    ShownIffFixed(rt, File(rt, t, parsed), t, t');
    if AllManaged(t) && StableStore(rt, t) && Filled(t, parsed) {
      FilledFileIsExport(rt, t, parsed);
      ExportRequestsView(rt, t);
    }
    if SameRows(t, t') {
      ShownFileIsManaged(rt, t, parsed);
    }
  }

  /** A store that is not given back: its only item is a UI notifier. */
  lemma LoneUiNotifierIsDuplicated(rt: Runtime, f: NotifierFields, meta: NotifierMeta, t': Tables, parsed: bool)
    requires Rewritable(rt, f.json)
    ensures var t := EMPTY.(notifiers := Table(map[1 := Row(None, FromUi, f, meta)], 2));
            && Inv(t) && RewritableStore(rt, t) && Committable(rt, File(rt, t, parsed), t)
            && (Synced(rt, File(rt, t, parsed), t, t') ==> !SameRows(t, t'))
  {
    var t := EMPTY.(notifiers := Table(map[1 := Row(None, FromUi, f, meta)], 2));
    assert !Managed(t.notifiers, 1);
    ExportCommitsIff(rt, t, parsed);
    if Synced(rt, File(rt, t, parsed), t, t') {
      ExportSyncsBackIff(rt, t, t', parsed);
    }
  }

  lemma FreshKey<F, M>(tb: Table<F, M>, keys: map<nat, string>, j: nat)
    requires Sound(tb) && !Clash(tb, keys) && j in keys && j in tb.rows && !Managed(tb, j)
    ensures !Knows(tb, keys[j])
  {
    assert forall i | HasUid(tb, i, keys[j]) :: Managed(tb, i);
  }

  /** Some managed row of `tb'` with a fresh id and uid `u` has the given columns. */
  ghost predicate Twin<F, M>(tb: Table<F, M>, tb': Table<F, M>, u: string, columns: F) {
    exists twin: nat :: HasUid(tb', twin, u) && twin >= tb.next && tb'.rows[twin].fields == columns
  }

  lemma TwinAppears<F, M>(tb: Table<F, M>, want: map<string, F>, tb': Table<F, M>, u: string)
    requires Sound(tb) && Reconciled(tb, want, tb') && u in want
    ensures Knows(tb, u) || Twin(tb, tb', u, want[u])
  {
    var twin := IdOf(tb', u);
    UidsPersist(tb, want, tb', twin, u);
  }
}
