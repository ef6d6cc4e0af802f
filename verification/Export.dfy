/** `ExportConfig` (internal/db/export.go) as a method, and the configuration it produces as a function. */
module Export {
  import opened Common
  import opened Store
  import opened Configuration
  import opened Text

  datatype ExportError = IoError | UnmarshalError(name: string)

  /** The YAML key of a row: its uid when it has a non-empty one, otherwise a slug of its name and its id. */
  function GenerateUid(rt: Runtime, existing: Option<string>, name: string, id: nat): string {
    if existing.Some? && existing.value != "" then existing.value
    else if name == "" then "item_" + Decimal(id)
    else
      var slug := Slug(rt.lower, name);
      if slug == "" then "item_" + Decimal(id) else slug + "_" + Decimal(id)
  }

  function NotifierKey(rt: Runtime, t: Tables, id: nat): string
    requires id in t.notifiers.rows
  {
    GenerateUid(rt, t.notifiers.rows[id].uid, t.notifiers.rows[id].fields.name, id)
  }

  function EndpointKey(rt: Runtime, t: Tables, id: nat): string
    requires id in t.endpoints.rows
  {
    GenerateUid(rt, t.endpoints.rows[id].uid, t.endpoints.rows[id].fields.name, id)
  }

  function NotifierKeys(rt: Runtime, t: Tables): map<nat, string> {
    map id | id in t.notifiers.rows :: NotifierKey(rt, t, id)
  }

  function EndpointKeys(rt: Runtime, t: Tables): map<nat, string> {
    map id | id in t.endpoints.rows :: EndpointKey(rt, t, id)
  }

  /** Every stored notifier block is JSON that reads back. */
  predicate Exportable(rt: Runtime, t: Tables) {
    forall id | id in t.notifiers.rows :: rt.unmarshal(t.notifiers.rows[id].fields.json).Some?
  }

  function NotifierEntry(rt: Runtime, f: NotifierFields): NotifierConfig
    requires rt.unmarshal(f.json).Some?
  {
    NotifierConfig(f.name, f.kind, rt.unmarshal(f.json).value)
  }

  function NotifierEntries(rt: Runtime, t: Tables): map<nat, NotifierConfig>
    requires Exportable(rt, t)
  {
    map id | id in t.notifiers.rows :: NotifierEntry(rt, t.notifiers.rows[id].fields)
  }

  /** The keys of the given notifiers, in the order of `ids`; an unknown id is skipped. */
  function KeysOf(keys: map<nat, string>, ids: seq<nat>): seq<string> {
    if ids == [] then [] else
      var id := ids[|ids| - 1];
      KeysOf(keys, ids[..|ids| - 1]) + (if id in keys then [keys[id]] else [])
  }

  ghost function EndpointEntry(rt: Runtime, t: Tables, e: nat): EndpointConfig
    requires e in t.endpoints.rows
  {
    var f := t.endpoints.rows[e].fields;
    EndpointConfig(f.name, f.kind, f.url, f.interval, f.threshold,
        KeysOf(NotifierKeys(rt, t), Ascending(LinkedTo(t, e))))
  }

  ghost function EndpointEntries(rt: Runtime, t: Tables): map<nat, EndpointConfig> {
    map e | e in t.endpoints.rows :: EndpointEntry(rt, t, e)
  }

  /** The map after assigning `values[id]` to `keys[id]` for each id in turn: the last writer wins. */
  function Assign<V>(ids: seq<nat>, keys: map<nat, string>, values: map<nat, V>): map<string, V> {
    if ids == [] then map[] else
      var id := ids[|ids| - 1];
      var m := Assign(ids[..|ids| - 1], keys, values);
      if id in keys && id in values then m[keys[id] := values[id]] else m
  }

  lemma AssignNext<V>(ids: seq<nat>, i: nat, keys: map<nat, string>, values: map<nat, V>)
    requires i < |ids| && ids[i] in keys && ids[i] in values
    ensures Assign(ids[..i + 1], keys, values) == Assign(ids[..i], keys, values)[keys[ids[i]] := values[ids[i]]]
  {
    assert ids[..i + 1][..i] == ids[..i];
  }

  /** Of several rows with the same key the last one is kept. */
  lemma {:induction false} LastIsKept<V>(ids: seq<nat>, keys: map<nat, string>, values: map<nat, V>, i: nat)
    requires i < |ids| && forall id | id in ids :: id in keys && id in values
    requires forall j | i < j < |ids| :: keys[ids[j]] != keys[ids[i]]
    ensures keys[ids[i]] in Assign(ids, keys, values) && Assign(ids, keys, values)[keys[ids[i]]] == values[ids[i]]
  {
    if i < |ids| - 1 {
      FrontAndLast(ids);
      LastIsKept(ids[..|ids| - 1], keys, values, i);
    }
  }

  ghost function AssignAll<V>(keys: map<nat, string>, values: map<nat, V>): map<string, V> {
    Assign(Ascending(keys.Keys), keys, values)
  }

  ghost function ExportedConfig(rt: Runtime, t: Tables): Config
    requires Exportable(rt, t)
  {
    Config(AssignAll(NotifierKeys(rt, t), NotifierEntries(rt, t)),
        AssignAll(EndpointKeys(rt, t), EndpointEntries(rt, t)))
  }

  // ---- The method ----

  datatype Scan = Scan(keys: map<nat, string>, entries: map<string, NotifierConfig>)

  /** The first pass over the rows `ids`: fails at the first block that is not JSON. */
  function ScanNotifiers(rt: Runtime, t: Tables, ids: seq<nat>): Result<Scan, ExportError>
    requires forall id | id in ids :: id in t.notifiers.rows
  {
    if ids == [] then Ok(Scan(map[], map[])) else
      var id := ids[|ids| - 1];
      var row := t.notifiers.rows[id];
      var key := GenerateUid(rt, row.uid, row.fields.name, id);
      match ScanNotifiers(rt, t, ids[..|ids| - 1])
      case Err(e) => Err(e)
      case Ok(scan) =>
        var block := rt.unmarshal(row.fields.json);
        if block.None? then Err(UnmarshalError(row.fields.name))
        else Ok(Scan(scan.keys[id := key], scan.entries[key := NotifierConfig(row.fields.name, row.fields.kind,
            block.value)]))
  }

  lemma {:induction false} ScanMeans(rt: Runtime, t: Tables, ids: seq<nat>)
    requires forall id | id in ids :: id in t.notifiers.rows
    ensures var r := ScanNotifiers(rt, t, ids);
            && (r.Ok? <==> forall id | id in ids :: rt.unmarshal(t.notifiers.rows[id].fields.json).Some?)
            && (r.Ok? ==> forall id :: id in r.value.keys <==> id in ids)
            && (r.Ok? ==> forall id | id in ids :: r.value.keys[id] == NotifierKey(rt, t, id))
            && (r.Ok? && Exportable(rt, t) ==>
                r.value.entries == Assign(ids, NotifierKeys(rt, t), NotifierEntries(rt, t)))
  {
    if ids != [] {
      var front := ids[..|ids| - 1];
      ScanMeans(rt, t, front);
      assert ids == front + [ids[|ids| - 1]];
    }
  }

  lemma ScanAll(rt: Runtime, t: Tables, ids: seq<nat>)
    requires ids == Ascending(t.notifiers.rows.Keys) && forall id :: id in ids <==> id in t.notifiers.rows
    ensures var r := ScanNotifiers(rt, t, ids);
            && (r.Ok? <==> Exportable(rt, t))
            && (r.Ok? ==> r.value == Scan(NotifierKeys(rt, t), AssignAll(NotifierKeys(rt, t), NotifierEntries(rt, t))))
  {
    ScanMeans(rt, t, ids);
    assert NotifierKeys(rt, t).Keys == t.notifiers.rows.Keys;
    var r := ScanNotifiers(rt, t, ids);
    assert r.Ok? ==> r.value.keys == NotifierKeys(rt, t);
  }

  method ExportNotifiers(rt: Runtime, t: Tables, reliable: bool)
    returns (err: Option<ExportError>, m: map<string, NotifierConfig>, keys: map<nat, string>)
    ensures err.None? ==> Exportable(rt, t) && keys == NotifierKeys(rt, t)
    ensures err.None? ==> m == AssignAll(keys, NotifierEntries(rt, t))
    ensures reliable && Exportable(rt, t) ==> err.None?
    ensures err.Some? && err.value.UnmarshalError? ==>
              exists id :: id in t.notifiers.rows && t.notifiers.rows[id].fields.name == err.value.name
                           && rt.unmarshal(t.notifiers.rows[id].fields.json) == None
  {
    m := map[];
    keys := map[];
    var ids := OrderById(t.notifiers.rows.Keys);
    ScanAll(rt, t, ids);
    for i := 0 to |ids|
      invariant ScanNotifiers(rt, t, ids[..i]) == Ok(Scan(keys, m))
    {
      if * { if !reliable { return Some(IoError), m, keys; } }
      assert ids[..i + 1][..i] == ids[..i];
      var id := ids[i];
      var row := t.notifiers.rows[id];
      var key := GenerateUid(rt, row.uid, row.fields.name, id);
      keys := keys[id := key];
      var block := rt.unmarshal(row.fields.json);
      if block.None? {
        assert !Exportable(rt, t);
        return Some(UnmarshalError(row.fields.name)), m, keys;
      }
      m := m[key := NotifierConfig(row.fields.name, row.fields.kind, block.value)];
    }
    if * { if !reliable { return Some(IoError), m, keys; } }
    assert ids[..|ids|] == ids;
    return None, m, keys;
  }

  /** The notifier keys one endpoint lists, by ascending notifier id. */
  method ConnectedNotifiers(t: Tables, e: nat, keys: map<nat, string>, reliable: bool)
    returns (ok: bool, list: seq<string>)
    ensures ok ==> list == KeysOf(keys, Ascending(LinkedTo(t, e)))
    ensures reliable ==> ok
  {
    list := [];
    var ids := OrderById(set l | l in t.links && l.0 == e :: l.1);
    for i := 0 to |ids|
      invariant list == KeysOf(keys, ids[..i])
    {
      if * { if !reliable { return false, list; } }
      if ids[i] in keys {
        list := list + [keys[ids[i]]];
      }
      assert ids[..i + 1][..i] == ids[..i];
    }
    assert ids[..|ids|] == ids;
    return true, list;
  }

  method ExportEndpoints(rt: Runtime, t: Tables, notifierKeys: map<nat, string>, reliable: bool)
    returns (err: Option<ExportError>, m: map<string, EndpointConfig>)
    requires notifierKeys == NotifierKeys(rt, t)
    ensures err.None? ==> m == AssignAll(EndpointKeys(rt, t), EndpointEntries(rt, t))
    ensures reliable ==> err.None?
  {
    m := map[];
    var ids := OrderById(t.endpoints.rows.Keys);
    ghost var keys, entries := EndpointKeys(rt, t), EndpointEntries(rt, t);
    assert keys.Keys == t.endpoints.rows.Keys;
    for i := 0 to |ids|
      invariant m == Assign(ids[..i], keys, entries)
    {
      if * { if !reliable { return Some(IoError), m; } }
      var e := ids[i];
      assert e in t.endpoints.rows;
      var row := t.endpoints.rows[e];
      var ok, list := ConnectedNotifiers(t, e, notifierKeys, reliable);
      if !ok { return Some(IoError), m; }
      var f := row.fields;
      m := m[GenerateUid(rt, row.uid, f.name, e) := EndpointConfig(f.name, f.kind, f.url, f.interval, f.threshold,
          list)];
      AssignNext(ids, i, keys, entries);
    }
    assert ids[..|ids|] == ids;
    return None, m;
  }

  method ExportConfig(db: DB, rt: Runtime, reliable: bool) returns (r: Result<Config, ExportError>)
    ensures r.Ok? ==> Exportable(rt, db.tables) && r.value == ExportedConfig(rt, db.tables)
    ensures reliable ==> (r.Ok? <==> Exportable(rt, db.tables))
  {
    var err, ns, keys := ExportNotifiers(rt, db.tables, reliable);
    if err.Some? { return Err(err.value); }
    var es;
    err, es := ExportEndpoints(rt, db.tables, keys, reliable);
    if err.Some? { return Err(err.value); }
    return Ok(Config(ns, es));
  }

  // ---- Generated keys ----

  predicate Plain(existing: Option<string>) { existing.None? || existing.value == "" }

  /** The text in front of `_<id>` in a generated key. */
  function Stem(rt: Runtime, name: string): string {
    var slug := Slug(rt.lower, name);
    if name == "" || slug == "" then "item" else slug
  }

  /** A generated key is a non-empty slug followed by the id, so `validate` accepts it. */
  lemma GeneratedShape(rt: Runtime, existing: Option<string>, name: string, id: nat)
    requires Plain(existing)
    ensures GenerateUid(rt, existing, name, id) == Stem(rt, name) + "_" + Decimal(id)
    ensures Stem(rt, name) != "" && SlugText(Stem(rt, name))
    ensures UidText(GenerateUid(rt, existing, name, id))
  {
    SlugIsSlug(rt.lower, name);
    assert "item" + "_" == "item_";
  }

  /** Generated keys determine the id, whatever the names. */
  lemma GeneratedKeysDiffer(rt: Runtime, x: Option<string>, name: string, i: nat, y: Option<string>, other: string,
      j: nat)
    requires Plain(x) && Plain(y) && GenerateUid(rt, x, name, i) == GenerateUid(rt, y, other, j)
    ensures i == j
  {
    GeneratedShape(rt, x, name, i);
    GeneratedShape(rt, y, other, j);
    SuffixDecodes(Stem(rt, name), i, Stem(rt, other), j);
  }

  /**
   The key of a row without a uid, from its name: the words of the name in lower case and the id, all joined by
   underscores; or "item" and the id when the name holds no letter or digit.
   */
  lemma KeyIsWordsAndId(rt: Runtime, name: string, id: nat, plain: string)
    returns (lead: string, words: seq<string>, gaps: seq<string>, trail: string)
    requires |plain| == |name| && forall i | 0 <= i < |name| :: plain[i] == rt.lower(name[i])
    ensures IsGap(lead) && Apart(words, gaps) && IsGap(trail)
    ensures plain == lead + Spelled(words, gaps) + trail
    ensures GenerateUid(rt, None, name, id) ==
              (if words == [] then "item" else Underscored(words)) + "_" + Decimal(id)
  {
    lead, words, gaps, trail := IntoWords(plain);
    SlugIsWords(rt.lower, name, plain, lead, words, gaps, trail);
    GeneratedShape(rt, None, name, id);
    if words != [] {
      UnderscoredEdges(words);
      SpelledStarts(words, gaps);
    }
  }

  /** For example, "My Website!" under id 12 is exported as my_website_12, and "?!" as item_12. */
  lemma KeyExample(rt: Runtime)
    requires forall c :: rt.lower(c) == if c == 'M' then 'm' else if c == 'W' then 'w' else c
    ensures GenerateUid(rt, None, "My Website!", 12) == "my_website_12"
    ensures GenerateUid(rt, None, "?!", 12) == "item_12" && GenerateUid(rt, None, "", 12) == "item_12"
    ensures GenerateUid(rt, Some("web"), "My Website!", 12) == "web"
  {
    SlugExamples(rt.lower);
    assert Decimal(12) == Decimal(1) + "2" == "12";
  }
}
