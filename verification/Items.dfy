/** Single-item store operations (internal/db/endpoint.go, notifier.go) and ejection (config_state.go). */
module Items {
  import opened Common
  import opened ManagedTable
  import opened Store

  datatype DbError = NoRows | ConstraintFailed

  // ---- What each statement does to the tables ----

  function InsertEndpoint(t: Tables, id: nat, f: EndpointFields, paused: bool, now: int): Tables {
    t.(endpoints := Table(t.endpoints.rows[id := Row(None, FromUi, f, EndpointMeta(paused, now))], id + 1))
  }

  function OverwriteEndpoint(t: Tables, id: nat, f: EndpointFields): Tables {
    if id in t.endpoints.rows
    then t.(endpoints := t.endpoints.(rows := t.endpoints.rows[id := t.endpoints.rows[id].(fields := f)]))
    else t
  }

  function RemoveEndpoint(t: Tables, id: nat): Tables {
    KeepEndpoints(t, t.endpoints.(rows := t.endpoints.rows - {id}))
  }

  function SetPaused(t: Tables, id: nat, paused: bool): Tables
    requires id in t.endpoints.rows
  {
    var row := t.endpoints.rows[id];
    t.(endpoints := t.endpoints.(rows := t.endpoints.rows[id := row.(meta := row.meta.(paused := paused))]))
  }

  function InsertNotifier(t: Tables, id: nat, f: NotifierFields, now: int): Tables {
    t.(notifiers := Table(t.notifiers.rows[id := Row(None, FromUi, f, NotifierMeta(now))], id + 1))
  }

  function OverwriteNotifier(t: Tables, id: nat, f: NotifierFields): Tables {
    if id in t.notifiers.rows
    then t.(notifiers := t.notifiers.(rows := t.notifiers.rows[id := t.notifiers.rows[id].(fields := f)]))
    else t
  }

  function RemoveNotifier(t: Tables, id: nat): Tables {
    KeepNotifiers(t, t.notifiers.(rows := t.notifiers.rows - {id}))
  }

  /** The list can replace the links of `e` without breaking the primary key or a foreign key. */
  ghost predicate Linkable(t: Tables, e: nat, ids: seq<nat>) {
    NoRepeats(ids) && forall n | n in ids :: e in t.endpoints.rows && n in t.notifiers.rows
  }

  function ReplaceLinks(t: Tables, e: nat, ids: seq<nat>): Tables {
    t.(links := (set l | l in t.links && l.0 != e) + (set n | n in ids :: (e, n)))
  }

  function DefaultKind(f: EndpointFields): EndpointFields {
    if f.kind == "" then f.(kind := "http") else f
  }

  // ---- The methods ----

  method CreateEndpoint(db: DB, f: EndpointFields, paused: bool) returns (id: nat, ghost now: int)
    modifies db
    ensures RowAdded(old(db.tables).endpoints, id,
                     Row(None, FromUi, f.(kind := if f.kind == "" then "http" else f.kind), EndpointMeta(paused, now)),
                     db.tables.endpoints)
    ensures db.tables == old(db.tables).(endpoints := db.tables.endpoints)
    ensures db.tables == InsertEndpoint(old(db.tables), id, DefaultKind(f), paused, now)
  {
    var gap: int :| gap >= 0;
    var clock: int := *;
    id := db.tables.endpoints.next + gap;
    now := clock;
    db.tables := InsertEndpoint(db.tables, id, DefaultKind(f), paused, clock);
  }

  method UpdateEndpoint(db: DB, id: nat, f: EndpointFields)
    modifies db
    ensures ColumnsSet(old(db.tables).endpoints, id, f.(kind := if f.kind == "" then "http" else f.kind),
                       db.tables.endpoints)
    ensures db.tables == old(db.tables).(endpoints := db.tables.endpoints)
  {
    var columns := f;
    if columns.kind == "" { columns := columns.(kind := "http"); }
    var tb := db.tables.endpoints;
    if id in tb.rows {
      db.tables := db.tables.(endpoints := tb.(rows := tb.rows[id := tb.rows[id].(fields := columns)]));
    }
  }

  /** Deletes the row; the schema cascades to the links and the checks that refer to it. */
  method DeleteEndpoint(db: DB, id: nat)
    requires Inv(db.tables)
    modifies db
    ensures Inv(db.tables)
    ensures RowGone(old(db.tables).endpoints, id, db.tables.endpoints)
    ensures forall e: nat, n: nat :: (e, n) in db.tables.links <==> (e, n) in old(db.tables).links && e != id
    ensures forall e :: ChecksOf(db.tables.checks, {e}) == if e == id then [] else ChecksOf(old(db.tables).checks, {e})
    ensures db.tables == RemoveEndpoint(old(db.tables), id)
  {
    var t := db.tables;
    var kept := t.endpoints.(rows := t.endpoints.rows - {id});
    var links := set l | l in t.links && l.0 != id;
    var checks := CascadeChecks(t.checks, id, kept.rows.Keys);
    db.tables := t.(endpoints := kept, links := links, checks := checks);
    LinksOfOthers(t, id);
    RemovalEffect(t, id);
  }

  lemma RemovalEffect(t: Tables, id: nat)
    requires Inv(t)
    ensures var t' := RemoveEndpoint(t, id);
            && Inv(t') && RowGone(t.endpoints, id, t'.endpoints)
            && (forall e: nat, n: nat :: (e, n) in t'.links <==> (e, n) in t.links && e != id)
            && forall e :: ChecksOf(t'.checks, {e}) == if e == id then [] else ChecksOf(t.checks, {e})
  {
    KeepEndpointsInv(t, t.endpoints.(rows := t.endpoints.rows - {id}));
    LinksOfOthers(t, id);
    forall e
      ensures ChecksOf(RemoveEndpoint(t, id).checks, {e}) == if e == id then [] else ChecksOf(t.checks, {e})
    {
      ChecksOfOther(t, id, e);
    }
  }

  method CascadeChecks(checks: seq<CheckRow>, id: nat, ghost others: set<nat>) returns (r: seq<CheckRow>)
    requires id !in others && forall c | c in checks :: c.endpoint == id || c.endpoint in others
    ensures r == ChecksOf(checks, others)
  {
    r := [];
    for i := 0 to |checks|
      invariant r == ChecksOf(checks[..i], others)
    {
      assert checks[..i + 1][..i] == checks[..i];
      assert checks[i] in checks;
      if checks[i].endpoint != id { r := r + [checks[i]]; }
    }
    assert checks[..|checks|] == checks;
  }

  /** With no link dangling, the links that go with an endpoint are those that start at it. */
  lemma LinksOfOthers(t: Tables, id: nat)
    requires LinksSound(t)
    ensures RemoveEndpoint(t, id).links == set l | l in t.links && l.0 != id
  {
    assert forall l | l in t.links :: l == (l.0, l.1) && l.0 in t.endpoints.rows;
  }

  lemma ChecksOfOther(t: Tables, id: nat, e: nat)
    requires ChecksSound(t)
    ensures ChecksOf(RemoveEndpoint(t, id).checks, {e}) == if e == id then [] else ChecksOf(t.checks, {e})
  {
    if e != id && e in t.endpoints.rows {
      ChecksOfTwice(t.checks, (t.endpoints.rows - {id}).Keys, {e});
    } else {
      NoChecksOf(RemoveEndpoint(t, id).checks, e);
      if e != id { NoChecksOf(t.checks, e); }
    }
  }

  lemma NoChecksOf(checks: seq<CheckRow>, e: nat)
    requires forall c | c in checks :: c.endpoint != e
    ensures ChecksOf(checks, {e}) == []
  {
    assert ChecksOf(checks, {e}) != [] ==> ChecksOf(checks, {e})[0] in checks;
  }

  /** Reads the flag, then writes its negation. */
  method TogglePause(db: DB, id: nat) returns (r: Result<bool, DbError>)
    modifies db
    ensures r.Ok? <==> id in old(db.tables).endpoints.rows
    ensures r.Ok? ==> r.value == !old(db.tables).endpoints.rows[id].meta.paused
    ensures r.Ok? ==> MetaSet(old(db.tables).endpoints, id,
                              EndpointMeta(r.value, old(db.tables).endpoints.rows[id].meta.createdAt),
                              db.tables.endpoints)
    ensures db.tables == old(db.tables).(endpoints := db.tables.endpoints)
    ensures r.Ok? ==> db.tables == SetPaused(old(db.tables), id, r.value)
    ensures r.Err? ==> db.tables == old(db.tables)
  {
    if id !in db.tables.endpoints.rows { return Err(NoRows); }
    var newPaused := !db.tables.endpoints.rows[id].meta.paused;
    db.tables := SetPaused(db.tables, id, newPaused);
    return Ok(newPaused);
  }

  method CreateNotifier(db: DB, f: NotifierFields) returns (id: nat, ghost now: int)
    modifies db
    ensures RowAdded(old(db.tables).notifiers, id, Row(None, FromUi, f, NotifierMeta(now)), db.tables.notifiers)
    ensures db.tables == old(db.tables).(notifiers := db.tables.notifiers)
    ensures db.tables == InsertNotifier(old(db.tables), id, f, now)
  {
    var gap: int :| gap >= 0;
    var clock: int := *;
    id := db.tables.notifiers.next + gap;
    now := clock;
    db.tables := InsertNotifier(db.tables, id, f, clock);
  }

  method UpdateNotifier(db: DB, id: nat, f: NotifierFields)
    modifies db
    ensures ColumnsSet(old(db.tables).notifiers, id, f, db.tables.notifiers)
    ensures db.tables == old(db.tables).(notifiers := db.tables.notifiers)
  {
    var tb := db.tables.notifiers;
    if id in tb.rows {
      db.tables := db.tables.(notifiers := tb.(rows := tb.rows[id := tb.rows[id].(fields := f)]));
    }
  }

  /** Deletes the row; the schema cascades to the links that refer to it. */
  method DeleteNotifier(db: DB, id: nat)
    requires Inv(db.tables)
    modifies db
    ensures Inv(db.tables)
    ensures RowGone(old(db.tables).notifiers, id, db.tables.notifiers)
    ensures forall e: nat, n: nat :: (e, n) in db.tables.links <==> (e, n) in old(db.tables).links && n != id
    ensures db.tables == RemoveNotifier(old(db.tables), id)
  {
    var t := db.tables;
    var kept := t.notifiers.(rows := t.notifiers.rows - {id});
    var links := set l | l in t.links && l.1 != id;
    db.tables := t.(notifiers := kept, links := links);
    KeepNotifiersInv(t, kept);
    LinksToOthers(t, id);
  }

  lemma LinksToOthers(t: Tables, id: nat)
    requires LinksSound(t)
    ensures RemoveNotifier(t, id).links == set l | l in t.links && l.1 != id
  {
    assert forall l | l in t.links :: l == (l.0, l.1) && l.1 in t.notifiers.rows;
  }

  /** Setting the columns of one row and nothing else is overwriting it. */
  lemma ColumnsSetOverwrites(t: Tables, id: nat, f: EndpointFields, t': Tables)
    requires ColumnsSet(t.endpoints, id, f, t'.endpoints) && t' == t.(endpoints := t'.endpoints)
    ensures t' == OverwriteEndpoint(t, id, f)
  {
    SameMap(t'.endpoints.rows, OverwriteEndpoint(t, id, f).endpoints.rows);
  }

  lemma NotifierColumnsSetOverwrites(t: Tables, id: nat, f: NotifierFields, t': Tables)
    requires ColumnsSet(t.notifiers, id, f, t'.notifiers) && t' == t.(notifiers := t'.notifiers)
    ensures t' == OverwriteNotifier(t, id, f)
  {
    SameMap(t'.notifiers.rows, OverwriteNotifier(t, id, f).notifiers.rows);
  }

  /** Replaces all links of an endpoint in one transaction: delete, then insert one by one. */
  method SetEndpointNotifiers(db: DB, e: nat, ids: seq<nat>) returns (err: Option<DbError>)
    modifies db
    ensures err.None? <==> Linkable(old(db.tables), e, ids)
    ensures db.tables == old(db.tables).(links := db.tables.links)
    ensures err.None? ==> forall x: nat, n: nat ::
              (x, n) in db.tables.links <==> if x == e then n in ids else (x, n) in old(db.tables).links
    ensures db.tables == if err.None? then ReplaceLinks(old(db.tables), e, ids) else old(db.tables)
  {
    var t := db.tables;
    var links := set l | l in t.links && l.0 != e;
    for i := 0 to |ids|
      invariant links == (set l | l in t.links && l.0 != e) + (set n | n in ids[..i] :: (e, n))
      invariant Linkable(t, e, ids[..i])
    {
      var n := ids[i];
      assert n in ids;
      if e !in t.endpoints.rows || n !in t.notifiers.rows { return Some(ConstraintFailed); }
      if (e, n) in links {
        assert n in ids[..i];
        return Some(ConstraintFailed);
      }
      assert n !in ids[..i] by {
        assert (e, n) !in (set m | m in ids[..i] :: (e, m));
      }
      assert ids[..i + 1] == ids[..i] + [n];
      links := links + {(e, n)};
    }
    assert ids[..|ids|] == ids;
    db.tables := t.(links := links);
    return None;
  }

  // ---- Ejection ----

  function EjectTable<F, M>(tb: Table<F, M>): Table<F, M> {
    tb.(rows := map id | id in tb.rows ::
          if tb.rows[id].source == FromConfig then tb.rows[id].(source := FromUi, uid := None) else tb.rows[id])
  }

  function Ejected(t: Tables): Tables {
    t.(endpoints := EjectTable(t.endpoints), notifiers := EjectTable(t.notifiers))
  }

  method EjectConfigItems(db: DB, reliable: bool) returns (ok: bool)
    modifies db
    ensures ok ==> Released(old(db.tables).endpoints, db.tables.endpoints)
    ensures ok ==> Released(old(db.tables).notifiers, db.tables.notifiers)
    ensures db.tables == old(db.tables).(endpoints := db.tables.endpoints, notifiers := db.tables.notifiers)
    ensures db.tables == if ok then Ejected(old(db.tables)) else old(db.tables)
    ensures reliable ==> ok
  {
    var tx := db.tables;
    if * { if !reliable { return false; } }
    tx := tx.(endpoints := EjectTable(tx.endpoints));
    if * { if !reliable { return false; } }
    tx := tx.(notifiers := EjectTable(tx.notifiers));
    if * { if !reliable { return false; } }
    db.tables := tx;
    return true;
  }

  ghost function ManagedIds<F, M>(tb: Table<F, M>): set<nat> {
    set id | id in tb.rows && Managed(tb, id)
  }

  method CountRows<F, M>(tb: Table<F, M>) returns (n: nat)
    ensures n == |ManagedIds(tb)|
  {
    n := 0;
    var todo := tb.rows.Keys;
    assert ManagedIds(tb) - todo == {};
    while todo != {}
      invariant todo <= tb.rows.Keys
      invariant n == |ManagedIds(tb) - todo|
      decreases |todo|
    {
      var id :| id in todo;
      if tb.rows[id].source == FromConfig {
        assert ManagedIds(tb) - (todo - {id}) == ManagedIds(tb) - todo + {id};
        n := n + 1;
      } else {
        assert ManagedIds(tb) - (todo - {id}) == ManagedIds(tb) - todo;
      }
      todo := todo - {id};
    }
    assert ManagedIds(tb) - todo == ManagedIds(tb);
  }

  method CountConfigItems(db: DB) returns (n: nat)
    ensures n == |ManagedIds(db.tables.endpoints)| + |ManagedIds(db.tables.notifiers)|
  {
    var e := CountRows(db.tables.endpoints);
    var k := CountRows(db.tables.notifiers);
    return e + k;
  }

  lemma EjectedSound<F, M>(tb: Table<F, M>)
    requires Sound(tb)
    ensures Sound(EjectTable(tb)) && ManagedIds(EjectTable(tb)) == {}
    ensures forall id | id in tb.rows :: EjectTable(tb).rows[id] ==
              Row(None, FromUi, tb.rows[id].fields, tb.rows[id].meta)
  {
    forall id | id in tb.rows
      ensures EjectTable(tb).rows[id] == Row(None, FromUi, tb.rows[id].fields, tb.rows[id].meta)
    {
      assert Managed(tb, id) <==> tb.rows[id].uid.Some?;
    }
  }

  /** Ejection keeps every id, column, link and check, keeps the invariant, and leaves nothing managed. */
  lemma EjectionReleases(t: Tables)
    requires Inv(t)
    ensures Inv(Ejected(t))
    ensures ManagedIds(Ejected(t).endpoints) == {} && ManagedIds(Ejected(t).notifiers) == {}
    ensures Ejected(t).endpoints.rows.Keys == t.endpoints.rows.Keys &&
              Ejected(t).notifiers.rows.Keys == t.notifiers.rows.Keys
    ensures forall e | e in t.endpoints.rows ::
              Ejected(t).endpoints.rows[e] == Row(None, FromUi, t.endpoints.rows[e].fields, t.endpoints.rows[e].meta)
    ensures forall n | n in t.notifiers.rows ::
              Ejected(t).notifiers.rows[n] == Row(None, FromUi, t.notifiers.rows[n].fields, t.notifiers.rows[n].meta)
    ensures Ejected(t).links == t.links && Ejected(t).checks == t.checks
  {
    EjectedSound(t.endpoints);
    EjectedSound(t.notifiers);
    assert forall e | Managed(Ejected(t).endpoints, e) :: e in ManagedIds(Ejected(t).endpoints);
  }

  // ---- Each statement keeps the invariant when the row it touches is not managed ----

  lemma InsertEndpointInv(t: Tables, id: nat, f: EndpointFields, paused: bool, now: int)
    requires Inv(t) && id >= t.endpoints.next
    ensures Inv(InsertEndpoint(t, id, f, paused, now))
  {
    var t' := InsertEndpoint(t, id, f, paused, now);
    assert forall i, u | HasUid(t'.endpoints, i, u) :: HasUid(t.endpoints, i, u);
  }

  lemma OverwriteEndpointInv(t: Tables, id: nat, f: EndpointFields)
    requires Inv(t)
    ensures Inv(OverwriteEndpoint(t, id, f))
  {
    var t' := OverwriteEndpoint(t, id, f);
    assert forall i, u | HasUid(t'.endpoints, i, u) :: HasUid(t.endpoints, i, u);
  }

  lemma SetPausedInv(t: Tables, id: nat, paused: bool)
    requires Inv(t) && id in t.endpoints.rows && !Managed(t.endpoints, id)
    ensures Inv(SetPaused(t, id, paused))
  {
    var t' := SetPaused(t, id, paused);
    assert forall i, u | HasUid(t'.endpoints, i, u) :: HasUid(t.endpoints, i, u);
  }

  lemma InsertNotifierInv(t: Tables, id: nat, f: NotifierFields, now: int)
    requires Inv(t) && id >= t.notifiers.next
    ensures Inv(InsertNotifier(t, id, f, now))
  {
    var t' := InsertNotifier(t, id, f, now);
    assert forall i, u | HasUid(t'.notifiers, i, u) :: HasUid(t.notifiers, i, u);
  }

  lemma OverwriteNotifierInv(t: Tables, id: nat, f: NotifierFields)
    requires Inv(t)
    ensures Inv(OverwriteNotifier(t, id, f))
  {
    var t' := OverwriteNotifier(t, id, f);
    assert forall i, u | HasUid(t'.notifiers, i, u) :: HasUid(t.notifiers, i, u);
  }

  lemma ReplaceLinksInv(t: Tables, e: nat, ids: seq<nat>)
    requires Inv(t) && Linkable(t, e, ids) && !Managed(t.endpoints, e)
    ensures Inv(ReplaceLinks(t, e, ids))
  {
  }
}
