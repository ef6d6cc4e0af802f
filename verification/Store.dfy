/** The SQLite store: rows, schema constraints, the invariant every operation keeps, and cascades. */
module Store {
  import opened Common
  import opened ManagedTable

  datatype EndpointFields = EndpointFields(kind: string, name: string, url: string, interval: int, threshold: int)
  datatype EndpointMeta = EndpointMeta(paused: bool, createdAt: int)
  type EndpointTable = Table<EndpointFields, EndpointMeta>

  datatype NotifierFields = NotifierFields(name: string, kind: string, json: string)
  datatype NotifierMeta = NotifierMeta(createdAt: int)
  type NotifierTable = Table<NotifierFields, NotifierMeta>

  datatype CheckRow = CheckRow(id: nat, endpoint: nat, status: Option<int>, ms: int, up: bool, at: int)

  /** model.MinimalCheck: what the dashboard window keeps of a check. */
  datatype Mini = Mini(up: bool, at: int, status: Option<int>, ms: int)

  /** A check result before it has a row. */
  datatype Check = Check(endpoint: nat, mini: Mini)

  function RowOf(c: Check, id: nat): CheckRow {
    CheckRow(id, c.endpoint, c.mini.status, c.mini.ms, c.mini.up, c.mini.at)
  }

  function MiniOf(r: CheckRow): Mini {
    Mini(r.up, r.at, r.status, r.ms)
  }

  /** A row holds its check, column by column, and the window entry made from the row is the one made from the check. */
  lemma RowsAndMinis(c: Check, id: nat)
    ensures var r := RowOf(c, id);
            && r.id == id && r.endpoint == c.endpoint
            && r.status == c.mini.status && r.ms == c.mini.ms && r.up == c.mini.up && r.at == c.mini.at
            && MiniOf(r) == c.mini
  {
  }

  /** One row of `links` is a pair (endpoint id, notifier id); `checks` lists the check rows by id. */
  datatype Tables = Tables(
    endpoints: EndpointTable,
    notifiers: NotifierTable,
    links: set<(nat, nat)>,
    checks: seq<CheckRow>,
    nextCheck: nat)

  const EMPTY := Tables(Table(map[], 1), Table(map[], 1), {}, [], 1)

  /** A handle on the database file: `tables` is the last committed state. */
  class DB {
    var tables: Tables

    constructor ()
      ensures tables == EMPTY
    {
      tables := EMPTY;
    }
  }

  // ---- Invariant ----

  ghost predicate LinksSound(t: Tables) {
    forall e, n | (e, n) in t.links ::
      && e in t.endpoints.rows
      && n in t.notifiers.rows
      && (Managed(t.endpoints, e) ==> Managed(t.notifiers, n))
  }

  ghost predicate ChecksSound(t: Tables) {
    && (forall i | 0 <= i < |t.checks| :: t.checks[i].endpoint in t.endpoints.rows && t.checks[i].id < t.nextCheck)
    && (forall i, j | 0 <= i < j < |t.checks| :: t.checks[i].id < t.checks[j].id)
  }

  ghost predicate NeverPaused(t: Tables) {
    forall e | Managed(t.endpoints, e) :: !t.endpoints.rows[e].meta.paused
  }

  /**
   Provenance and referential integrity: a row is managed iff it has a uid, uids are unique, managed
   endpoints run and link only to managed notifiers, nothing dangles, ids stay below their counters.
   */
  ghost predicate Inv(t: Tables) {
    && Sound(t.endpoints)
    && Sound(t.notifiers)
    && LinksSound(t)
    && ChecksSound(t)
    && NeverPaused(t)
  }

  // ---- Cascades ----

  /** The checks that belong to one of the endpoints in `es`, in order. */
  function ChecksOf(checks: seq<CheckRow>, es: set<nat>): (r: seq<CheckRow>)
    ensures forall c :: c in r <==> c in checks && c.endpoint in es
  {
    if |checks| == 0 then [] else
      var c := checks[|checks| - 1];
      ChecksOf(checks[..|checks| - 1], es) + (if c.endpoint in es then [c] else [])
  }

  lemma {:induction false} ChecksOfIncreasing(checks: seq<CheckRow>, es: set<nat>)
    requires forall i, j | 0 <= i < j < |checks| :: checks[i].id < checks[j].id
    ensures forall i, j | 0 <= i < j < |ChecksOf(checks, es)| :: ChecksOf(checks, es)[i].id < ChecksOf(checks, es)[j].id
  {
    if |checks| > 0 {
      var front := checks[..|checks| - 1];
      ChecksOfIncreasing(front, es);
      var r := ChecksOf(front, es);
      forall i | 0 <= i < |r|
        ensures r[i].id < checks[|checks| - 1].id
      {
        assert r[i] in front;
      }
      assert ChecksOf(checks, es) == r || ChecksOf(checks, es) == r + [checks[|checks| - 1]];
    }
  }

  lemma {:induction false} ChecksOfAll(checks: seq<CheckRow>, es: set<nat>)
    requires forall c | c in checks :: c.endpoint in es
    ensures ChecksOf(checks, es) == checks
  {
    if |checks| > 0 {
      assert checks[|checks| - 1] in checks;
      ChecksOfAll(checks[..|checks| - 1], es);
      assert checks == checks[..|checks| - 1] + [checks[|checks| - 1]];
    }
  }

  lemma {:induction false} ChecksOfConcat(a: seq<CheckRow>, b: seq<CheckRow>, es: set<nat>)
    ensures ChecksOf(a + b, es) == ChecksOf(a, es) + ChecksOf(b, es)
  {
    if |b| == 0 {
      assert a + b == a;
    } else {
      var front := b[..|b| - 1];
      ChecksOfConcat(a, front, es);
      assert (a + b)[..|a + b| - 1] == a + front;
    }
  }

  /** Two successive filters with shrinking endpoint sets amount to the last one. */
  lemma {:induction false} ChecksOfTwice(checks: seq<CheckRow>, es: set<nat>, fs: set<nat>)
    requires fs <= es
    ensures ChecksOf(ChecksOf(checks, es), fs) == ChecksOf(checks, fs)
  {
    if |checks| > 0 {
      var c := checks[|checks| - 1];
      var front := ChecksOf(checks[..|checks| - 1], es);
      ChecksOfTwice(checks[..|checks| - 1], es, fs);
      ChecksOfConcat(front, [c], fs);
      assert ChecksOf([c], fs) == (if c.endpoint in fs then [c] else []) by {
        assert [c][..0] == [];
      }
      assert front + [] == front;
    }
  }

  /** The rows a cleanup with the given cutoff keeps. */
  function Younger(rows: seq<CheckRow>, cutoff: int): (r: seq<CheckRow>)
    ensures forall c :: c in r <==> c in rows && c.at >= cutoff
  {
    if rows == [] then [] else
      var c := rows[|rows| - 1];
      Younger(rows[..|rows| - 1], cutoff) + (if c.at >= cutoff then [c] else [])
  }

  /** The rows left when those with the given ids are deleted. */
  function Without(rows: seq<CheckRow>, gone: set<nat>): (r: seq<CheckRow>)
    ensures forall c :: c in r <==> c in rows && c.id !in gone
    ensures |r| <= |rows|
  {
    if |rows| == 0 then [] else
      var c := rows[|rows| - 1];
      Without(rows[..|rows| - 1], gone) + (if c.id in gone then [] else [c])
  }

  lemma {:induction false} WithoutIncreasing(rows: seq<CheckRow>, gone: set<nat>)
    requires forall i, j | 0 <= i < j < |rows| :: rows[i].id < rows[j].id
    ensures forall i, j | 0 <= i < j < |Without(rows, gone)| :: Without(rows, gone)[i].id < Without(rows, gone)[j].id
  {
    if rows != [] {
      var c, front := rows[|rows| - 1], rows[..|rows| - 1];
      WithoutIncreasing(front, gone);
      var r := Without(front, gone);
      forall i | 0 <= i < |r|
        ensures r[i].id < c.id
      {
        assert r[i] in front;
      }
      assert Without(rows, gone) == r || Without(rows, gone) == r + [c];
    }
  }

  /** Endpoint rows shrink to `kept`; ON DELETE CASCADE drops the links and checks of the others. */
  function KeepEndpoints(t: Tables, kept: EndpointTable): Tables {
    t.(endpoints := kept,
       links := (set l | l in t.links && l.0 in kept.rows),
       checks := ChecksOf(t.checks, kept.rows.Keys))
  }

  function KeepNotifiers(t: Tables, kept: NotifierTable): Tables {
    t.(notifiers := kept, links := (set l | l in t.links && l.1 in kept.rows))
  }

  ghost predicate Within<F, M>(kept: Table<F, M>, tb: Table<F, M>) {
    kept.next == tb.next && forall id | id in kept.rows :: id in tb.rows && kept.rows[id] == tb.rows[id]
  }

  lemma WithinSound<F, M>(kept: Table<F, M>, tb: Table<F, M>)
    requires Sound(tb) && Within(kept, tb)
    ensures Sound(kept)
  {
    forall i, j, u | HasUid(kept, i, u) && HasUid(kept, j, u)
      ensures i == j
    {
      assert HasUid(tb, i, u) && HasUid(tb, j, u);
    }
  }

  lemma KeepEndpointsInv(t: Tables, kept: EndpointTable)
    requires Inv(t) && Within(kept, t.endpoints)
    ensures Inv(KeepEndpoints(t, kept))
  {
    var t' := KeepEndpoints(t, kept);
    WithinSound(kept, t.endpoints);
    ChecksOfIncreasing(t.checks, kept.rows.Keys);
    assert t'.checks == ChecksOf(t.checks, kept.rows.Keys);
    forall i | 0 <= i < |t'.checks|
      ensures t'.checks[i].endpoint in t'.endpoints.rows && t'.checks[i].id < t'.nextCheck
    {
      assert t'.checks[i] in t.checks;
    }
  }

  lemma KeepNotifiersInv(t: Tables, kept: NotifierTable)
    requires Inv(t) && Within(kept, t.notifiers)
    ensures Inv(KeepNotifiers(t, kept))
  {
    WithinSound(kept, t.notifiers);
  }

  /** The endpoints a fresh start monitors: WHERE paused = 0. */
  function ActiveIds(t: Tables): set<nat> {
    set e | e in t.endpoints.rows && !t.endpoints.rows[e].meta.paused
  }

  // ---- Readings of the link table ----

  ghost function LinkedTo(t: Tables, e: nat): set<nat> {
    set l | l in t.links && l.0 == e :: l.1
  }

  /** The uids of the managed notifiers an endpoint is linked to. */
  ghost function LinkedUids(t: Tables, e: nat): (us: set<string>)
    ensures forall v :: v in us <==> exists n :: (e, n) in t.links && HasUid(t.notifiers, n, v)
  {
    var us := set l | l in t.links && l.0 == e && l.1 in t.notifiers.rows && t.notifiers.rows[l.1].uid.Some?
      :: t.notifiers.rows[l.1].uid.value;
    assert forall n, v | (e, n) in t.links && HasUid(t.notifiers, n, v) :: v in us by {
      forall n, v | (e, n) in t.links && HasUid(t.notifiers, n, v)
        ensures v in us
      {
        assert (e, n).1 == n;
      }
    }
    assert forall v | v in us :: exists n :: (e, n) in t.links && HasUid(t.notifiers, n, v) by {
      forall v | v in us
        ensures exists n :: (e, n) in t.links && HasUid(t.notifiers, n, v)
      {
        var l :| l in t.links && l.0 == e && HasUid(t.notifiers, l.1, v);
        assert (e, l.1) == l;
      }
    }
    us
  }
}
