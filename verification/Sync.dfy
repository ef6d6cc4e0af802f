/** `SyncConfig` (internal/db/sync.go): one transaction that reconciles the store with the configuration. */
module Sync {
  import opened Common
  import opened ManagedTable
  import opened Store
  import opened Configuration

  datatype SyncError = IoError | MarshalError(uid: string) | UnknownNotifierUid(uid: string, notifier: string)
    | RepeatedNotifier(uid: string, notifier: string)

  // ---- What the configuration asks for ----

  predicate Marshalable(rt: Runtime, cfg: Config) {
    forall u | u in cfg.notifiers :: rt.marshal(cfg.notifiers[u].block).Some?
  }

  function NotifierFieldsOf(rt: Runtime, nc: NotifierConfig): NotifierFields {
    var json := rt.marshal(nc.block);
    NotifierFields(nc.name, nc.kind, if json.Some? then json.value else "")
  }

  function WantedNotifiers(rt: Runtime, cfg: Config): map<string, NotifierFields> {
    map u | u in cfg.notifiers :: NotifierFieldsOf(rt, cfg.notifiers[u])
  }

  function WantedEndpoints(cfg: Config): map<string, EndpointFields> {
    map u | u in cfg.endpoints :: FieldsOf(cfg.endpoints[u])
  }

  /** Every listed notifier is defined in the configuration. */
  predicate Closed(cfg: Config) {
    forall u | u in cfg.endpoints :: forall v | v in cfg.endpoints[u].notifiers :: v in cfg.notifiers
  }

  ghost predicate RepeatFree(cfg: Config) {
    forall u | u in cfg.endpoints :: NoRepeats(cfg.endpoints[u].notifiers)
  }

  /** Exactly the condition under which the transaction commits. */
  ghost predicate Committable(rt: Runtime, cfg: Config, t: Tables) {
    && Marshalable(rt, cfg)
    && RepeatFree(cfg)
    && forall u | u in cfg.endpoints ::
        forall v | v in cfg.endpoints[u].notifiers :: v in cfg.notifiers || Knows(t.notifiers, v)
  }

  /** Endpoint `e` and notifier `n` carry uids that the configuration links. */
  predicate Linked(cfg: Config, es: EndpointTable, ns: NotifierTable, e: nat, n: nat) {
    && e in es.rows && es.rows[e].uid.Some? && es.rows[e].uid.value in cfg.endpoints
    && n in ns.rows && ns.rows[n].uid.Some?
    && ns.rows[n].uid.value in cfg.endpoints[es.rows[e].uid.value].notifiers
  }

  /**
   The store after a committed sync, as a relation between the old and the new store: both tables are
   reconciled, managed endpoints are linked as the configuration says, UI endpoints lose only links to
   notifiers that are gone, and checks survive with their endpoint.
   */
  ghost predicate Synced(rt: Runtime, cfg: Config, before: Tables, after: Tables) {
    && Reconciled(before.notifiers, WantedNotifiers(rt, cfg), after.notifiers)
    && Reconciled(before.endpoints, WantedEndpoints(cfg), after.endpoints)
    && (forall e | e in after.endpoints.rows && e !in before.endpoints.rows :: !after.endpoints.rows[e].meta.paused)
    && (forall e: nat, n: nat :: (e, n) in after.links <==>
          && e in after.endpoints.rows && n in after.notifiers.rows
          && if Managed(after.endpoints, e) then Linked(cfg, after.endpoints, after.notifiers, e, n)
             else (e, n) in before.links)
    && after.checks == ChecksOf(before.checks, after.endpoints.rows.Keys)
    && after.nextCheck == before.nextCheck
  }

  /** The error names a real fault of the configuration; `tb` are the notifiers stored before. */
  ghost predicate Explains(rt: Runtime, cfg: Config, tb: NotifierTable, err: SyncError) {
    match err
    case IoError => true
    case MarshalError(u) => u in cfg.notifiers && rt.marshal(cfg.notifiers[u].block) == None
    case UnknownNotifierUid(u, v) =>
      u in cfg.endpoints && v in cfg.endpoints[u].notifiers && v !in cfg.notifiers && !Knows(tb, v)
    case RepeatedNotifier(u, v) => u in cfg.endpoints && multiset(cfg.endpoints[u].notifiers)[v] > 1
  }

  // ---- The transaction, phase by phase ----

  /** 1. Process notifiers. */
  method UpsertNotifiers(rt: Runtime, cfg: Config, tb: NotifierTable, reliable: bool)
    returns (err: Option<SyncError>, r: NotifierTable)
    requires Sound(tb)
    ensures err.None? ==> Marshalable(rt, cfg) && Upserted(tb, WantedNotifiers(rt, cfg), cfg.notifiers.Keys, r)
    ensures reliable && Marshalable(rt, cfg) ==> err.None?
    ensures err.Some? ==> err.value.IoError? || (err.value.MarshalError? && Explains(rt, cfg, tb, err.value))
    ensures reliable ==> err != Some(IoError)
  {
    r := tb;
    var todo := cfg.notifiers.Keys;
    ghost var want := WantedNotifiers(rt, cfg);
    while todo != {}
      invariant todo <= cfg.notifiers.Keys
      invariant forall u | u in cfg.notifiers.Keys - todo :: rt.marshal(cfg.notifiers[u].block).Some?
      invariant Upserted(tb, want, cfg.notifiers.Keys - todo, r)
      decreases |todo|
    {
      var u :| u in todo;
      var nc := cfg.notifiers[u];
      var json := rt.marshal(nc.block);
      if json.None? { return Some(MarshalError(u)), r; }
      if * { if !reliable { return Some(IoError), r; } }
      var now: int := *;
      var r', id := Upsert(r, u, NotifierFields(nc.name, nc.kind, json.value), NotifierMeta(now));
      UpsertStep(tb, want, cfg.notifiers.Keys - todo, r, u, NotifierMeta(now), r', id);
      r := r';
      StrikeOff(cfg.notifiers.Keys, todo, u);
      todo := todo - {u};
    }
    assert cfg.notifiers.Keys - todo == cfg.notifiers.Keys;
    return None, r;
  }

  /** 2. Process endpoints: a new row starts unpaused, an existing one keeps its `paused` column. */
  method UpsertEndpoints(cfg: Config, tb: EndpointTable, reliable: bool)
    returns (err: Option<SyncError>, r: EndpointTable)
    requires Sound(tb)
    ensures err.None? ==> Upserted(tb, WantedEndpoints(cfg), cfg.endpoints.Keys, r)
    ensures err.None? ==> forall e | e in r.rows && e !in tb.rows :: !r.rows[e].meta.paused
    ensures err.Some? ==> err == Some(IoError) && !reliable
  {
    r := tb;
    var todo := cfg.endpoints.Keys;
    ghost var want := WantedEndpoints(cfg);
    while todo != {}
      invariant todo <= cfg.endpoints.Keys
      invariant Upserted(tb, want, cfg.endpoints.Keys - todo, r)
      invariant forall e | e in r.rows && e !in tb.rows :: !r.rows[e].meta.paused
      decreases |todo|
    {
      var u :| u in todo;
      if * { if !reliable { return Some(IoError), r; } }
      var now: int := *;
      var r', id := Upsert(r, u, FieldsOf(cfg.endpoints[u]), EndpointMeta(false, now));
      UpsertStep(tb, want, cfg.endpoints.Keys - todo, r, u, EndpointMeta(false, now), r', id);
      r := r';
      StrikeOff(cfg.endpoints.Keys, todo, u);
      todo := todo - {u};
    }
    assert cfg.endpoints.Keys - todo == cfg.endpoints.Keys;
    return None, r;
  }

  /** The links once the endpoints with uids in `done` have been rewired. */
  ghost predicate Rewired(cfg: Config, es: EndpointTable, ns: NotifierTable, before: set<(nat, nat)>,
                          done: set<string>, now: set<(nat, nat)>) {
    forall e: nat, n: nat :: (e, n) in now <==>
      if e in es.rows && es.rows[e].uid.Some? && es.rows[e].uid.value in done then Linked(cfg, es, ns, e, n)
      else (e, n) in before
  }

  /** 3. For one endpoint: clear its links, then insert one per listed notifier. */
  method RelinkOne(cfg: Config, es: EndpointTable, ns: NotifierTable, links: set<(nat, nat)>, u: string, reliable: bool)
    returns (err: Option<SyncError>, r: set<(nat, nat)>)
    requires Sound(es) && Sound(ns) && u in cfg.endpoints && Knows(es, u)
    ensures var wanted := cfg.endpoints[u].notifiers;
            && (err.None? ==> NoRepeats(wanted) && forall v | v in wanted :: Knows(ns, v))
            && (reliable && NoRepeats(wanted) && (forall v | v in wanted :: Knows(ns, v)) ==> err.None?)
    ensures err.Some? ==> match err.value
              case IoError => !reliable
              case UnknownNotifierUid(w, v) => w == u && v in cfg.endpoints[u].notifiers && !Knows(ns, v)
              case RepeatedNotifier(w, v) => w == u && multiset(cfg.endpoints[u].notifiers)[v] > 1
              case _ => false
    ensures err.None? ==> forall e: nat, n: nat :: (e, n) in r <==>
              if HasUid(es, e, u) then Linked(cfg, es, ns, e, n) else (e, n) in links
  {
    r := links;
    if * { if !reliable { return Some(IoError), r; } }
    ghost var the := IdOf(es, u);
    assert HasUid(es, the, u);
    var endpoint :| endpoint in es.rows && HasUid(es, endpoint, u) && es.rows[endpoint].source == FromConfig;
    r := set l | l in links && l.0 != endpoint;
    var wanted := cfg.endpoints[u].notifiers;
    for i := 0 to |wanted|
      invariant forall j | 0 <= j < i :: Knows(ns, wanted[j])
      invariant NoRepeats(wanted[..i])
      invariant forall e: nat, n: nat :: (e, n) in r <==>
          if e == endpoint then n in ns.rows && ns.rows[n].uid.Some? && ns.rows[n].uid.value in wanted[..i]
          else (e, n) in links
    {
      if * { if !reliable { return Some(IoError), r; } }
      var v := wanted[i];
      if notifier: nat :| notifier in ns.rows && HasUid(ns, notifier, v) && ns.rows[notifier].source == FromConfig {
        if (endpoint, notifier) in r {
          assert v in wanted[..i];
          ListedAgain(wanted, i);
          return Some(RepeatedNotifier(u, v)), r;
        }
        forall n: nat | n in ns.rows && ns.rows[n].uid == Some(v)
          ensures n == notifier
        {
          assert HasUid(ns, n, v);
        }
        assert v !in wanted[..i];
        assert wanted[..i + 1] == wanted[..i] + [v];
        r := r + {(endpoint, notifier)};
      } else {
        assert !Knows(ns, v);
        return Some(UnknownNotifierUid(u, v)), r;
      }
    }
    assert wanted[..|wanted|] == wanted;
    return None, r;
  }

  lemma ListedAgain(list: seq<string>, i: nat)
    requires i < |list| && list[i] in list[..i]
    ensures multiset(list)[list[i]] > 1
  {
    assert list == list[..i] + [list[i]] + list[i + 1..];
  }

  /** 3. Sync the connections of every configured endpoint, in any order. */
  method Relink(cfg: Config, es: EndpointTable, ns: NotifierTable, links: set<(nat, nat)>, reliable: bool)
    returns (err: Option<SyncError>, r: set<(nat, nat)>)
    requires Sound(es) && Sound(ns) && forall u | u in cfg.endpoints :: Knows(es, u)
    ensures err.None? ==> Rewired(cfg, es, ns, links, cfg.endpoints.Keys, r)
    ensures err.Some? ==> match err.value
              case IoError => !reliable
              case UnknownNotifierUid(u, v) =>
                u in cfg.endpoints && v in cfg.endpoints[u].notifiers && !Knows(ns, v)
              case RepeatedNotifier(u, v) => u in cfg.endpoints && multiset(cfg.endpoints[u].notifiers)[v] > 1
              case _ => false
    ensures err.None? ==> RepeatFree(cfg) && forall u | u in cfg.endpoints ::
              forall v | v in cfg.endpoints[u].notifiers :: Knows(ns, v)
    ensures reliable && RepeatFree(cfg) && (forall u | u in cfg.endpoints ::
              forall v | v in cfg.endpoints[u].notifiers :: Knows(ns, v))
            ==> err.None?
  {
    r := links;
    var todo := cfg.endpoints.Keys;
    while todo != {}
      invariant todo <= cfg.endpoints.Keys
      invariant Rewired(cfg, es, ns, links, cfg.endpoints.Keys - todo, r)
      invariant forall u | u in cfg.endpoints.Keys - todo :: NoRepeats(cfg.endpoints[u].notifiers)
      invariant forall u | u in cfg.endpoints.Keys - todo :: forall v | v in cfg.endpoints[u].notifiers :: Knows(ns, v)
      decreases |todo|
    {
      var u :| u in todo;
      var e, r' := RelinkOne(cfg, es, ns, r, u, reliable);
      if e.Some? { return e, r; }
      RewireStep(cfg, es, ns, links, cfg.endpoints.Keys - todo, r, u, r');
      r := r';
      StrikeOff(cfg.endpoints.Keys, todo, u);
      todo := todo - {u};
    }
    assert cfg.endpoints.Keys - todo == cfg.endpoints.Keys;
    return None, r;
  }

  lemma RewireStep(cfg: Config, es: EndpointTable, ns: NotifierTable, links: set<(nat, nat)>,
                   done: set<string>, r: set<(nat, nat)>, u: string, r': set<(nat, nat)>)
    requires u in cfg.endpoints && Rewired(cfg, es, ns, links, done, r)
    requires forall e: nat, n: nat :: (e, n) in r' <==> if HasUid(es, e, u) then Linked(cfg, es, ns, e, n)
              else (e, n) in r
    ensures Rewired(cfg, es, ns, links, done + {u}, r')
  {
  }

  /** The whole transaction works on the private copy `tx`; only the last line makes it visible. */
  method SyncConfig(db: DB, rt: Runtime, cfg: Config, reliable: bool) returns (err: Option<SyncError>)
    requires Inv(db.tables)
    modifies db
    ensures err.None? ==> Committable(rt, cfg, old(db.tables)) && Synced(rt, cfg, old(db.tables), db.tables)
    ensures err.Some? ==> db.tables == old(db.tables) && Explains(rt, cfg, old(db.tables).notifiers, err.value)
    ensures reliable ==> err != Some(IoError)
    ensures reliable ==> (err.None? <==> Committable(rt, cfg, old(db.tables)))
  {
    if * { if !reliable { return Some(IoError); } }
    var tx := db.tables;
    ghost var t0 := tx;
    var e, ns := UpsertNotifiers(rt, cfg, tx.notifiers, reliable);
    if e.Some? { return e; }
    tx := tx.(notifiers := ns);
    var es;
    e, es := UpsertEndpoints(cfg, tx.endpoints, reliable);
    if e.Some? { return e; }
    tx := tx.(endpoints := es);
    UpsertedKnows(t0.notifiers, WantedNotifiers(rt, cfg), ns);
    var links;
    e, links := Relink(cfg, es, ns, tx.links, reliable);
    if e.Some? { return e; }
    tx := tx.(links := links);
    if * { if !reliable { return Some(IoError); } }
    tx := KeepEndpoints(tx, Prune(tx.endpoints, cfg.endpoints.Keys));
    if * { if !reliable { return Some(IoError); } }
    tx := KeepNotifiers(tx, Prune(tx.notifiers, cfg.notifiers.Keys));
    if * { if !reliable { return Some(IoError); } }
    PhasesSync(rt, cfg, t0, ns, es, links);
    db.tables := tx;
    return None;
  }

  lemma UpsertedKnows<F, M>(before: Table<F, M>, want: map<string, F>, now: Table<F, M>)
    requires Upserted(before, want, want.Keys, now)
    ensures forall v :: Knows(now, v) <==> v in want || Knows(before, v)
  {
    forall v
      ensures Knows(now, v) <==> v in want || Knows(before, v)
    {
      if Knows(before, v) {
        assert HasUid(now, IdOf(before, v), v);
      }
      if Knows(now, v) {
        var id := IdOf(now, v);
        assert id in before.rows ==> HasUid(before, id, v);
      }
    }
  }

  lemma PhasesSync(rt: Runtime, cfg: Config, t0: Tables, ns: NotifierTable, es: EndpointTable, links: set<(nat, nat)>)
    requires Inv(t0)
    requires Upserted(t0.notifiers, WantedNotifiers(rt, cfg), cfg.notifiers.Keys, ns)
    requires Upserted(t0.endpoints, WantedEndpoints(cfg), cfg.endpoints.Keys, es)
    requires forall e | e in es.rows && e !in t0.endpoints.rows :: !es.rows[e].meta.paused
    requires Rewired(cfg, es, ns, t0.links, cfg.endpoints.Keys, links)
    ensures Synced(rt, cfg, t0, Pruned(cfg, t0, ns, es, links))
  {
    var after := Pruned(cfg, t0, ns, es, links);
    assert WantedNotifiers(rt, cfg).Keys == cfg.notifiers.Keys && WantedEndpoints(cfg).Keys == cfg.endpoints.Keys;
    PruneReconciles(t0.notifiers, WantedNotifiers(rt, cfg), ns);
    PruneReconciles(t0.endpoints, WantedEndpoints(cfg), es);
    PrunedLinks(cfg, es, ns, t0.links, links);
    PrunedRest(cfg, t0, ns, es, links);
    Assemble(rt, cfg, t0, links, after);
  }

  lemma Assemble(rt: Runtime, cfg: Config, t0: Tables, links: set<(nat, nat)>, after: Tables)
    requires Reconciled(t0.notifiers, WantedNotifiers(rt, cfg), after.notifiers)
    requires Reconciled(t0.endpoints, WantedEndpoints(cfg), after.endpoints)
    requires forall e | e in after.endpoints.rows && e !in t0.endpoints.rows :: !after.endpoints.rows[e].meta.paused
    requires forall e: nat, n: nat :: (e, n) in links && e in after.endpoints.rows && n in after.notifiers.rows <==>
               && e in after.endpoints.rows && n in after.notifiers.rows
               && if Managed(after.endpoints, e) then Linked(cfg, after.endpoints, after.notifiers, e, n)
                   else (e, n) in t0.links
    requires forall e: nat, n: nat ::
              (e, n) in after.links <==> (e, n) in links && e in after.endpoints.rows && n in after.notifiers.rows
    requires after.checks == ChecksOf(t0.checks, after.endpoints.rows.Keys) && after.nextCheck == t0.nextCheck
    ensures Synced(rt, cfg, t0, after)
  {
  }

  function Pruned(cfg: Config, t0: Tables, ns: NotifierTable, es: EndpointTable, links: set<(nat, nat)>): Tables {
    var tx := KeepEndpoints(t0.(notifiers := ns, endpoints := es, links := links), Prune(es, cfg.endpoints.Keys));
    KeepNotifiers(tx, Prune(ns, cfg.notifiers.Keys))
  }

  lemma PrunedRest(cfg: Config, t0: Tables, ns: NotifierTable, es: EndpointTable, links: set<(nat, nat)>)
    ensures var after := Pruned(cfg, t0, ns, es, links);
            && after.endpoints == Prune(es, cfg.endpoints.Keys) && after.notifiers == Prune(ns, cfg.notifiers.Keys)
            && after.checks == ChecksOf(t0.checks, after.endpoints.rows.Keys) && after.nextCheck == t0.nextCheck
            && forall e: nat, n: nat ::
                (e, n) in after.links <==> (e, n) in links && e in after.endpoints.rows && n in after.notifiers.rows
  {
  }

  lemma PrunedLinks(cfg: Config, es: EndpointTable, ns: NotifierTable, before: set<(nat, nat)>, links: set<(nat, nat)>)
    requires Sound(es) && Sound(ns) && Rewired(cfg, es, ns, before, cfg.endpoints.Keys, links)
    ensures var es', ns' := Prune(es, cfg.endpoints.Keys), Prune(ns, cfg.notifiers.Keys);
            forall e: nat, n: nat :: (e, n) in links && e in es'.rows && n in ns'.rows <==>
              && e in es'.rows && n in ns'.rows
              && if Managed(es', e) then Linked(cfg, es', ns', e, n) else (e, n) in before
  {
    var es', ns' := Prune(es, cfg.endpoints.Keys), Prune(ns, cfg.notifiers.Keys);
    forall e: nat, n: nat | e in es'.rows && n in ns'.rows
      ensures (e, n) in links <==> if Managed(es', e) then Linked(cfg, es', ns', e, n) else (e, n) in before
    {
      assert Linked(cfg, es, ns, e, n) == Linked(cfg, es', ns', e, n);
    }
  }
}
