/** What a committed sync guarantees, whatever the iteration order, the id gaps and the clock were. */
module SyncLaws {
  import opened Common
  import opened ManagedTable
  import opened Store
  import opened Configuration
  import opened Sync

  // ---- The configuration as a store shows it ----

  /** Managed notifiers and endpoints by uid, and for each endpoint the uids of its managed notifiers. */
  datatype Shown = Shown(
    notifiers: map<string, NotifierFields>,
    endpoints: map<string, EndpointFields>,
    wiring: map<string, set<string>>)

  ghost function ConfigView(t: Tables): Shown
    requires Inv(t)
  {
    Shown(View(t.notifiers), View(t.endpoints), map u | u in Uids(t.endpoints) :: LinkedUids(t, IdOf(t.endpoints, u)))
  }

  /** What a configuration asks a store to show; a reference to an undefined notifier cannot survive. */
  ghost function Requested(rt: Runtime, cfg: Config): Shown {
    Shown(WantedNotifiers(rt, cfg), WantedEndpoints(cfg), map u | u in cfg.endpoints :: References(cfg, u))
  }

  ghost function References(cfg: Config, u: string): set<string>
    requires u in cfg.endpoints
  {
    set v | v in cfg.endpoints[u].notifiers && v in cfg.notifiers
  }

  ghost predicate SameRows(a: Tables, b: Tables) {
    && a.endpoints.rows == b.endpoints.rows
    && a.notifiers.rows == b.notifiers.rows
    && a.links == b.links
    && a.checks == b.checks
    && a.nextCheck == b.nextCheck
  }

  // ---- The invariant ----

  lemma SyncKeepsInv(rt: Runtime, cfg: Config, before: Tables, after: Tables)
    requires Inv(before) && Synced(rt, cfg, before, after)
    ensures Inv(after)
  {
    forall e | Managed(after.endpoints, e)
      ensures !after.endpoints.rows[e].meta.paused
    {
      if e in before.endpoints.rows {
        EarlierRow(before.endpoints, WantedEndpoints(cfg), after.endpoints, e);
      }
    }
    ChecksOfIncreasing(before.checks, after.endpoints.rows.Keys);
    forall i | 0 <= i < |after.checks|
      ensures after.checks[i].endpoint in after.endpoints.rows && after.checks[i].id < after.nextCheck
    {
      assert after.checks[i] in ChecksOf(before.checks, after.endpoints.rows.Keys);
    }
  }

  /** A row present before and after keeps everything but, when managed, its overwritten columns. */
  lemma EarlierRow<F, M>(before: Table<F, M>, want: map<string, F>, after: Table<F, M>, id: nat)
    requires Sound(before) && Reconciled(before, want, after) && id in before.rows && id in after.rows
    ensures after.rows[id].uid == before.rows[id].uid && after.rows[id].source == before.rows[id].source
    ensures after.rows[id].meta == before.rows[id].meta
    ensures before.rows[id].uid.None? ==> after.rows[id] == before.rows[id]
    ensures before.rows[id].uid.Some? ==>
              before.rows[id].uid.value in want && after.rows[id].fields == want[before.rows[id].uid.value]
  {
    if before.rows[id].uid.Some? {
      assert HasUid(before, id, before.rows[id].uid.value);
    }
  }

  lemma UidsPersist<F, M>(before: Table<F, M>, want: map<string, F>, after: Table<F, M>, id: nat, u: string)
    requires Sound(before) && Reconciled(before, want, after)
    ensures HasUid(after, id, u) && id in before.rows ==> HasUid(before, id, u)
  {
    if id in before.rows && id in after.rows {
      EarlierRow(before, want, after, id);
    }
  }

  // ---- Exactness ----

  /** The store shows exactly the configuration: nothing missing, nothing extra, nothing stale. */
  lemma SyncIsExact(rt: Runtime, cfg: Config, before: Tables, after: Tables)
    requires Inv(before) && Synced(rt, cfg, before, after)
    ensures Inv(after) && ConfigView(after) == Requested(rt, cfg)
  {
    SyncKeepsInv(rt, cfg, before, after);
    ReconciledView(before.notifiers, WantedNotifiers(rt, cfg), after.notifiers);
    ReconciledView(before.endpoints, WantedEndpoints(cfg), after.endpoints);
    assert forall u :: u in Uids(after.endpoints) <==> u in View(after.endpoints);
    forall u | u in cfg.endpoints
      ensures u in Uids(after.endpoints) && LinkedUids(after, IdOf(after.endpoints, u)) == References(cfg, u)
    {
      assert u in View(after.endpoints);
      WiringIsExact(rt, cfg, before, after, u);
    }
    SameMap(ConfigView(after).wiring, Requested(rt, cfg).wiring);
  }

  lemma WiringIsExact(rt: Runtime, cfg: Config, before: Tables, after: Tables, u: string)
    requires Inv(after) && Synced(rt, cfg, before, after) && u in cfg.endpoints && Knows(after.endpoints, u)
    requires View(after.notifiers) == WantedNotifiers(rt, cfg)
    ensures LinkedUids(after, IdOf(after.endpoints, u)) == References(cfg, u)
  {
    var e := IdOf(after.endpoints, u);
    forall v | v in References(cfg, u)
      ensures v in LinkedUids(after, e)
    {
      assert v in View(after.notifiers);
      var n := IdOf(after.notifiers, v);
      assert Linked(cfg, after.endpoints, after.notifiers, e, n);
      assert (e, n) in after.links && HasUid(after.notifiers, n, v);
    }
    forall v | v in LinkedUids(after, e)
      ensures v in References(cfg, u)
    {
      var n :| (e, n) in after.links && HasUid(after.notifiers, n, v);
      assert v in View(after.notifiers);
    }
  }

  /** A synced row holds its configured entry, column by column. */
  lemma SyncedColumns(rt: Runtime, cfg: Config, before: Tables, after: Tables, id: nat, u: string)
    requires Inv(before) && Synced(rt, cfg, before, after)
    ensures HasUid(after.endpoints, id, u) ==>
              && u in cfg.endpoints && after.endpoints.rows[id].source == FromConfig
              && var f, c := after.endpoints.rows[id].fields, cfg.endpoints[u];
                 f.name == c.name && f.kind == c.kind && f.url == c.url && f.interval == c.interval
                 && f.threshold == c.threshold
    ensures HasUid(after.notifiers, id, u) ==>
              && u in cfg.notifiers && after.notifiers.rows[id].source == FromConfig
              && var f, c := after.notifiers.rows[id].fields, cfg.notifiers[u];
                 f.name == c.name && f.kind == c.kind
                 && (Marshalable(rt, cfg) ==> rt.marshal(c.block) == Some(f.json))
  {
    SyncKeepsInv(rt, cfg, before, after);
    ReconciledView(before.notifiers, WantedNotifiers(rt, cfg), after.notifiers);
    ReconciledView(before.endpoints, WantedEndpoints(cfg), after.endpoints);
    assert HasUid(after.endpoints, id, u) ==> u in View(after.endpoints);
    assert HasUid(after.notifiers, id, u) ==> u in View(after.notifiers);
  }

  /** Whatever was synced before, the store shows only the last configuration. */
  lemma SyncForgetsHistory(rt: Runtime, c1: Config, c2: Config, t0: Tables, t1: Tables, t2: Tables, alone: Tables)
    requires Inv(t0) && Synced(rt, c1, t0, t1) && Synced(rt, c2, t1, t2) && Synced(rt, c2, t0, alone)
    ensures Inv(t2) && Inv(alone) && ConfigView(t2) == ConfigView(alone)
  {
    SyncKeepsInv(rt, c1, t0, t1);
    SyncIsExact(rt, c2, t1, t2);
    SyncIsExact(rt, c2, t0, alone);
  }

  // ---- Idempotence and fixed points ----

  /** A store that already shows what the configuration requests comes out of a sync row for row the same. */
  lemma ShownIsFixed(rt: Runtime, cfg: Config, t: Tables, t': Tables)
    requires Inv(t) && ConfigView(t) == Requested(rt, cfg) && Synced(rt, cfg, t, t')
    ensures SameRows(t, t')
  {
    SettledIsFixed(t.notifiers, WantedNotifiers(rt, cfg), t'.notifiers);
    SettledIsFixed(t.endpoints, WantedEndpoints(cfg), t'.endpoints);
    ChecksOfAll(t.checks, t.endpoints.rows.Keys);
    forall e: nat, n: nat
      ensures (e, n) in t'.links <==> (e, n) in t.links
    {
      ShownLinkIsFixed(rt, cfg, t, t', e, n);
    }
    SamePairs(t'.links, t.links);
  }

  lemma ShownLinkIsFixed(rt: Runtime, cfg: Config, t: Tables, t': Tables, e: nat, n: nat)
    requires Inv(t) && ConfigView(t) == Requested(rt, cfg) && Synced(rt, cfg, t, t')
    requires t'.endpoints.rows == t.endpoints.rows && t'.notifiers.rows == t.notifiers.rows
    ensures (e, n) in t'.links <==> (e, n) in t.links
  {
    if Managed(t.endpoints, e) && n in t.notifiers.rows {
      var u := t.endpoints.rows[e].uid.value;
      assert HasUid(t.endpoints, e, u);
      assert u in Uids(t.endpoints) && IdOf(t.endpoints, u) == e;
      assert LinkedUids(t, e) == ConfigView(t).wiring[u] == References(cfg, u);
      if t.notifiers.rows[n].uid.Some? {
        var v := t.notifiers.rows[n].uid.value;
        assert HasUid(t.notifiers, n, v) && v in View(t.notifiers);
        assert v in LinkedUids(t, e) <==> (e, n) in t.links;
      }
    }
  }

  lemma SamePairs(a: set<(nat, nat)>, b: set<(nat, nat)>)
    requires forall e: nat, n: nat :: (e, n) in a <==> (e, n) in b
    ensures a == b
  {
    assert forall l | l in a + b :: l == (l.0, l.1);
  }

  // ---- Stores that agree on what is managed ----

  ghost predicate ManagedSame(t: Tables, t': Tables) {
    && ManagedRowsSame(t.endpoints, t'.endpoints)
    && ManagedRowsSame(t.notifiers, t'.notifiers)
    && forall e: nat, n: nat | Managed(t.endpoints, e) :: (e, n) in t'.links <==> (e, n) in t.links
  }

  lemma SameManagedSameLinked(t: Tables, t': Tables, e: nat)
    requires Inv(t) && Inv(t') && ManagedSame(t, t') && Managed(t.endpoints, e)
    ensures LinkedUids(t', e) == LinkedUids(t, e)
  {
    forall n, v
      ensures HasUid(t.notifiers, n, v) <==> HasUid(t'.notifiers, n, v)
    {
      SameManagedSameUid(t.notifiers, t'.notifiers, n, v);
    }
    assert forall v :: v in LinkedUids(t, e) <==> v in LinkedUids(t', e);
  }

  lemma SameManagedSameView(t: Tables, t': Tables)
    requires Inv(t) && Inv(t') && ManagedSame(t, t')
    ensures ConfigView(t') == ConfigView(t)
  {
    SameManagedSameRead(t.endpoints, t'.endpoints);
    SameManagedSameRead(t.notifiers, t'.notifiers);
    SameManagedSameUids(t.endpoints, t'.endpoints);
    forall u | u in Uids(t.endpoints)
      ensures LinkedUids(t', IdOf(t'.endpoints, u)) == LinkedUids(t, IdOf(t.endpoints, u))
    {
      SameManagedSameId(t.endpoints, t'.endpoints, u);
      assert HasUid(t.endpoints, IdOf(t.endpoints, u), u);
      SameManagedSameLinked(t, t', IdOf(t.endpoints, u));
    }
    SameMap(ConfigView(t').wiring, ConfigView(t).wiring);
  }

  /** A committed sync leaves rows, links and checks alone exactly when the store already shows what is requested. */
  lemma ShownIffFixed(rt: Runtime, cfg: Config, t: Tables, t': Tables)
    requires Inv(t) && Synced(rt, cfg, t, t')
    ensures SameRows(t, t') <==> ConfigView(t) == Requested(rt, cfg)
  {
    if ConfigView(t) == Requested(rt, cfg) {
      ShownIsFixed(rt, cfg, t, t');
    }
    if SameRows(t, t') {
      SyncIsExact(rt, cfg, t, t');
      SameRowsSameView(t, t');
    }
  }

  lemma SameRowsSameView(t: Tables, t': Tables)
    requires Inv(t) && Inv(t') && SameRows(t, t')
    ensures ConfigView(t') == ConfigView(t)
  {
    SameManagedSameView(t, t');
  }

  /** Syncing the same configuration again is the identity on rows, links and checks. */
  lemma SyncTwice(rt: Runtime, cfg: Config, t0: Tables, t1: Tables, t2: Tables)
    requires Inv(t0) && Synced(rt, cfg, t0, t1) && Synced(rt, cfg, t1, t2)
    ensures SameRows(t1, t2)
  {
    SyncIsExact(rt, cfg, t0, t1);
    ShownIsFixed(rt, cfg, t1, t2);
  }

  /** For a closed configuration, which `validate` guarantees, the store has no say in whether sync commits. */
  lemma ClosedCommits(rt: Runtime, cfg: Config, t: Tables)
    requires Closed(cfg)
    ensures Committable(rt, cfg, t) <==> Marshalable(rt, cfg) && RepeatFree(cfg)
  {
  }

  /** So for a validated configuration only unmarshalable blocks and repeated notifiers can stop the sync. */
  lemma ValidCommitsIff(rt: Runtime, cfg: Config, t: Tables)
    requires Valid(cfg)
    ensures Committable(rt, cfg, t) <==> Marshalable(rt, cfg) && RepeatFree(cfg)
  {
    forall u, v | u in cfg.endpoints && v in cfg.endpoints[u].notifiers
      ensures v in cfg.notifiers
    {
      assert EndpointOk(u, cfg.endpoints[u], cfg.notifiers.Keys);
    }
    ClosedCommits(rt, cfg, t);
  }

  /** `validate` accepts a list that names a notifier twice, and no store lets the sync of it commit. */
  lemma ValidButNotCommittable(rt: Runtime, block: Block, t: Tables)
    ensures var cfg := Config(map["n" := NotifierConfig("N", "redis", block)],
                              map["e" := EndpointConfig("E", "http", "http://e", 60, 3, ["n", "n"])]);
            Valid(cfg) && !Committable(rt, cfg, t)
  {
    var cfg := Config(map["n" := NotifierConfig("N", "redis", block)],
                      map["e" := EndpointConfig("E", "http", "http://e", 60, 3, ["n", "n"])]);
    assert UidText("n") && UidText("e");
    var list := cfg.endpoints["e"].notifiers;
    assert list[0] == list[1] && !NoRepeats(list);
  }

  /** A configuration that is not closed commits while an earlier sync's notifier is still there. */
  lemma OpenButCommittable(rt: Runtime, f: NotifierFields, meta: NotifierMeta)
    ensures var cfg := Config(map[], map["e" := EndpointConfig("E", "http", "http://e", 60, 3, ["n"])]);
            var t := EMPTY.(notifiers := Table(map[1 := Row(Some("n"), FromConfig, f, meta)], 2));
            Inv(t) && !Closed(cfg) && Committable(rt, cfg, t)
  {
    var cfg := Config(map[], map["e" := EndpointConfig("E", "http", "http://e", 60, 3, ["n"])]);
    var t := EMPTY.(notifiers := Table(map[1 := Row(Some("n"), FromConfig, f, meta)], 2));
    var list := cfg.endpoints["e"].notifiers;
    assert list == ["n"];
    assert HasUid(t.notifiers, 1, "n");
    assert Knows(t.notifiers, "n");
    assert forall v | v in list :: v == "n";
    assert RepeatFree(cfg);
    assert "n" in list && !Closed(cfg);
    assert Inv(t);
  }

  /** After a sync committed, syncing again commits exactly when the configuration is closed. */
  lemma RetryCommitsIffClosed(rt: Runtime, cfg: Config, t0: Tables, t1: Tables)
    requires Inv(t0) && Committable(rt, cfg, t0) && Synced(rt, cfg, t0, t1)
    ensures Committable(rt, cfg, t1) <==> Closed(cfg)
  {
    SyncIsExact(rt, cfg, t0, t1);
    assert forall v :: Knows(t1.notifiers, v) <==> v in View(t1.notifiers);
  }

  // ---- What a sync leaves alone ----

  /** UI rows are untouched; a UI endpoint loses exactly its links to managed notifiers no longer configured. */
  lemma UiItemsAreSafe(rt: Runtime, cfg: Config, before: Tables, after: Tables, id: nat)
    requires Inv(before) && Synced(rt, cfg, before, after)
    ensures id in before.notifiers.rows && !Managed(before.notifiers, id) ==>
              id in after.notifiers.rows && after.notifiers.rows[id] == before.notifiers.rows[id]
    ensures id in before.endpoints.rows && !Managed(before.endpoints, id) ==>
              && id in after.endpoints.rows && after.endpoints.rows[id] == before.endpoints.rows[id]
              && ChecksOf(after.checks, {id}) == ChecksOf(before.checks, {id})
              && forall n: nat :: (id, n) in after.links <==>
                   (id, n) in before.links &&
                       (Managed(before.notifiers, n) ==> before.notifiers.rows[n].uid.value in cfg.notifiers)
  {
    if id in before.endpoints.rows && !Managed(before.endpoints, id) {
      ChecksOfTwice(before.checks, after.endpoints.rows.Keys, {id});
      forall n: nat | (id, n) in before.links
        ensures n in after.notifiers.rows <==>
                  (Managed(before.notifiers, n) ==> before.notifiers.rows[n].uid.value in cfg.notifiers)
      {
        if Managed(before.notifiers, n) {
          assert HasUid(before.notifiers, n, before.notifiers.rows[n].uid.value);
        }
      }
    }
  }

  /** A managed endpoint that stays in the configuration keeps its id, its pause state, its age and its history. */
  lemma SurvivorsKeepHistory(rt: Runtime, cfg: Config, before: Tables, after: Tables, e: nat, u: string)
    requires Inv(before) && Synced(rt, cfg, before, after) && HasUid(before.endpoints, e, u)
    ensures u in cfg.endpoints ==>
              && HasUid(after.endpoints, e, u)
              && after.endpoints.rows[e].meta == before.endpoints.rows[e].meta
              && ChecksOf(after.checks, {e}) == ChecksOf(before.checks, {e})
    ensures u !in cfg.endpoints ==> e !in after.endpoints.rows && forall c | c in after.checks :: c.endpoint != e
  {
    if u in cfg.endpoints {
      ChecksOfTwice(before.checks, after.endpoints.rows.Keys, {e});
    } else {
      assert forall c | c in after.checks :: c in ChecksOf(before.checks, after.endpoints.rows.Keys);
    }
  }
}
