/** Whole lives of a store: committed syncs, ejections, API requests and check traffic in any order. */
module History {
  import opened Common
  import opened ManagedTable
  import opened Store
  import opened Configuration
  import opened Sync
  import opened SyncLaws
  import opened Export
  import opened ExportLaws
  import opened Items
  import opened Server
  import opened Text
  import opened Checks
  import opened Fleet
  import opened Monitoring

  /** What changes the tables; an operation that fails changes nothing and needs no action. */
  datatype Action =
    | Reconcile(rt: Runtime, cfg: Config)
    | Eject
    | Serve(web: Web, req: Request, newId: nat, now: int)
    | Record(cs: seq<Check>)
    | Clean(cutoff: int)

  ghost predicate Acts(t: Tables, a: Action, t': Tables) {
    match a
    case Reconcile(rt, cfg) => Committable(rt, cfg, t) && Synced(rt, cfg, t, t')
    case Eject => t' == Ejected(t)
    case Serve(web, req, newId, now) => FreshId(t, req, newId) && t' == Respond(web, t, req, newId, now).1
    case Record(cs) => Known(t, cs) && Appended(t, cs, t')
    case Clean(cutoff) => Cleaned(t, cutoff, t')
  }

  /** A stretch of a store's life, from any sound store; the empty store is one. */
  ghost predicate IsLife(states: seq<Tables>, actions: seq<Action>) {
    && |states| == |actions| + 1
    && Inv(states[0])
    && forall i | 0 <= i < |actions| :: Happens(states, actions, i)
  }

  ghost predicate Happens(states: seq<Tables>, actions: seq<Action>, i: nat)
    requires |states| == |actions| + 1 && i < |actions|
  {
    Acts(states[i], actions[i], states[i + 1])
  }

  // ---- The invariant holds for life ----

  lemma EmptyIsSound()
    ensures Inv(EMPTY) && Healthy(EMPTY) && KnownKinds(EMPTY)
  {
  }

  lemma ActsKeepsInv(t: Tables, a: Action, t': Tables)
    requires Inv(t) && Acts(t, a, t')
    ensures Inv(t')
  {
    match a
    case Reconcile(rt, cfg) => SyncKeepsInv(rt, cfg, t, t');
    case Eject => EjectionReleases(t);
    case Serve(web, req, newId, now) => RespondKeepsInv(web, t, req, newId, now);
    case Record(cs) => AppendedInv(t, cs, t');
    case Clean(cutoff) => CleanedInv(t, cutoff, t');
  }

  lemma {:induction false} LifeKeepsInv(states: seq<Tables>, actions: seq<Action>, i: nat)
    requires IsLife(states, actions) && i < |states|
    ensures Inv(states[i])
  {
    if i > 0 {
      LifeKeepsInv(states, actions, i - 1);
      assert Happens(states, actions, i - 1);
      ActsKeepsInv(states[i - 1], actions[i - 1], states[i]);
    }
  }

  // ---- Ids and provenance ----

  /**
   `now` is a later state of `before`: a row is either an old one or has an id never used before, a UI row
   never becomes managed, and a row that is managed has always had its uid.
   */
  ghost predicate Aged<F, M>(before: Table<F, M>, now: Table<F, M>) {
    && before.next <= now.next
    && (forall id | id in now.rows :: id in before.rows || id >= before.next)
    && (forall id | id in now.rows && id in before.rows && Managed(now, id) ::
          Managed(before, id) && now.rows[id].uid == before.rows[id].uid)
  }

  ghost predicate ChecksAged(before: Tables, now: Tables) {
    && before.nextCheck <= now.nextCheck
    && forall c | c in now.checks :: c in before.checks || c.id >= before.nextCheck
  }

  ghost predicate Older(before: Tables, now: Tables) {
    Aged(before.endpoints, now.endpoints) && Aged(before.notifiers, now.notifiers) && ChecksAged(before, now)
  }

  lemma ReconciledAges<F, M>(before: Table<F, M>, want: map<string, F>, after: Table<F, M>)
    requires Sound(before) && Reconciled(before, want, after)
    ensures Aged(before, after)
  {
    forall id | id in after.rows && id in before.rows && Managed(after, id)
      ensures Managed(before, id) && after.rows[id].uid == before.rows[id].uid
    {
      EarlierRow(before, want, after, id);
    }
  }

  lemma RespondAges(web: Web, t: Tables, req: Request, newId: nat, now: int)
    requires Inv(t) && FreshId(t, req, newId)
    ensures Older(t, Respond(web, t, req, newId, now).1)
  {
    RespondAgesEndpoints(web, t, req, newId, now);
  }

  lemma RespondAgesEndpoints(web: Web, t: Tables, req: Request, newId: nat, now: int)
    requires Inv(t) && FreshId(t, req, newId)
    ensures Aged(t.endpoints, Respond(web, t, req, newId, now).1.endpoints)
  {
  }

  lemma ActsAges(t: Tables, a: Action, t': Tables)
    requires Inv(t) && Acts(t, a, t')
    ensures Older(t, t')
  {
    match a
    case Reconcile(rt, cfg) =>
      ReconciledAges(t.endpoints, WantedEndpoints(cfg), t'.endpoints);
      ReconciledAges(t.notifiers, WantedNotifiers(rt, cfg), t'.notifiers);
    case Serve(web, req, newId, now) => RespondAges(web, t, req, newId, now);
    case Record(cs) => assert forall i | 0 <= i < |t.checks| :: t'.checks[i] == t.checks[i];
    case _ =>
  }

  lemma AgedTwice<F, M>(a: Table<F, M>, b: Table<F, M>, c: Table<F, M>)
    requires Sound(a) && Aged(a, b) && Aged(b, c)
    ensures Aged(a, c)
  {
  }

  lemma OneMoreAct(a: Tables, b: Tables, act: Action, c: Tables)
    requires Inv(a) && Inv(b) && Acts(b, act, c)
    ensures Older(a, b) ==> Older(a, c)
  {
    ActsAges(b, act, c);
    if Older(a, b) {
      AgedTwice(a.endpoints, b.endpoints, c.endpoints);
      AgedTwice(a.notifiers, b.notifiers, c.notifiers);
    }
  }

  lemma {:induction false} LifeAges(states: seq<Tables>, actions: seq<Action>, i: nat, j: nat)
    requires IsLife(states, actions) && i <= j < |states|
    ensures Older(states[i], states[j])
  {
    if i < j {
      LifeKeepsInv(states, actions, i);
      LifeKeepsInv(states, actions, j - 1);
      LifeAges(states, actions, i, j - 1);
      assert Happens(states, actions, j - 1);
      OneMoreAct(states[i], states[j - 1], actions[j - 1], states[j]);
    }
  }

  /** An id that has been given up never comes back. */
  lemma IdsAreNeverReused(states: seq<Tables>, actions: seq<Action>, i: nat, j: nat, k: nat, id: nat)
    requires IsLife(states, actions) && i <= j <= k < |states|
    ensures id in states[i].endpoints.rows && id !in states[j].endpoints.rows ==> id !in states[k].endpoints.rows
    ensures id in states[i].notifiers.rows && id !in states[j].notifiers.rows ==> id !in states[k].notifiers.rows
    ensures forall c, d | c in states[i].checks && c !in states[j].checks && d in states[k].checks :: d.id != c.id
  {
    LifeKeepsInv(states, actions, i);
    LifeAges(states, actions, i, j);
    LifeAges(states, actions, j, k);
    forall c, d | c in states[i].checks && c !in states[j].checks && d in states[k].checks
      ensures d.id != c.id
    {
      if d in states[j].checks && d.id == c.id {
        CheckRowsNeverChange(states, actions, i, j, c, d);
      }
    }
  }

  /** A check row is never altered: as long as its id is in use, it is the same row. */
  lemma CheckRowsNeverChange(states: seq<Tables>, actions: seq<Action>, i: nat, j: nat, c: CheckRow, d: CheckRow)
    requires IsLife(states, actions) && i <= j < |states|
    requires c in states[i].checks && d in states[j].checks && c.id == d.id
    ensures c == d
  {
    LifeKeepsInv(states, actions, i);
    LifeAges(states, actions, i, j);
    var checks := states[i].checks;
    var a :| 0 <= a < |checks| && checks[a] == c;
    assert d in checks;
    var b :| 0 <= b < |checks| && checks[b] == d;
  }

  /** Provenance goes one way: only ejection changes it, and only from the configuration to the UI. */
  lemma ProvenanceIsOneWay(states: seq<Tables>, actions: seq<Action>, i: nat, j: nat, id: nat)
    requires IsLife(states, actions) && i <= j < |states|
    ensures id in states[i].endpoints.rows && Managed(states[j].endpoints, id) ==>
              Managed(states[i].endpoints, id) && states[i].endpoints.rows[id].uid == states[j].endpoints.rows[id].uid
    ensures id in states[i].notifiers.rows && Managed(states[j].notifiers, id) ==>
              Managed(states[i].notifiers, id) && states[i].notifiers.rows[id].uid == states[j].notifiers.rows[id].uid
  {
    LifeAges(states, actions, i, j);
  }

  // ---- UI rows outlive everything but API requests ----

  ghost predicate UiRowsKept<F, M>(before: Table<F, M>, now: Table<F, M>) {
    forall id | id in before.rows && !Managed(before, id) :: id in now.rows && now.rows[id] == before.rows[id]
  }

  ghost predicate UiKept(t: Tables, t': Tables) {
    && UiRowsKept(t.endpoints, t'.endpoints)
    && UiRowsKept(t.notifiers, t'.notifiers)
    && forall e: nat, n: nat | e in t.endpoints.rows && !Managed(t.endpoints, e) && n in t.notifiers.rows &&
        !Managed(t.notifiers, n) ::
         (e, n) in t'.links <==> (e, n) in t.links
  }

  lemma ActsKeepsUi(t: Tables, a: Action, t': Tables)
    requires Inv(t) && Acts(t, a, t') && !a.Serve?
    ensures UiKept(t, t')
  {
  }

  lemma {:induction false} UiOutlives(states: seq<Tables>, actions: seq<Action>, i: nat, j: nat)
    requires IsLife(states, actions) && i <= j < |states| && forall k | i <= k < j :: !actions[k].Serve?
    ensures UiKept(states[i], states[j])
  {
    if i < j {
      LifeKeepsInv(states, actions, j - 1);
      UiOutlives(states, actions, i, j - 1);
      assert Happens(states, actions, j - 1);
      ActsKeepsUi(states[j - 1], actions[j - 1], states[j]);
    }
  }

  /** After an ejection no later sync can change any of the rows or of the links between them. */
  lemma EjectedRowsAreImmune(states: seq<Tables>, actions: seq<Action>, i: nat, j: nat)
    requires IsLife(states, actions) && i < j < |states|
    requires actions[i].Eject? && forall k | i <= k < j :: !actions[k].Serve?
    ensures forall e | e in states[i].endpoints.rows :: e in states[j].endpoints.rows
              && states[j].endpoints.rows[e] ==
                  Row(None, FromUi, states[i].endpoints.rows[e].fields, states[i].endpoints.rows[e].meta)
    ensures forall n | n in states[i].notifiers.rows :: n in states[j].notifiers.rows
              && states[j].notifiers.rows[n] ==
                  Row(None, FromUi, states[i].notifiers.rows[n].fields, states[i].notifiers.rows[n].meta)
    ensures forall e: nat, n: nat | e in states[i].endpoints.rows && n in states[i].notifiers.rows ::
              (e, n) in states[j].links <==> (e, n) in states[i].links
  {
    LifeKeepsInv(states, actions, i);
    assert Happens(states, actions, i);
    EjectionReleases(states[i]);
    UiOutlives(states, actions, i + 1, j);
  }

  // ---- Managed rows outlive everything but syncs and ejections ----

  lemma ActsKeepsManaged(t: Tables, a: Action, t': Tables)
    requires Inv(t) && Acts(t, a, t') && (a.Serve? || a.Record? || a.Clean?)
    ensures ManagedSame(t, t')
  {
    if a.Serve? {
      ApiSparesManaged(a.web, t, a.req, a.newId, a.now);
      assert forall e | Managed(t.endpoints, e) || Managed(t'.endpoints, e) :: EndpointUntouched(t, t', e);
      assert forall n | Managed(t.notifiers, n) || Managed(t'.notifiers, n) :: NotifierUntouched(t, t', n);
    }
  }

  lemma {:induction false} ManagedOutlives(states: seq<Tables>, actions: seq<Action>, i: nat, j: nat)
    requires IsLife(states, actions) && i <= j < |states|
    requires forall k | i <= k < j :: actions[k].Serve? || actions[k].Record? || actions[k].Clean?
    ensures ManagedSame(states[i], states[j])
  {
    if i < j {
      LifeKeepsInv(states, actions, j - 1);
      ManagedOutlives(states, actions, i, j - 1);
      assert Happens(states, actions, j - 1);
      ActsKeepsManaged(states[j - 1], actions[j - 1], states[j]);
    }
  }

  /** A stretch of API requests leaves managed rows, their links and their checks exactly as they were. */
  lemma {:induction false} ApiRunsSpareManaged(states: seq<Tables>, actions: seq<Action>, i: nat, j: nat)
    requires IsLife(states, actions) && i <= j < |states| && forall k | i <= k < j :: actions[k].Serve?
    ensures ManagedUntouched(states[i], states[j])
  {
    LifeKeepsInv(states, actions, i);
    if i < j {
      LifeKeepsInv(states, actions, j - 1);
      ApiRunsSpareManaged(states, actions, i, j - 1);
      var a := actions[j - 1];
      assert Happens(states, actions, j - 1);
      ApiSparesManaged(a.web, states[j - 1], a.req, a.newId, a.now);
      UntouchedTwice(states[i], states[j - 1], states[j]);
    }
  }

  lemma UntouchedTwice(a: Tables, b: Tables, c: Tables)
    requires ManagedUntouched(a, b) && ManagedUntouched(b, c)
    ensures ManagedUntouched(a, c)
  {
    forall e | Managed(a.endpoints, e) || Managed(c.endpoints, e)
      ensures EndpointUntouched(a, c, e)
    {
      assert Managed(a.endpoints, e) ==> EndpointUntouched(a, b, e);
      assert Managed(c.endpoints, e) ==> EndpointUntouched(b, c, e);
      assert EndpointUntouched(a, b, e) && EndpointUntouched(b, c, e);
    }
    forall n | Managed(a.notifiers, n) || Managed(c.notifiers, n)
      ensures NotifierUntouched(a, c, n)
    {
      assert Managed(a.notifiers, n) ==> NotifierUntouched(a, b, n);
      assert Managed(c.notifiers, n) ==> NotifierUntouched(b, c, n);
    }
  }

  /** What the store shows at some point of its life. */
  ghost function ViewAt(states: seq<Tables>, actions: seq<Action>, i: nat): Shown
    requires IsLife(states, actions) && i < |states|
  {
    LifeKeepsInv(states, actions, i);
    ConfigView(states[i])
  }

  lemma ShownAfterSync(states: seq<Tables>, actions: seq<Action>, i: nat)
    requires IsLife(states, actions) && i < |actions| && actions[i].Reconcile?
    ensures ViewAt(states, actions, i + 1) == Requested(actions[i].rt, actions[i].cfg)
  {
    LifeKeepsInv(states, actions, i);
    assert Happens(states, actions, i);
    SyncIsExact(actions[i].rt, actions[i].cfg, states[i], states[i + 1]);
  }

  lemma ViewOutlives(states: seq<Tables>, actions: seq<Action>, i: nat, j: nat)
    requires IsLife(states, actions) && i <= j < |states|
    requires forall k | i <= k < j :: actions[k].Serve? || actions[k].Record? || actions[k].Clean?
    ensures ViewAt(states, actions, j) == ViewAt(states, actions, i)
  {
    LifeKeepsInv(states, actions, i);
    LifeKeepsInv(states, actions, j);
    ManagedOutlives(states, actions, i, j);
    SameManagedSameView(states[i], states[j]);
  }

  /**
   API requests and check traffic cause no drift: after a sync and any number of them the store still shows
   the configuration exactly.
   */
  lemma NoDriftWithoutSync(states: seq<Tables>, actions: seq<Action>, i: nat, j: nat)
    requires IsLife(states, actions) && i < j < |states| && actions[i].Reconcile?
    requires forall k | i + 1 <= k < j :: actions[k].Serve? || actions[k].Record? || actions[k].Clean?
    ensures ViewAt(states, actions, j) == Requested(actions[i].rt, actions[i].cfg)
  {
    var shown := Requested(actions[i].rt, actions[i].cfg);
    ShownAfterSync(states, actions, i);
    StaysShown(states, actions, i + 1, j, shown);
  }

  lemma StaysShown(states: seq<Tables>, actions: seq<Action>, i: nat, j: nat, shown: Shown)
    requires IsLife(states, actions) && i <= j < |states| && ViewAt(states, actions, i) == shown
    requires forall k | i <= k < j :: actions[k].Serve? || actions[k].Record? || actions[k].Clean?
    ensures ViewAt(states, actions, j) == shown
  {
    ViewOutlives(states, actions, i, j);
  }

  /** So syncing the configuration again at any such time changes nothing. */
  lemma ResyncChangesNothing(states: seq<Tables>, actions: seq<Action>, i: nat, j: nat, again: Tables)
    requires IsLife(states, actions) && i < j < |states| && actions[i].Reconcile?
    requires forall k | i + 1 <= k < j :: actions[k].Serve? || actions[k].Record? || actions[k].Clean?
    requires Synced(actions[i].rt, actions[i].cfg, states[j], again)
    ensures SameRows(states[j], again)
  {
    NoDriftWithoutSync(states, actions, i, j);
    LifeKeepsInv(states, actions, j);
    ShownIsFixed(actions[i].rt, actions[i].cfg, states[j], again);
  }

  // ---- What validation at every entrance buys ----

  /** Rows that could have come from a validated configuration, but for thresholds and notifier types. */
  ghost predicate Healthy(t: Tables) {
    Accepted(t) && Presentable(t)
  }

  /** Configurations are validated before they are synced. */
  ghost predicate Checked(a: Action) {
    a.Reconcile? ==> Valid(a.cfg)
  }

  /** A notifier the API accepts is posted with its type in lower case. */
  predicate PostsLowerCase(a: Action) {
    a.Serve? && (a.req.CreateNotifier? || a.req.UpdateNotifier?) && NotifierAcceptable(a.web, a.req.n) ==>
      a.req.n.kind in NOTIFIER_KINDS
  }

  lemma SyncKeepsHealth(rt: Runtime, cfg: Config, t: Tables, t': Tables)
    requires Inv(t) && Healthy(t) && Synced(rt, cfg, t, t') && Valid(cfg)
    ensures Healthy(t')
  {
    forall id | id in t'.notifiers.rows
      ensures t'.notifiers.rows[id].fields.name != ""
      ensures Managed(t'.notifiers, id) ==> t'.notifiers.rows[id].uid.Some? && UidText(t'.notifiers.rows[id].uid.value)
    {
      if id in t.notifiers.rows {
        EarlierRow(t.notifiers, WantedNotifiers(rt, cfg), t'.notifiers, id);
      }
    }
    forall e | e in t'.endpoints.rows
      ensures PresentableEndpoint(t'.endpoints.rows[e].fields)
      ensures Managed(t'.endpoints, e) ==> t'.endpoints.rows[e].uid.Some? && UidText(t'.endpoints.rows[e].uid.value)
    {
      if e in t.endpoints.rows {
        EarlierRow(t.endpoints, WantedEndpoints(cfg), t'.endpoints, e);
      }
    }
  }

  lemma SyncKeepsKinds(rt: Runtime, cfg: Config, t: Tables, t': Tables)
    requires Inv(t) && KnownKinds(t) && Synced(rt, cfg, t, t') && Valid(cfg)
    ensures KnownKinds(t')
  {
    forall id | id in t'.notifiers.rows
      ensures t'.notifiers.rows[id].fields.kind in NOTIFIER_KINDS
    {
      if id in t.notifiers.rows {
        EarlierRow(t.notifiers, WantedNotifiers(rt, cfg), t'.notifiers, id);
      }
    }
  }

  lemma ServeKeepsHealth(web: Web, t: Tables, req: Request, newId: nat, now: int)
    requires Inv(t) && Healthy(t)
    ensures Healthy(Respond(web, t, req, newId, now).1)
  {
    ServeKeepsUids(web, t, req, newId, now);
  }

  lemma ServeKeepsUids(web: Web, t: Tables, req: Request, newId: nat, now: int)
    requires Inv(t) && Accepted(t)
    ensures Accepted(Respond(web, t, req, newId, now).1)
  {
  }

  lemma ActsKeepsHealth(t: Tables, a: Action, t': Tables)
    requires Inv(t) && Acts(t, a, t') && Checked(a) && Healthy(t)
    ensures Healthy(t')
  {
    match a
    case Reconcile(rt, cfg) => SyncKeepsHealth(rt, cfg, t, t');
    case Serve(web, req, newId, now) => ServeKeepsHealth(web, t, req, newId, now);
    case _ =>
  }

  lemma ActsKeepsKinds(t: Tables, a: Action, t': Tables)
    requires Inv(t) && Acts(t, a, t') && Checked(a) && PostsLowerCase(a) && KnownKinds(t)
    ensures KnownKinds(t')
  {
    if a.Reconcile? {
      SyncKeepsKinds(a.rt, a.cfg, t, t');
    }
  }

  lemma {:induction false} LifeKeepsHealth(states: seq<Tables>, actions: seq<Action>, i: nat)
    requires IsLife(states, actions) && i < |states| && Healthy(states[0])
    requires forall k | 0 <= k < i :: Checked(actions[k])
    ensures Healthy(states[i])
  {
    if i > 0 {
      LifeKeepsHealth(states, actions, i - 1);
      LifeKeepsInv(states, actions, i - 1);
      assert Happens(states, actions, i - 1);
      ActsKeepsHealth(states[i - 1], actions[i - 1], states[i]);
    }
  }

  lemma {:induction false} LifeKeepsKinds(states: seq<Tables>, actions: seq<Action>, i: nat)
    requires IsLife(states, actions) && i < |states| && KnownKinds(states[0])
    requires forall k | 0 <= k < i :: Checked(actions[k]) && PostsLowerCase(actions[k])
    ensures KnownKinds(states[i])
  {
    if i > 0 {
      LifeKeepsKinds(states, actions, i - 1);
      LifeKeepsInv(states, actions, i - 1);
      assert Happens(states, actions, i - 1);
      ActsKeepsKinds(states[i - 1], actions[i - 1], states[i]);
    }
  }

  /** Whatever happened to the store, its export is a file that `validate` accepts, unless some type is capitalised. */
  lemma EveryExportIsValidIff(rt: Runtime, states: seq<Tables>, actions: seq<Action>, i: nat)
    requires IsLife(states, actions) && i < |states| && states[0] == EMPTY
    requires (forall k | 0 <= k < i :: Checked(actions[k])) && Exportable(rt, states[i]) && ClashFree(rt, states[i])
    ensures WellFormed(ExportedConfig(rt, states[i])) <==> KnownKinds(states[i])
  {
    EmptyIsSound();
    LifeKeepsInv(states, actions, i);
    LifeKeepsHealth(states, actions, i);
    ExportIsWellFormedIff(rt, states[i]);
  }

  /** In particular when notifiers were only ever posted in lower case, and then clashes do not matter. */
  lemma EveryStoreExportsAValidFile(rt: Runtime, states: seq<Tables>, actions: seq<Action>, i: nat)
    requires IsLife(states, actions) && i < |states| && states[0] == EMPTY
    requires forall k | 0 <= k < i :: Checked(actions[k]) && PostsLowerCase(actions[k])
    requires Exportable(rt, states[i])
    ensures WellFormed(ExportedConfig(rt, states[i]))
  {
    EmptyIsSound();
    LifeKeepsInv(states, actions, i);
    LifeKeepsHealth(states, actions, i);
    LifeKeepsKinds(states, actions, i);
    ExportIsWellFormed(rt, states[i]);
  }

  /** One request is enough: a notifier of type "Telegram" is accepted, and the export of it is not. */
  lemma CapitalTypeSpoilsExport(rt: Runtime, web: Web, json: string, now: int)
    requires Lowered(web.lower, "Telegram") == "telegram" && web.factory("telegram", json) && json != ""
    requires rt.unmarshal(json).Some?
    ensures var post := CreateNotifier(NotifierFields("N", "Telegram", json));
            var (status, t) := Respond(web, EMPTY, post, 1, now);
            && status == Created && IsLife([EMPTY, t], [Serve(web, post, 1, now)])
            && Exportable(rt, t) && !WellFormed(ExportedConfig(rt, t))
  {
    var post := CreateNotifier(NotifierFields("N", "Telegram", json));
    var (status, t) := Respond(web, EMPTY, post, 1, now);
    assert Happens([EMPTY, t], [Serve(web, post, 1, now)], 0);
    LifeKeepsInv([EMPTY, t], [Serve(web, post, 1, now)], 1);
    LoneTypeSpoils(rt, t, 1);
  }

  lemma LoneTypeSpoils(rt: Runtime, t: Tables, id: nat)
    requires Exportable(rt, t) && t.notifiers.rows.Keys == {id} && t.notifiers.rows[id].fields.kind !in NOTIFIER_KINDS
    ensures !WellFormed(ExportedConfig(rt, t))
  {
    ExportLaws.NotifierTarget(rt, t, id);
    var source := NotifierSource(rt, t, NotifierKey(rt, t, id));
    assert !NotifierOk(NotifierKey(rt, t, id), NotifierEntry(rt, t.notifiers.rows[id].fields));
  }

  /** Every worker of a fleet in step with the store ticks at the stored interval, up to the int64 bound. */
  lemma EveryWorkerTicks(states: seq<Tables>, actions: seq<Action>, i: nat, f: Fleet, id: nat)
    requires IsLife(states, actions) && i < |states| && states[0] == EMPTY
    requires forall k | 0 <= k < i :: Checked(actions[k])
    requires InStep(states[i], f) && id in f.registry && states[i].endpoints.rows[id].fields.interval <= MAX_SECONDS
    ensures f.registry[id] < |f.workers|
    ensures 0 < TickerPeriod(f.workers[f.registry[id]].fields.interval)
              == states[i].endpoints.rows[id].fields.interval * NANOS_PER_SECOND
  {
    EmptyIsSound();
    LifeKeepsHealth(states, actions, i);
    assert Runs(f, id, states[i].endpoints.rows[id].fields);
    TickerPeriodIsRight(states[i].endpoints.rows[id].fields.interval);
  }
}
