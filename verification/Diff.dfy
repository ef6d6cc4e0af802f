/** The dry run (internal/db/diff.go) and why its plan is what the sync then does. */
module Diff {
  import opened Common
  import opened ManagedTable
  import opened Store
  import opened Configuration
  import opened Sync
  import opened SyncLaws

  /** One printed line about an item; a creation also shows a column of the row to come (its type or its url). */
  datatype Verdict<F> = Create(uid: string, fields: F) | Update(uid: string) | Keep(uid: string) | Delete(uid: string)

  /** The printed plan: the item lines in print order, then the LINK lines. */
  datatype Plan = Plan(notifiers: seq<Verdict<NotifierFields>>, endpoints: seq<Verdict<EndpointFields>>,
      links: seq<(string, string)>)

  /** The verdict the comparison calls for. */
  predicate Right<F(==)>(existing: map<string, F>, want: map<string, F>, v: Verdict<F>) {
    match v
    case Create(u, f) => u in want && u !in existing && f == want[u]
    case Update(u) => u in want && u in existing && existing[u] != want[u]
    case Keep(u) => u in want && u in existing && existing[u] == want[u]
    case Delete(u) => u !in want && u in existing
  }

  /** One right line for each uid in `us`, and no other line: every line accounts for one of the uids. */
  ghost predicate ClassifiedOn<F>(existing: map<string, F>, want: map<string, F>, us: set<string>,
      lines: seq<Verdict<F>>) {
    if lines == [] then us == {} else
      var v := lines[|lines| - 1];
      v.uid in us && Right(existing, want, v) && ClassifiedOn(existing, want, us - {v.uid}, lines[..|lines| - 1])
  }

  /** Exactly one line per uid known to either side, and it is the right one. */
  ghost predicate Classified<F>(existing: map<string, F>, want: map<string, F>, lines: seq<Verdict<F>>) {
    ClassifiedOn(existing, want, existing.Keys + want.Keys, lines)
  }

  /** How often the line `u -> v` is printed once the endpoints in `done` are through. */
  ghost function LinkCount(cfg: Config, done: set<string>, u: string, v: string): nat {
    if u in cfg.endpoints && u in done then multiset(cfg.endpoints[u].notifiers)[v] else 0
  }

  ghost predicate LinkLines(cfg: Config, links: seq<(string, string)>) {
    forall u, v :: multiset(links)[(u, v)] == LinkCount(cfg, cfg.endpoints.Keys, u, v)
  }

  /** The plan that follows from what was read of the two tables. */
  ghost predicate PlanFrom(rt: Runtime, cfg: Config, ns: map<string, NotifierFields>, es: map<string, EndpointFields>,
                           plan: Plan) {
    && Classified(ns, WantedNotifiers(rt, cfg), plan.notifiers)
    && Classified(es, WantedEndpoints(cfg), plan.endpoints)
    && LinkLines(cfg, plan.links)
  }

  ghost predicate PlanFor(rt: Runtime, cfg: Config, t: Tables, plan: Plan)
    requires Inv(t)
  {
    PlanFrom(rt, cfg, View(t.notifiers), View(t.endpoints), plan)
  }

  /** What has been read so far: some of the managed rows, with their columns. */
  ghost predicate PartOf<F>(seen: map<string, F>, whole: map<string, F>) {
    forall u | u in seen :: u in whole && seen[u] == whole[u]
  }

  /**
   Reads the managed rows into a map by uid; a NULL uid would fail the scan.  An error that ends the iteration is
   not looked at, so that what has been read by then is delivered as if it were all.
   */
  method LoadExisting<F, M>(tb: Table<F, M>, reliable: bool) returns (r: Option<map<string, F>>)
    requires Sound(tb)
    ensures r.Some? ==> PartOf(r.value, View(tb))
    ensures reliable ==> r == Some(View(tb))
  {
    if * { if !reliable { return None; } }
    var existing: map<string, F> := map[];
    var todo := tb.rows.Keys;
    while todo != {}
      invariant todo <= tb.rows.Keys
      invariant PartOf(existing, View(tb))
      invariant forall id, u | id !in todo && HasUid(tb, id, u) :: u in existing
      decreases |todo|
    {
      if * { if !reliable { return Some(existing); } }
      var id :| id in todo;
      todo := todo - {id};
      var row := tb.rows[id];
      if row.source == FromConfig {
        if * { if !reliable { return None; } }
        if row.uid.None? { return None; }
        assert HasUid(tb, id, row.uid.value);
        existing := existing[row.uid.value := row.fields];
      }
    }
    WholeTableRead(tb, existing);
    return Some(existing);
  }

  lemma WholeTableRead<F, M>(tb: Table<F, M>, seen: map<string, F>)
    requires Sound(tb) && PartOf(seen, View(tb)) && forall id, u | HasUid(tb, id, u) :: u in seen
    ensures seen == View(tb)
  {
    forall u | u in View(tb)
      ensures u in seen
    {
      assert HasUid(tb, IdOf(tb, u), u);
    }
    SameMap(seen, View(tb));
  }

  lemma OneMoreLine<F>(existing: map<string, F>, want: map<string, F>, us: set<string>, lines: seq<Verdict<F>>,
      v: Verdict<F>)
    requires ClassifiedOn(existing, want, us, lines) && Right(existing, want, v) && v.uid !in us
    ensures ClassifiedOn(existing, want, us + {v.uid}, lines + [v])
  {
    assert (lines + [v])[..|lines|] == lines;
    assert us + {v.uid} - {v.uid} == us;
  }

  lemma {:induction false} ClassifiedLines<F>(existing: map<string, F>, want: map<string, F>, us: set<string>,
      lines: seq<Verdict<F>>)
    requires ClassifiedOn(existing, want, us, lines)
    ensures forall l | l in lines :: l.uid in us && Right(existing, want, l)
    ensures forall u | u in us :: exists l :: l in lines && l.uid == u
    ensures forall i, j | 0 <= i < j < |lines| :: lines[i].uid != lines[j].uid
  {
    if lines != [] {
      var v := lines[|lines| - 1];
      var front := lines[..|lines| - 1];
      ClassifiedLines(existing, want, us - {v.uid}, front);
      assert lines == front + [v];
      assert forall i | 0 <= i < |front| :: front[i] in front;
      forall u | u in us
        ensures exists l :: l in lines && l.uid == u
      {
        if u != v.uid {
          assert u in us - {v.uid};
          var l :| l in front && l.uid == u;
          assert l in lines;
        }
      }
    }
  }

  /** Compare the wanted items, striking matched uids off `existing`. */
  method MatchWanted<F(==)>(existing0: map<string, F>, want: map<string, F>)
      returns (lines: seq<Verdict<F>>, existing: map<string, F>)
    ensures ClassifiedOn(existing0, want, want.Keys, lines)
    ensures existing == existing0 - want.Keys
  {
    lines := [];
    existing := existing0;
    var todo := want.Keys;
    while todo != {}
      invariant todo <= want.Keys
      invariant existing == existing0 - (want.Keys - todo)
      invariant ClassifiedOn(existing0, want, want.Keys - todo, lines)
      decreases |todo|
    {
      var u :| u in todo;
      var line;
      ghost var done := want.Keys - todo;
      if u in existing {
        line := if existing[u] != want[u] then Update(u) else Keep(u);
        existing := existing - {u};
      } else {
        line := Create(u, want[u]);
      }
      OneMoreLine(existing0, want, done, lines, line);
      StrikeOff(want.Keys, todo, u);
      Struck(existing0, done, u);
      todo := todo - {u};
      lines := lines + [line];
    }
    assert want.Keys - todo == want.Keys;
  }

  lemma Struck<F>(existing: map<string, F>, done: set<string>, u: string)
    ensures existing - (done + {u}) == if u in existing - done then existing - done - {u} else existing - done
  {
  }

  /** Every uid still in `existing` is announced as deleted. */
  method PrintLeftovers<F(==)>(existing: map<string, F>) returns (lines: seq<Verdict<F>>)
    ensures ClassifiedOn(existing, map[], existing.Keys, lines)
  {
    lines := [];
    var left := existing.Keys;
    while left != {}
      invariant left <= existing.Keys
      invariant ClassifiedOn(existing, map[], existing.Keys - left, lines)
      decreases |left|
    {
      var u :| u in left;
      OneMoreLine(existing, map[], existing.Keys - left, lines, Delete(u));
      StrikeOff(existing.Keys, left, u);
      left := left - {u};
      lines := lines + [Delete(u)];
    }
    assert existing.Keys - left == existing.Keys;
  }

  /** The lines for the wanted uids followed by the deletions of the others make up the whole plan. */
  lemma {:induction false} LeftoversComplete<F>(existing: map<string, F>, want: map<string, F>, us: set<string>,
                                                matched: seq<Verdict<F>>, deleted: seq<Verdict<F>>)
    requires us <= existing.Keys - want.Keys
    requires ClassifiedOn(existing, want, want.Keys, matched)
    requires ClassifiedOn(existing - want.Keys, map[], us, deleted)
    ensures ClassifiedOn(existing, want, want.Keys + us, matched + deleted)
  {
    if deleted == [] {
      assert matched + deleted == matched && want.Keys + us == want.Keys;
    } else {
      var v := deleted[|deleted| - 1];
      var front := deleted[..|deleted| - 1];
      LeftoversComplete(existing, want, us - {v.uid}, matched, front);
      assert matched + deleted == matched + front + [v];
      assert want.Keys + us == want.Keys + (us - {v.uid}) + {v.uid};
      OneMoreLine(existing, want, want.Keys + (us - {v.uid}), matched + front, v);
    }
  }

  /** The item lines of one table: the wanted items first, then whatever is left over is deleted. */
  method Classify<F(==)>(existing0: map<string, F>, want: map<string, F>) returns (lines: seq<Verdict<F>>)
    ensures Classified(existing0, want, lines)
  {
    var matched, existing := MatchWanted(existing0, want);
    var deleted := PrintLeftovers(existing);
    LeftoversComplete(existing0, want, existing.Keys, matched, deleted);
    assert want.Keys + existing.Keys == existing0.Keys + want.Keys;
    lines := matched + deleted;
  }

  method PrintLinks(cfg: Config) returns (links: seq<(string, string)>)
    ensures LinkLines(cfg, links)
  {
    links := [];
    var todo := cfg.endpoints.Keys;
    while todo != {}
      invariant todo <= cfg.endpoints.Keys
      invariant forall u, v :: multiset(links)[(u, v)] == LinkCount(cfg, cfg.endpoints.Keys - todo, u, v)
      decreases |todo|
    {
      var u :| u in todo;
      links := PrintLinksOf(u, cfg.endpoints[u].notifiers, links);
      todo := todo - {u};
    }
    assert cfg.endpoints.Keys - todo == cfg.endpoints.Keys;
  }

  method PrintLinksOf(u: string, list: seq<string>, before: seq<(string, string)>)
      returns (links: seq<(string, string)>)
    ensures forall v :: multiset(links)[(u, v)] == multiset(before)[(u, v)] + multiset(list)[v]
    ensures forall w, v | w != u :: multiset(links)[(w, v)] == multiset(before)[(w, v)]
  {
    links := before;
    for i := 0 to |list|
      invariant forall v :: multiset(links)[(u, v)] == multiset(before)[(u, v)] + multiset(list[..i])[v]
      invariant forall w, v | w != u :: multiset(links)[(w, v)] == multiset(before)[(w, v)]
    {
      assert list[..i + 1] == list[..i] + [list[i]];
      links := links + [(u, list[i])];
    }
    assert list[..|list|] == list;
  }

  /** The dry run only reads: the plan is computed from the committed tables. */
  method DryRun(db: DB, rt: Runtime, cfg: Config, reliable: bool)
    returns (r: Option<Plan>, ghost ns: map<string, NotifierFields>, ghost es: map<string, EndpointFields>)
    requires Inv(db.tables)
    ensures r.Some? ==> PartOf(ns, View(db.tables.notifiers)) && PartOf(es, View(db.tables.endpoints))
    ensures r.Some? ==> PlanFrom(rt, cfg, ns, es, r.value)
    ensures reliable ==> r.Some? && PlanFor(rt, cfg, db.tables, r.value)
  {
    ns, es := map[], map[];
    var notifiers := LoadExisting(db.tables.notifiers, reliable);
    if notifiers.None? { return None, ns, es; }
    var nlines := Classify(notifiers.value, WantedNotifiers(rt, cfg));
    var endpoints := LoadExisting(db.tables.endpoints, reliable);
    if endpoints.None? { return None, ns, es; }
    var elines := Classify(endpoints.value, WantedEndpoints(cfg));
    var links := PrintLinks(cfg);
    ns, es := notifiers.value, endpoints.value;
    return Some(Plan(nlines, elines, links)), ns, es;
  }

  /** With no database file every item is announced as a creation: the dry run against an empty store. */
  method PrintAllAsCreates(rt: Runtime, cfg: Config) returns (plan: Plan)
    ensures PlanFor(rt, cfg, EMPTY, plan)
    ensures (forall l | l in plan.notifiers :: l.Create?) && forall l | l in plan.endpoints :: l.Create?
  {
    var nlines := PrintCreates(WantedNotifiers(rt, cfg));
    var elines := PrintCreates(WantedEndpoints(cfg));
    var links := PrintLinks(cfg);
    assert View(EMPTY.notifiers) == map[] && View(EMPTY.endpoints) == map[];
    return Plan(nlines, elines, links);
  }

  method PrintCreates<F(==)>(want: map<string, F>) returns (lines: seq<Verdict<F>>)
    ensures Classified(map[], want, lines)
    ensures forall l | l in lines :: l.Create?
  {
    lines := [];
    var todo := want.Keys;
    while todo != {}
      invariant todo <= want.Keys
      invariant ClassifiedOn(map[], want, want.Keys - todo, lines)
      invariant forall l | l in lines :: l.Create?
      decreases |todo|
    {
      var u :| u in todo;
      OneMoreLine(map[], want, want.Keys - todo, lines, Create(u, want[u]));
      StrikeOff(want.Keys, todo, u);
      todo := todo - {u};
      lines := lines + [Create(u, want[u])];
    }
    assert want.Keys - todo == {} + want.Keys;
  }

  // ---- The plan comes true ----

  /** What becomes of the item with uid `u`, in terms of rows. */
  ghost predicate ComesTrue<F, M>(v: Verdict<F>, before: Table<F, M>, after: Table<F, M>) {
    var u := v.uid;
    && (v.Create? <==> !Knows(before, u) && exists id: nat :: HasUid(after, id, u) && id >= before.next)
    && (v.Update? <==>
        exists id :: HasUid(before, id, u) && HasUid(after, id, u) && before.rows[id].fields != after.rows[id].fields)
    && (v.Keep? <==> exists id :: HasUid(before, id, u) && HasUid(after, id, u) && before.rows[id] == after.rows[id])
    && (v.Delete? <==> exists id :: HasUid(before, id, u) && id !in after.rows)
  }

  lemma VerdictComesTrue<F, M>(before: Table<F, M>, want: map<string, F>, after: Table<F, M>, v: Verdict<F>)
    requires Sound(before) && Reconciled(before, want, after) && Right(View(before), want, v)
    ensures ComesTrue(v, before, after)
  {
    var u := v.uid;
    if Knows(before, u) {
      var id := IdOf(before, u);
      if u in want { assert HasUid(after, id, u); }
    } else {
      UidsPersist(before, want, after, IdOf(after, u), u);
    }
  }

  /** Some managed endpoint with uid `u` is linked to some managed notifier with uid `v`. */
  ghost predicate Connected(t: Tables, u: string, v: string) {
    exists e: nat, n: nat :: (e, n) in t.links && HasUid(t.endpoints, e, u) && HasUid(t.notifiers, n, v)
  }

  /**
   The plan of one table predicts its reconciliation: every verdict comes true, no uid has two, and every
   uid on either side has one.
   */
  ghost predicate Predicts<F, M>(lines: seq<Verdict<F>>, before: Table<F, M>, after: Table<F, M>) {
    && (forall l | l in lines :: ComesTrue(l, before, after))
    && (forall i, j | 0 <= i < j < |lines| :: lines[i].uid != lines[j].uid)
    && (forall u | Knows(before, u) || Knows(after, u) :: exists l :: l in lines && l.uid == u)
  }

  /**
   The dry-run plan predicts the sync, and the LINK lines are exactly the links of the managed endpoints
   afterwards.
   */
  lemma DryRunPredictsSync(rt: Runtime, cfg: Config, before: Tables, after: Tables, plan: Plan)
    requires Inv(before) && Closed(cfg) && Synced(rt, cfg, before, after) && PlanFor(rt, cfg, before, plan)
    ensures Predicts(plan.notifiers, before.notifiers, after.notifiers)
    ensures Predicts(plan.endpoints, before.endpoints, after.endpoints)
    ensures forall u, v :: (u, v) in plan.links <==> Connected(after, u, v)
  {
    PlanPredicts(before.notifiers, WantedNotifiers(rt, cfg), after.notifiers, plan.notifiers);
    PlanPredicts(before.endpoints, WantedEndpoints(cfg), after.endpoints, plan.endpoints);
    forall u, v
      ensures (u, v) in plan.links <==> Connected(after, u, v)
    {
      LinkComesTrue(rt, cfg, before, after, plan.links, u, v);
    }
  }

  lemma PlanPredicts<F, M>(before: Table<F, M>, want: map<string, F>, after: Table<F, M>, lines: seq<Verdict<F>>)
    requires Sound(before) && Reconciled(before, want, after) && Classified(View(before), want, lines)
    ensures Predicts(lines, before, after)
  {
    ReconciledView(before, want, after);
    ClassifiedLines(View(before), want, View(before).Keys + want.Keys, lines);
    forall l | l in lines
      ensures ComesTrue(l, before, after)
    {
      VerdictComesTrue(before, want, after, l);
    }
    assert forall u | Knows(before, u) || Knows(after, u) :: u in View(before).Keys + want.Keys;
  }

  /** The plan of one table is right exactly when the whole table was read. */
  lemma PlanPredictsIffRead<F, M>(before: Table<F, M>, want: map<string, F>, after: Table<F, M>, seen: map<string, F>,
                                  lines: seq<Verdict<F>>)
    requires Sound(before) && Reconciled(before, want, after)
    requires PartOf(seen, View(before)) && Classified(seen, want, lines)
    ensures Predicts(lines, before, after) <==> seen == View(before)
  {
    if seen == View(before) {
      PlanPredicts(before, want, after, lines);
    } else {
      var u := Unread(View(before), seen);
      MissedUidIsMisreported(before, want, after, seen, lines, u);
    }
  }

  lemma Unread<F>(whole: map<string, F>, seen: map<string, F>) returns (u: string)
    requires PartOf(seen, whole) && seen != whole
    ensures u in whole && u !in seen
  {
    if forall v | v in whole :: v in seen {
      SameMap(seen, whole);
    }
    u :| u in whole && u !in seen;
  }

  /**
   A stored uid that was not read is reported as CREATE if it is still configured, although the sync creates
   nothing for it, and gets no line at all if it is not, although the sync prunes it.
   */
  lemma MissedUidIsMisreported<F, M>(before: Table<F, M>, want: map<string, F>, after: Table<F, M>,
                                     seen: map<string, F>, lines: seq<Verdict<F>>, u: string)
    requires Sound(before) && Reconciled(before, want, after) && Classified(seen, want, lines)
    requires Knows(before, u) && u !in seen
    ensures u in want ==> Create(u, want[u]) in lines && !ComesTrue(Create(u, want[u]), before, after)
    ensures u !in want ==> forall l | l in lines :: l.uid != u
    ensures !Predicts(lines, before, after)
  {
    ClassifiedLines(seen, want, seen.Keys + want.Keys, lines);
    if u in want {
      var l :| l in lines && l.uid == u;
      assert Right(seen, want, l);
    }
  }

  lemma LinkComesTrue(rt: Runtime, cfg: Config, before: Tables, after: Tables, links: seq<(string, string)>,
      u: string, v: string)
    requires Inv(before) && Closed(cfg) && Synced(rt, cfg, before, after) && LinkLines(cfg, links)
    ensures (u, v) in links <==> Connected(after, u, v)
  {
    SyncIsExact(rt, cfg, before, after);
    ConnectedView(after, u, v);
    assert (u, v) in links <==> multiset(links)[(u, v)] > 0;
    if u in cfg.endpoints {
      assert ConfigView(after).wiring[u] == References(cfg, u);
      assert v in cfg.endpoints[u].notifiers <==> multiset(cfg.endpoints[u].notifiers)[v] > 0;
    }
  }

  /** The connections by uid are what the view's wiring lists. */
  lemma ConnectedView(t: Tables, u: string, v: string)
    requires Inv(t)
    ensures ConfigView(t).wiring.Keys == ConfigView(t).endpoints.Keys
    ensures Connected(t, u, v) <==> u in ConfigView(t).wiring && v in ConfigView(t).wiring[u]
  {
    assert forall w :: w in Uids(t.endpoints) <==> w in View(t.endpoints);
    if Connected(t, u, v) {
      var e: nat, n: nat :| (e, n) in t.links && HasUid(t.endpoints, e, u) && HasUid(t.notifiers, n, v);
      assert u in Uids(t.endpoints) && IdOf(t.endpoints, u) == e;
    }
  }
}
