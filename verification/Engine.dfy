/**
 `check` and `dbWriterLoop` (internal/monitor/manager.go) as code over the cache, the results channel, the
 database and the alert state.  Any sequence of their calls is a run of the write pipeline, so what every run
 of that machine keeps holds of these objects.
 */
module Engine {
  import opened Common
  import opened Store
  import opened Pipeline
  import opened Window
  import opened Alerts
  import opened State
  import opened Checks
  import opened Items
  import Server

  /** The steps of one undisturbed `check` call. */
  function CheckSteps(c: Check, n: nat): seq<Step> {
    [Produce(c), UpdateCache(n), Send(n), Finish(n)]
  }

  lemma ExtendRun(run: seq<Pipe>, steps: seq<Step>, s: Step)
    requires IsRun(run, steps) && Enabled(run[|run| - 1], s)
    ensures IsRun(run + [Apply(run[|run| - 1], s)], steps + [s])
  {
    var run', steps' := run + [Apply(run[|run| - 1], s)], steps + [s];
    forall i | 0 <= i < |steps'|
      ensures Takes(run', steps', i)
    {
      assert i < |steps| ==> Takes(run, steps, i);
    }
  }

  /** The channel holds the queued checks themselves. */
  ghost predicate Holds(results: seq<Check>, p: Pipe) {
    && |results| == |p.queue|
    && forall i | 0 <= i < |results| :: p.queue[i] < |p.produced| && results[i] == p.produced[p.queue[i]]
  }

  /** Between two calls nothing is in a worker's or the writer's hand. */
  predicate Idle(p: Pipe) {
    p.hands == map[] && p.writer == None && p.writing
  }

  ghost predicate Stores(t: Tables, p: Pipe) {
    p.rows == t.checks && p.endpoints == t.endpoints.rows.Keys && p.next <= t.nextCheck
  }

  ghost predicate Caches(view: map<nat, Stats>, p: Pipe) {
    forall e :: Recent(p.cache, e) == if e in view then view[e].recent else []
  }

  function StartingPipe(t: Tables, view: map<nat, Stats>): Pipe {
    Pipe([], map[], [], None, true, map e | e in view :: view[e].recent,
         t.endpoints.rows.Keys, t.checks, t.nextCheck, [], [], [], [], [], [])
  }

  lemma StartIsIdle(t: Tables, view: map<nat, Stats>)
    requires Inv(t)
    ensures var p := StartingPipe(t, view);
            IsRun([p], []) && Idle(p) && Holds([], p) && Stores(t, p) && Caches(view, p)
  {
  }

  /**
   Right after startup an endpoint's cached window agrees with its stored checks exactly when it was hydrated, that
   is, unpaused and readable, or has no checks.  So a paused endpoint with a history starts without agreement.
   */
  lemma StartAgreesIff(t: Tables, unread: set<nat>, averages: map<nat, real>, view: map<nat, Stats>, e: nat)
    requires Inv(t) && e in t.endpoints.rows && InOrder(Minis(ChecksOf(t.checks, {e})))
    requires view.Keys == ActiveIds(t) && forall x | x in view :: view[x] == StartStats(t, x, unread, averages)
    ensures Agrees(StartingPipe(t, view), e) <==>
              (e in ActiveIds(t) && e !in unread) || ChecksOf(t.checks, {e}) == []
  {
    var p, own := StartingPipe(t, view), ChecksOf(t.checks, {e});
    assert Log(p, e) == Minis(own);
    if e in ActiveIds(t) && e !in unread {
      QueryAnswers(t.checks, e, WINDOW);
      HydratedWindow(t.checks, e, WINDOW, Query(t.checks, e, WINDOW));
      assert Recent(p.cache, e) == LastOf(Minis(own), WINDOW);
    } else {
      assert Recent(p.cache, e) == [];
    }
  }

  /** What a whole `check` call makes of an idle pipe. */
  function Checked(p: Pipe, c: Check): Pipe {
    var n := |p.produced|;
    var p' := p.(produced := p.produced + [c],
        cache := p.cache[c.endpoint := Slide(Recent(p.cache, c.endpoint), c.mini)]);
    if |p.queue| < CAPACITY then p'.(queue := p.queue + [n], sent := p.sent + [n])
    else p'.(dropped := p.dropped + [n])
  }

  lemma CheckRuns(run: seq<Pipe>, steps: seq<Step>, c: Check) returns (run': seq<Pipe>)
    requires IsRun(run, steps) && Idle(run[|run| - 1])
    ensures run <= run' && IsRun(run', steps + CheckSteps(c, |run[|run| - 1].produced|))
    ensures run'[|run'| - 1] == Checked(run[|run| - 1], c)
  {
    var p := run[|run| - 1];
    var n := |p.produced|;
    var p1 := Apply(p, Produce(c));
    var p2 := Apply(p1, UpdateCache(n));
    var p3 := Apply(p2, Send(n));
    var p4 := Apply(p3, Finish(n));
    ExtendRun(run, steps, Produce(c));
    ExtendRun(run + [p1], steps + [Produce(c)], UpdateCache(n));
    ExtendRun(run + [p1] + [p2], steps + [Produce(c)] + [UpdateCache(n)], Send(n));
    ExtendRun(run + [p1] + [p2] + [p3], steps + [Produce(c)] + [UpdateCache(n)] + [Send(n)], Finish(n));
    run' := run + [p1] + [p2] + [p3] + [p4];
    assert steps + CheckSteps(c, n) == steps + [Produce(c)] + [UpdateCache(n)] + [Send(n)] + [Finish(n)];
    assert p4.hands == p.hands;
  }

  /** What the writer makes of an idle pipe with a queued check. */
  lemma WriteRuns(run: seq<Pipe>, steps: seq<Step>, id: nat, ok: bool) returns (run': seq<Pipe>)
    requires IsRun(run, steps) && Idle(run[|run| - 1]) && run[|run| - 1].queue != [] && id >= run[|run| - 1].next
    requires run[|run| - 1].queue[0] < |run[|run| - 1].produced|
    ensures run <= run' && IsRun(run', steps + [Take, Record(id, ok)])
    ensures run'[|run'| - 1] == Apply(Apply(run[|run| - 1], Take), Record(id, ok))
  {
    var p := run[|run| - 1];
    var p1 := Apply(p, Take);
    ExtendRun(run, steps, Take);
    ExtendRun(run + [p1], steps + [Take], Record(id, ok));
    run' := run + [p1] + [Apply(p1, Record(id, ok))];
    assert steps + [Take, Record(id, ok)] == steps + [Take] + [Record(id, ok)];
  }

  lemma CheckedStands(t: Tables, view: map<nat, Stats>, results: seq<Check>, p: Pipe, c: Check)
    requires Idle(p) && Holds(results, p) && Stores(t, p) && Caches(view, p)
    ensures var q := Checked(p, c);
            && Idle(q) && Stores(t, q)
            && Holds(if |results| < CAPACITY then results + [c] else results, q)
            && Caches(view[c.endpoint := Touched(if c.endpoint in view then view[c.endpoint] else BLANK, c.mini)], q)
  {
  }

  lemma WrittenStands(t: Tables, t': Tables, results: seq<Check>, p: Pipe, id: nat, ok: bool)
    requires Idle(p) && Holds(results, p) && Stores(t, p) && results != [] && id >= p.next
    requires ok ==> results[0].endpoint in t.endpoints.rows && Appended(t, [results[0]], t')
    requires ok ==> id == t'.checks[|t'.checks| - 1].id
    requires !ok ==> t' == t
    ensures var q := Apply(Apply(p, Take), Record(id, ok));
            Idle(q) && Stores(t', q) && Holds(results[1..], q) && q.cache == p.cache
  {
    if ok {
      assert t'.checks == t.checks + [RowOf(results[0], id)];
    }
  }

  // ---- The code ----

  /** The database, the cache and the channel at one moment. */
  datatype Snap = Snap(tables: Tables, view: map<nat, Stats>, results: seq<Check>)

  /**
   What can happen to them: a completed `check` call; a completed round of the writer and whether it recorded
   its check; the removal of a cache entry; a cleanup, finished or not; and an API request.
   */
  datatype Call =
    | Settled(c: Check)
    | Written(ok: bool)
    | Forgotten(e: nat)
    | Swept(cutoff: int)
    | Served(web: Server.Web, req: Server.Request, newId: nat, now: int)

  ghost predicate Does(s: Snap, call: Call, s': Snap) {
    match call
    case Settled(c) =>
      s' == Snap(s.tables,
                 s.view[c.endpoint := Touched(if c.endpoint in s.view then s.view[c.endpoint] else BLANK, c.mini)],
                 if |s.results| < CAPACITY then s.results + [c] else s.results)
    case Written(ok) =>
      && s.results != [] && s'.results == s.results[1..] && s'.view == s.view
      && if ok then Known(s.tables, [s.results[0]]) && Appended(s.tables, [s.results[0]], s'.tables)
         else s'.tables == s.tables
    case Forgotten(e) => s' == s.(view := s.view - {e})
    case Swept(cutoff) => s' == s.(tables := s'.tables) && Cleaned(s.tables, cutoff, s'.tables)
    case Served(web, req, newId, now) =>
      Server.FreshId(s.tables, req, newId) && s' == s.(tables := Server.Respond(web, s.tables, req, newId, now).1)
  }

  class Engine {
    const db: DB
    const cache: StateManager
    const book: Book
    var results: seq<Check>

    ghost predicate Valid()
      reads this, cache, cache.Objects(), book
    {
      cache.Valid() && book.Valid() && book !in cache.Objects() && db !in cache.Objects()
    }

    ghost function Snapshot(): Snap
      reads this, db, cache, cache.Objects()
    {
      Snap(db.tables, cache.View(), results)
    }

    /** Startup: an empty channel and a cache hydrated for the active endpoints. */
    constructor (db: DB, unread: set<nat>, averages: map<nat, real>)
      requires Inv(db.tables)
      ensures Valid() && fresh(cache) && fresh(cache.Objects()) && fresh(book)
      ensures this.db == db && results == [] && book.state == map[] && cache.state.Keys == ActiveIds(db.tables)
      ensures forall e | e in ActiveIds(db.tables) :: cache.View()[e] == StartStats(db.tables, e, unread, averages)
    {
      this.db := db;
      var c := new StateManager();
      book := new Book();
      results := [];
      var hydrated := c.Hydrate(db.tables, unread, averages, true);
      cache := c;
    }

    /** The first half of `check`: the cache slides, and the check is sent unless the channel is full. */
    method Deliver(c: Check)
      requires Valid()
      modifies this, cache, cache.Objects()
      ensures Valid() && fresh(cache.Objects() - old(cache.Objects()))
      ensures Does(old(Snapshot()), Settled(c), Snapshot())
      ensures results == if |old(results)| < 4096 then old(results) + [c] else old(results)
    {
      cache.UpdateOnCheck(c.endpoint, c.mini);
      if |results| < CAPACITY {
        results := results + [c];
      }
    }

    /** `check`, once the probe has delivered its result `c`; the worker was started with the given threshold. */
    method Settle(c: Check, threshold: int) returns (alert: Option<Alert>)
      requires Valid()
      modifies this, cache, cache.Objects(), book
      ensures Valid() && fresh(cache.Objects() - old(cache.Objects()))
      ensures Does(old(Snapshot()), Settled(c), Snapshot())
      ensures book.traces == old(book.traces)[c.endpoint :=
                (if c.endpoint in old(book.traces) then old(book.traces)[c.endpoint] else []) +
                    [Sample(c.mini.up, threshold)]]
      ensures alert == AlertAt(book.traces[c.endpoint], |book.traces[c.endpoint]| - 1)
    {
      Deliver(c);
      ghost var snap := Snapshot();
      alert := book.Settle(c.endpoint, Sample(c.mini.up, threshold));
      assert Snapshot() == snap;
    }

    /** One round of `dbWriterLoop`: a check that cannot be recorded is gone. */
    method WriteNext(reliable: bool) returns (ok: bool)
      requires Valid() && results != []
      modifies this, db
      ensures Valid() && Does(old(Snapshot()), Written(ok), Snapshot())
      ensures reliable ==> (ok <==> old(results)[0].endpoint in old(db.tables).endpoints.rows)
    {
      var c := results[0];
      results := results[1..];
      var id;
      ok, id := RecordCheck(db, c, reliable);
    }

    /** The memory an endpoint's deletion clears; a check in flight may bring it back. */
    method Forget(e: nat)
      requires Valid()
      modifies this, cache, book
      ensures Valid() && Does(old(Snapshot()), Forgotten(e), Snapshot())
      ensures book.traces == old(book.traces) - {e}
    {
      book.Forget(e);
      cache.Delete(e);
    }

    /** One run of the daily cleanup. */
    method Sweep(cutoff: int, reliable: bool) returns (finished: bool, ghost last: int)
      requires Valid() && Inv(db.tables)
      modifies db
      ensures Valid() && cutoff <= last && Does(old(Snapshot()), Swept(last), Snapshot())
      ensures finished ==> db.tables.checks == Younger(old(db.tables).checks, last)
      ensures reliable ==> finished
    {
      finished, last := CleanupOldChecks(db, cutoff, reliable);
    }
  }

  // ---- The code refines the machine ----

  ghost predicate Stands(s: Snap, p: Pipe) {
    Idle(p) && Holds(s.results, p) && Stores(s.tables, p) && Caches(s.view, p)
  }

  /** Only creating and deleting endpoints matters to the pipeline. */
  ghost function ServedSteps(t: Tables, web: Server.Web, req: Server.Request, newId: nat, now: int): seq<Step> {
    match Server.Respond(web, t, req, newId, now).0
    case Created => if req.CreateEndpoint? then [AddEndpoint(newId)] else []
    case NoContent => if req.DeleteEndpoint? then [DropEndpoint(req.id)] else []
    case _ => []
  }

  /** The steps a call amounts to. */
  ghost predicate Amounts(s: Snap, call: Call, part: seq<Step>) {
    match call
    case Settled(c) => exists n: nat :: part == CheckSteps(c, n)
    case Written(ok) => exists id: nat :: part == [Take, Record(id, ok)]
    case Forgotten(e) => part == [Step.Forget(e)]
    case Swept(cutoff) => exists gone: set<nat> :: part == [Cleanup(cutoff, gone)]
    case Served(web, req, newId, now) => part == ServedSteps(s.tables, web, req, newId, now)
  }

  function Flat(parts: seq<seq<Step>>): seq<Step> {
    if |parts| == 0 then [] else Flat(parts[..|parts| - 1]) + parts[|parts| - 1]
  }

  /** A life of the objects: what they hold before the first call and after each one. */
  ghost predicate IsLife(snaps: seq<Snap>, calls: seq<Call>) {
    && |snaps| == |calls| + 1
    && Inv(snaps[0].tables) && snaps[0].results == []
    && forall i | 0 <= i < |calls| :: Happens(snaps, calls, i)
  }

  ghost predicate Happens(snaps: seq<Snap>, calls: seq<Call>, i: nat)
    requires |snaps| == |calls| + 1 && i < |calls|
  {
    Does(snaps[i], calls[i], snaps[i + 1])
  }

  /** Any sequence of calls from startup on is a run of the write pipeline that mirrors the objects at its end. */
  lemma {:induction false} CallsAreRuns(snaps: seq<Snap>, calls: seq<Call>, k: nat)
    returns (run: seq<Pipe>, parts: seq<seq<Step>>)
    requires IsLife(snaps, calls) && k <= |calls|
    ensures IsRun(run, Flat(parts)) && |parts| == k && forall i | 0 <= i < k :: Amounts(snaps[i], calls[i], parts[i])
    ensures run[0] == StartingPipe(snaps[0].tables, snaps[0].view) && Stands(snaps[k], run[|run| - 1])
  {
    if k == 0 {
      run, parts := [StartingPipe(snaps[0].tables, snaps[0].view)], [];
      StartIsIdle(snaps[0].tables, snaps[0].view);
    } else {
      var run0, parts0 := CallsAreRuns(snaps, calls, k - 1);
      var part;
      run, part := NextCall(snaps, calls, k - 1, run0, Flat(parts0));
      parts := parts0 + [part];
      FlatStep(parts0, part);
    }
  }

  lemma NextCall(snaps: seq<Snap>, calls: seq<Call>, i: nat, run: seq<Pipe>, steps: seq<Step>)
    returns (run': seq<Pipe>, part: seq<Step>)
    requires IsLife(snaps, calls) && i < |calls| && IsRun(run, steps) && Stands(snaps[i], run[|run| - 1])
    ensures IsRun(run', steps + part) && run <= run' && Stands(snaps[i + 1], run'[|run'| - 1])
    ensures Amounts(snaps[i], calls[i], part)
  {
    assert Happens(snaps, calls, i);
    run', part := OneMoreCall(run, steps, snaps[i], calls[i], snaps[i + 1]);
  }

  lemma FlatStep(parts: seq<seq<Step>>, part: seq<Step>)
    ensures Flat(parts + [part]) == Flat(parts) + part
  {
    assert (parts + [part])[..|parts|] == parts;
  }

  lemma OneMoreCall(run: seq<Pipe>, steps: seq<Step>, s: Snap, call: Call, s': Snap)
    returns (run': seq<Pipe>, part: seq<Step>)
    requires IsRun(run, steps) && Stands(s, run[|run| - 1]) && Does(s, call, s')
    ensures IsRun(run', steps + part) && run <= run' && Stands(s', run'[|run'| - 1]) && Amounts(s, call, part)
  {
    match call
    case Settled(c) =>
      run' := OneMoreCheck(run, steps, s, c, s');
      part := CheckSteps(c, |run[|run| - 1].produced|);
    case Written(ok) =>
      var id;
      run', id := OneMoreRecord(run, steps, s, ok, s');
      part := [Take, Record(id, ok)];
    case Forgotten(e) =>
      part := [Step.Forget(e)];
      run' := OneMoreStep(run, steps, Step.Forget(e));
    case Swept(cutoff) =>
      run', part := OneMoreSweep(run, steps, s, cutoff, s');
    case Served(web, req, newId, now) =>
      part := ServedSteps(s.tables, web, req, newId, now);
      run' := OneMoreRequest(run, steps, s, call, s');
  }

  lemma OneMoreStep(run: seq<Pipe>, steps: seq<Step>, step: Step) returns (run': seq<Pipe>)
    requires IsRun(run, steps) && Enabled(run[|run| - 1], step)
    ensures IsRun(run', steps + [step]) && run <= run' && run'[|run'| - 1] == Apply(run[|run| - 1], step)
  {
    ExtendRun(run, steps, step);
    run' := run + [Apply(run[|run| - 1], step)];
  }

  lemma OneMoreSweep(run: seq<Pipe>, steps: seq<Step>, s: Snap, cutoff: int, s': Snap)
    returns (run': seq<Pipe>, part: seq<Step>)
    requires IsRun(run, steps) && Stands(s, run[|run| - 1]) && Does(s, Swept(cutoff), s')
    ensures IsRun(run', steps + part) && run <= run' && Stands(s', run'[|run'| - 1])
    ensures Amounts(s, Swept(cutoff), part)
  {
    RunKeeps(run, steps, |run| - 1);
    var gone := CleanedIsDeletion(s.tables, cutoff, s'.tables);
    part := [Cleanup(cutoff, gone)];
    run' := OneMoreStep(run, steps, Cleanup(cutoff, gone));
  }

  lemma OneMoreRequest(run: seq<Pipe>, steps: seq<Step>, s: Snap, call: Call, s': Snap) returns (run': seq<Pipe>)
    requires call.Served? && IsRun(run, steps) && Stands(s, run[|run| - 1]) && Does(s, call, s')
    ensures IsRun(run', steps + ServedSteps(s.tables, call.web, call.req, call.newId, call.now))
    ensures run <= run' && Stands(s', run'[|run'| - 1])
  {
    var part := ServedSteps(s.tables, call.web, call.req, call.newId, call.now);
    if part == [] {
      run' := run;
      assert steps + part == steps;
    } else {
      run' := OneMoreStep(run, steps, part[0]);
      assert part == [part[0]];
    }
    RequestStands(s.tables, call, run[|run| - 1]);
  }

  /** A request changes rows of checks and the set of endpoints as its steps do. */
  lemma RequestStands(t: Tables, call: Call, p: Pipe)
    requires call.Served? && Stores(t, p)
    ensures var t' := Server.Respond(call.web, t, call.req, call.newId, call.now).1;
            var part := ServedSteps(t, call.web, call.req, call.newId, call.now);
            |part| <= 1 && Stores(t', if part == [] then p else Apply(p, part[0]))
  {
    if call.req.DeleteEndpoint? {
      assert (t.endpoints.rows - {call.req.id}).Keys == t.endpoints.rows.Keys - {call.req.id};
    }
  }

  lemma OneMoreCheck(run: seq<Pipe>, steps: seq<Step>, s: Snap, c: Check, s': Snap) returns (run': seq<Pipe>)
    requires IsRun(run, steps) && Stands(s, run[|run| - 1]) && Does(s, Settled(c), s')
    ensures IsRun(run', steps + CheckSteps(c, |run[|run| - 1].produced|)) && run <= run' && Stands(s', run'[|run'| - 1])
  {
    CheckedStands(s.tables, s.view, s.results, run[|run| - 1], c);
    run' := CheckRuns(run, steps, c);
  }

  lemma OneMoreRecord(run: seq<Pipe>, steps: seq<Step>, s: Snap, ok: bool, s': Snap) returns (run': seq<Pipe>, id: nat)
    requires IsRun(run, steps) && Stands(s, run[|run| - 1]) && Does(s, Written(ok), s')
    ensures IsRun(run', steps + [Take, Record(id, ok)]) && run <= run' && Stands(s', run'[|run'| - 1])
  {
    id := NextId(s, ok, s', run[|run| - 1]);
    WrittenStands(s.tables, s'.tables, s.results, run[|run| - 1], id, ok);
    run' := WriteRuns(run, steps, id, ok);
  }

  lemma NextId(s: Snap, ok: bool, s': Snap, p: Pipe) returns (id: nat)
    requires Does(s, Written(ok), s') && Stores(s.tables, p)
    ensures id >= p.next && (ok ==> |s'.tables.checks| > 0 && id == s'.tables.checks[|s'.tables.checks| - 1].id)
  {
    id := if ok then s'.tables.checks[|s'.tables.checks| - 1].id else p.next;
  }

  /** Hence no completed check is lost: each is queued, recorded, dropped at a full channel, or failed to insert. */
  lemma CompletedChecksAreSomewhere(snaps: seq<Snap>, calls: seq<Call>) returns (p: Pipe)
    requires IsLife(snaps, calls)
    ensures Stands(snaps[|calls|], p) && |snaps[|calls|].results| <= CAPACITY && Subsequence(p.recorded, p.sent)
    ensures forall n: nat ::
              multiset(p.queue)[n] + multiset(p.recorded)[n] + multiset(p.dropped)[n] + multiset(p.failed)[n]
              == if n < |p.produced| then 1 else 0
  {
    var run, parts := CallsAreRuns(snaps, calls, |calls|);
    var steps := Flat(parts);
    p := run[|run| - 1];
    forall n: nat
      ensures multiset(p.queue)[n] + multiset(p.recorded)[n] + multiset(p.dropped)[n] + multiset(p.failed)[n]
              == if n < |p.produced| then 1 else 0
    {
      NothingIsLost(run, steps, |run| - 1, n);
      assert Unsent(p, n) == 0;
    }
    NothingIsLost(run, steps, |run| - 1, 0);
  }
}
