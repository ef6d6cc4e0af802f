/**
 The write pipeline of internal/monitor/manager.go as a step machine: any number of `check` calls in flight,
 the bounded results channel, and the single database writer.  A check is named by the order of its
 production; `hands` holds the calls that have not returned.
 */
module Pipeline {
  import opened Common
  import opened Store

  /** Where a `check` call stands: before UpdateOnCheck, before the channel send, before the alert section. */
  datatype Phase = Fresh | Cached | Sent

  const CAPACITY := 4096
  const WINDOW := 50

  /**
   `sent`, `taken`, `recorded`, `dropped` and `failed` are histories; `rowIds[i]` is the row id given to
   `recorded[i]`.  `cache` is the window of each endpoint held by the state manager.
   */
  datatype Pipe = Pipe(
    produced: seq<Check>, hands: map<nat, Phase>,
    queue: seq<nat>, writer: Option<nat>, writing: bool,
    cache: map<nat, seq<Mini>>,
    endpoints: set<nat>, rows: seq<CheckRow>, next: nat,
    sent: seq<nat>, taken: seq<nat>, recorded: seq<nat>, rowIds: seq<nat>, dropped: seq<nat>, failed: seq<nat>)

  /** A cleanup step is one batch: it deletes rows older than the cutoff, not necessarily all of them. */
  datatype Step =
    | Produce(check: Check)
    | UpdateCache(no: nat)
    | Send(no: nat)
    | Finish(no: nat)
    | Take
    | Record(id: nat, ok: bool)
    | Quit
    | AddEndpoint(e: nat)
    | DropEndpoint(e: nat)
    | Forget(e: nat)
    | Cleanup(cutoff: int, gone: set<nat>)

  /** UpdateOnCheck: append, and drop the oldest entry once there are more than fifty. */
  function Slide(window: seq<Mini>, m: Mini): seq<Mini> {
    if |window| + 1 > WINDOW then (window + [m])[1..] else window + [m]
  }

  function Recent(cache: map<nat, seq<Mini>>, e: nat): seq<Mini> {
    if e in cache then cache[e] else []
  }

  predicate Enabled(p: Pipe, s: Step) {
    match s
    case Produce(_) => true
    case UpdateCache(n) => n in p.hands && n < |p.produced| && p.hands[n] == Fresh
    case Send(n) => n in p.hands && n < |p.produced| && p.hands[n] == Cached
    case Finish(n) => n in p.hands && p.hands[n] == Sent
    case Take => p.writing && p.writer.None? && p.queue != []
    case Record(id, _) => p.writer.Some? && p.writer.value < |p.produced| && id >= p.next
    case Quit => p.writing && p.writer.None?
    case AddEndpoint(_) => true
    case DropEndpoint(_) => true
    case Forget(_) => true
    case Cleanup(cutoff, gone) => forall r | r in p.rows && r.id in gone :: r.at < cutoff
  }

  function Apply(p: Pipe, s: Step): Pipe
    requires Enabled(p, s)
  {
    match s
    case Produce(c) => p.(produced := p.produced + [c], hands := p.hands[|p.produced| := Fresh])
    case UpdateCache(n) =>
      var c := p.produced[n];
      p.(hands := p.hands[n := Cached], cache := p.cache[c.endpoint := Slide(Recent(p.cache, c.endpoint), c.mini)])
    case Send(n) =>
      var p' := p.(hands := p.hands[n := Sent]);
      if |p.queue| < CAPACITY then p'.(queue := p.queue + [n], sent := p.sent + [n])
      else p'.(dropped := p.dropped + [n])
    case Finish(n) => p.(hands := p.hands - {n})
    case Take => p.(queue := p.queue[1..], writer := Some(p.queue[0]), taken := p.taken + [p.queue[0]])
    case Record(id, ok) =>
      var n := p.writer.value;
      if ok && p.produced[n].endpoint in p.endpoints
      then p.(writer := None, rows := p.rows + [RowOf(p.produced[n], id)], next := id + 1,
              recorded := p.recorded + [n], rowIds := p.rowIds + [id])
      else p.(writer := None, failed := p.failed + [n])
    case Quit => p.(writing := false)
    case AddEndpoint(e) => p.(endpoints := p.endpoints + {e})
    case DropEndpoint(e) => p.(endpoints := p.endpoints - {e}, rows := ChecksOf(p.rows, p.endpoints - {e}))
    case Forget(e) => p.(cache := p.cache - {e})
    case Cleanup(_, gone) => p.(rows := Without(p.rows, gone))
  }

  ghost predicate Initial(p: Pipe) {
    && p.produced == [] && p.hands == map[] && p.queue == [] && p.writer == None
    && p.sent == p.taken == p.recorded == p.rowIds == p.dropped == p.failed == []
    && (forall i | 0 <= i < |p.rows| :: p.rows[i].id < p.next && p.rows[i].endpoint in p.endpoints)
    && (forall i, j | 0 <= i < j < |p.rows| :: p.rows[i].id < p.rows[j].id)
  }

  ghost predicate IsRun(states: seq<Pipe>, steps: seq<Step>) {
    && |states| == |steps| + 1
    && Initial(states[0])
    && forall i | 0 <= i < |steps| :: Takes(states, steps, i)
  }

  ghost predicate Takes(states: seq<Pipe>, steps: seq<Step>, i: nat)
    requires |states| == |steps| + 1 && i < |steps|
  {
    Enabled(states[i], steps[i]) && states[i + 1] == Apply(states[i], steps[i])
  }

  // ---- Conservation ----

  function Unsent(p: Pipe, n: nat): nat {
    if n in p.hands && p.hands[n] != Sent then 1 else 0
  }

  /** In how many places check `n` is: a hand before its send, the channel, the writer, or a final fate. */
  ghost function Places(p: Pipe, n: nat): nat {
    Unsent(p, n) + multiset(p.queue)[n] + (if p.writer == Some(n) then 1 else 0)
    + multiset(p.recorded)[n] + multiset(p.dropped)[n] + multiset(p.failed)[n]
  }

  ghost predicate Conserved(p: Pipe) {
    && (forall n | n in p.hands :: n < |p.produced|)
    && (forall n: nat :: Places(p, n) == if n < |p.produced| then 1 else 0)
  }

  lemma SendConserves(p: Pipe, k: nat, n: nat)
    requires Enabled(p, Send(k))
    ensures Places(Apply(p, Send(k)), n) == Places(p, n)
  {
    SendMoves(p, k, n);
    CountOneMore(p.queue, k, n);
    CountOneMore(p.dropped, k, n);
  }

  lemma SendMoves(p: Pipe, k: nat, n: nat)
    requires Enabled(p, Send(k))
    ensures Unsent(p, n) == Unsent(Apply(p, Send(k)), n) + (if k == n then 1 else 0)
  {
  }

  lemma CountOneMore(s: seq<nat>, k: nat, n: nat)
    ensures multiset(s + [k])[n] == multiset(s)[n] + (if k == n then 1 else 0)
  {
  }

  lemma TakeConserves(p: Pipe, n: nat)
    requires Enabled(p, Take)
    ensures Places(Apply(p, Take), n) == Places(p, n)
  {
    assert p.queue == [p.queue[0]] + p.queue[1..];
  }

  lemma RecordConserves(p: Pipe, id: nat, ok: bool, n: nat)
    requires Enabled(p, Record(id, ok))
    ensures Places(Apply(p, Record(id, ok)), n) == Places(p, n)
  {
  }

  /** A step moves a check from one place to the next, and only producing one adds a place. */
  lemma PlacesStep(p: Pipe, s: Step, n: nat)
    requires Enabled(p, s) && (s.Produce? ==> |p.produced| !in p.hands)
    ensures Places(Apply(p, s), n) == Places(p, n) + (if s.Produce? && n == |p.produced| then 1 else 0)
  {
    match s
    case Send(k) => SendConserves(p, k, n);
    case Take => TakeConserves(p, n);
    case Record(id, ok) => RecordConserves(p, id, ok, n);
    case _ =>
  }

  lemma StepConserves(p: Pipe, s: Step)
    requires Conserved(p) && Enabled(p, s)
    ensures Conserved(Apply(p, s))
  {
    forall n: nat
      ensures Places(Apply(p, s), n) == if n < |Apply(p, s).produced| then 1 else 0
    {
      PlacesStep(p, s, n);
    }
  }

  /** A send drops its check exactly when 4096 others are waiting; otherwise the check joins the end of the channel. */
  lemma SendIs(p: Pipe, n: nat)
    requires Enabled(p, Send(n))
    ensures var q := Apply(p, Send(n));
            && q.queue == (if |p.queue| < 4096 then p.queue + [n] else p.queue)
            && q.dropped == (if |p.queue| < 4096 then p.dropped else p.dropped + [n])
            && q.cache == p.cache && q.rows == p.rows
  {
  }

  // ---- Order ----

  /** `a` is `b` with some elements left out. */
  predicate Subsequence(a: seq<nat>, b: seq<nat>) {
    if a == [] then true
    else if b == [] then false
    else if a[|a| - 1] == b[|b| - 1] then Subsequence(a[..|a| - 1], b[..|b| - 1])
    else Subsequence(a, b[..|b| - 1])
  }

  /** Dropping the last element of `a`, or appending to `b`, keeps a subsequence one. */
  lemma {:induction false} SubsequenceWeakens(a: seq<nat>, b: seq<nat>)
    requires a != [] && Subsequence(a, b)
    ensures Subsequence(a[..|a| - 1], b)
    decreases |b|, 0
  {
    var front := a[..|a| - 1];
    if front != [] {
      if a[|a| - 1] == b[|b| - 1] {
        SubsequenceAppend(front, b[..|b| - 1], b[|b| - 1]);
        assert b == b[..|b| - 1] + [b[|b| - 1]];
      } else {
        SubsequenceWeakens(a, b[..|b| - 1]);
        SubsequenceAppend(front, b[..|b| - 1], b[|b| - 1]);
        assert b == b[..|b| - 1] + [b[|b| - 1]];
      }
    }
  }

  lemma {:induction false} SubsequenceAppend(a: seq<nat>, b: seq<nat>, x: nat)
    requires Subsequence(a, b)
    ensures Subsequence(a, b + [x])
    decreases |b|, 1
  {
    assert (b + [x])[..|b|] == b;
    if a != [] && a[|a| - 1] == x {
      SubsequenceWeakens(a, b);
    }
  }

  lemma SubsequenceExtend(a: seq<nat>, b: seq<nat>, x: nat)
    requires Subsequence(a, b)
    ensures Subsequence(a + [x], b + [x])
  {
    assert (a + [x])[..|a|] == a && (b + [x])[..|b|] == b;
  }

  lemma {:induction false} SubsequenceConcat(a: seq<nat>, b: seq<nat>, c: seq<nat>)
    requires Subsequence(a, b)
    ensures Subsequence(a, b + c)
  {
    if c == [] {
      assert b + c == b;
    } else {
      SubsequenceConcat(a, b, c[..|c| - 1]);
      SubsequenceAppend(a, b + c[..|c| - 1], c[|c| - 1]);
      assert b + c == b + c[..|c| - 1] + [c[|c| - 1]];
    }
  }

  /** What the writer is done with: everything taken but the check in its hand. */
  function Done(p: Pipe): seq<nat> {
    if p.writer.Some? && p.taken != [] then p.taken[..|p.taken| - 1] else p.taken
  }

  /** The channel is a bounded FIFO, and the writer records what it took in that order. */
  ghost predicate Ordered(p: Pipe) {
    && |p.queue| <= CAPACITY
    && p.sent == p.taken + p.queue
    && (p.writer.Some? ==> p.taken != [] && p.taken[|p.taken| - 1] == p.writer.value)
    && Subsequence(p.recorded, Done(p))
  }

  lemma TakeKeepsOrder(p: Pipe)
    requires Ordered(p) && Enabled(p, Take)
    ensures Ordered(Apply(p, Take))
  {
    var q := Apply(p, Take);
    assert p.queue == [p.queue[0]] + p.queue[1..];
    assert q.taken[..|q.taken| - 1] == p.taken;
  }

  lemma RecordKeepsOrder(p: Pipe, id: nat, ok: bool)
    requires Ordered(p) && Enabled(p, Record(id, ok))
    ensures Ordered(Apply(p, Record(id, ok)))
  {
    assert p.taken == Done(p) + [p.writer.value];
    SubsequenceAppend(p.recorded, Done(p), p.writer.value);
    SubsequenceExtend(p.recorded, Done(p), p.writer.value);
  }

  lemma StepKeepsOrder(p: Pipe, s: Step)
    requires Ordered(p) && Enabled(p, s)
    ensures Ordered(Apply(p, s))
  {
    match s
    case Send(n) => assert p.sent + [n] == p.taken + (p.queue + [n]);
    case Take => TakeKeepsOrder(p);
    case Record(id, ok) => RecordKeepsOrder(p, id, ok);
    case _ =>
  }

  // ---- Stored rows ----

  /** Row `r` is the row written for the `i`-th recorded check. */
  ghost predicate Wrote(p: Pipe, i: int, r: CheckRow) {
    0 <= i < |p.recorded| == |p.rowIds| && p.recorded[i] < |p.produced| &&
        r == RowOf(p.produced[p.recorded[i]], p.rowIds[i])
  }

  /** Rows come from the start or from recorded checks, in order of recording, and none dangles. */
  ghost predicate RowsSound(p: Pipe, base: seq<CheckRow>) {
    && |p.recorded| == |p.rowIds|
    && (forall i | 0 <= i < |p.rowIds| :: p.rowIds[i] < p.next)
    && (forall i, j | 0 <= i < j < |p.rowIds| :: p.rowIds[i] < p.rowIds[j])
    && (forall r | r in base :: r.id < p.next)
    && (forall r, i | r in base && 0 <= i < |p.rowIds| :: r.id < p.rowIds[i])
    && (forall i | 0 <= i < |p.rows| :: p.rows[i].id < p.next && p.rows[i].endpoint in p.endpoints)
    && (forall i, j | 0 <= i < j < |p.rows| :: p.rows[i].id < p.rows[j].id)
    && (forall r | r in p.rows :: r in base || exists i :: Wrote(p, i, r))
  }

  /** Fewer rows over the same histories stay sound when no row is left dangling. */
  lemma FewerRowsSound(p: Pipe, q: Pipe, base: seq<CheckRow>)
    requires RowsSound(p, base) && q == p.(rows := q.rows, endpoints := q.endpoints)
    requires forall r | r in q.rows :: r in p.rows && r.endpoint in q.endpoints
    requires forall i, j | 0 <= i < j < |q.rows| :: q.rows[i].id < q.rows[j].id
    ensures RowsSound(q, base)
  {
    forall i | 0 <= i < |q.rows|
      ensures q.rows[i].id < q.next && q.rows[i].endpoint in q.endpoints
    {
      assert q.rows[i] in p.rows;
    }
    forall r | r in q.rows
      ensures r in base || exists i :: Wrote(q, i, r)
    {
      if r !in base {
        var i :| Wrote(p, i, r);
        assert Wrote(q, i, r);
      }
    }
  }

  lemma RecordKeepsRows(p: Pipe, id: nat, ok: bool, base: seq<CheckRow>)
    requires RowsSound(p, base) && Enabled(p, Record(id, ok))
    ensures RowsSound(Apply(p, Record(id, ok)), base)
  {
    var q := Apply(p, Record(id, ok));
    forall r | r in q.rows
      ensures r in base || exists i :: Wrote(q, i, r)
    {
      if r in p.rows {
        if r !in base {
          var i :| Wrote(p, i, r);
          assert Wrote(q, i, r);
        }
      } else {
        assert Wrote(q, |p.recorded|, r);
      }
    }
  }

  lemma OtherStepKeepsRows(p: Pipe, q: Pipe, base: seq<CheckRow>)
    requires RowsSound(p, base)
    requires q.rows == p.rows && q.next == p.next && q.recorded == p.recorded && q.rowIds == p.rowIds
    requires p.endpoints <= q.endpoints && p.produced <= q.produced
    ensures RowsSound(q, base)
  {
    forall r | r in q.rows
      ensures r in base || exists i :: Wrote(q, i, r)
    {
      if r !in base {
        var i :| Wrote(p, i, r);
        assert Wrote(q, i, r);
      }
    }
  }

  lemma StepKeepsRows(p: Pipe, s: Step, base: seq<CheckRow>)
    requires RowsSound(p, base) && Enabled(p, s)
    ensures RowsSound(Apply(p, s), base)
  {
    match s
    case Record(id, ok) => RecordKeepsRows(p, id, ok, base);
    case DropEndpoint(e) =>
      ChecksOfIncreasing(p.rows, p.endpoints - {e});
      FewerRowsSound(p, Apply(p, s), base);
    case Cleanup(_, gone) =>
      WithoutIncreasing(p.rows, gone);
      FewerRowsSound(p, Apply(p, s), base);
    case _ => OtherStepKeepsRows(p, Apply(p, s), base);
  }

  // ---- Runs ----

  lemma {:induction false} RunKeeps(states: seq<Pipe>, steps: seq<Step>, i: nat)
    requires IsRun(states, steps) && i < |states|
    ensures Conserved(states[i]) && Ordered(states[i]) && RowsSound(states[i], states[0].rows)
  {
    if i > 0 {
      RunKeeps(states, steps, i - 1);
      assert Takes(states, steps, i - 1);
      StepConserves(states[i - 1], steps[i - 1]);
      StepKeepsOrder(states[i - 1], steps[i - 1]);
      StepKeepsRows(states[i - 1], steps[i - 1], states[0].rows);
    }
  }

  /**
   In every run no check is lost or duplicated: each produced check is in exactly one place, the channel never
   exceeds its capacity, and what was recorded is a subsequence of what was sent.  A check still in the channel
   after the writer has quit is the one that is lost at shutdown.
   */
  lemma NothingIsLost(states: seq<Pipe>, steps: seq<Step>, i: nat, n: nat)
    requires IsRun(states, steps) && i < |states|
    ensures Places(states[i], n) == if n < |states[i].produced| then 1 else 0
    ensures |states[i].queue| <= 4096
    ensures Subsequence(states[i].recorded, states[i].sent)
  {
    var p := states[i];
    RunKeeps(states, steps, i);
    if p.writer.Some? {
      assert p.taken == Done(p) + [p.writer.value];
    } else {
      assert p.taken == Done(p) + [];
    }
    SubsequenceConcat(p.recorded, Done(p), p.taken[|Done(p)|..]);
    assert p.taken == Done(p) + p.taken[|Done(p)|..];
    SubsequenceConcat(p.recorded, p.taken, p.queue);
  }

  /**
   Once the writer has quit, nothing is taken, recorded or given up any more: what is in the channel then, and
   whatever is sent later, is lost.
   */
  lemma QueueIsLostAtShutdown(states: seq<Pipe>, steps: seq<Step>, i: nat, j: nat)
    requires IsRun(states, steps) && i < j < |states| && steps[i] == Quit
    ensures states[i].queue <= states[j].queue && states[j].taken == states[i].taken
    ensures states[j].recorded == states[i].recorded && states[j].failed == states[i].failed
  {
    assert Takes(states, steps, i);
    StoppedWriterIsIdle(states, steps, i + 1, j);
  }

  lemma {:induction false} StoppedWriterIsIdle(states: seq<Pipe>, steps: seq<Step>, i: nat, j: nat)
    requires IsRun(states, steps) && i <= j < |states| && !states[i].writing && states[i].writer == None
    ensures !states[j].writing && states[j].writer == None && states[i].queue <= states[j].queue
    ensures states[j].taken == states[i].taken
    ensures states[j].recorded == states[i].recorded && states[j].failed == states[i].failed
  {
    if i < j {
      StoppedWriterIsIdle(states, steps, i, j - 1);
      assert Takes(states, steps, j - 1);
    }
  }

  /** Two stored rows that were not there at the start are the rows of two checks recorded in the same order. */
  lemma RowsFollowRecording(states: seq<Pipe>, steps: seq<Step>, k: nat, r: CheckRow, r': CheckRow)
    requires IsRun(states, steps) && k < |states|
    requires r in states[k].rows && r' in states[k].rows && r.id < r'.id
    requires r !in states[0].rows && r' !in states[0].rows
    ensures exists i, j :: Wrote(states[k], i, r) && Wrote(states[k], j, r') && i < j
  {
    RunKeeps(states, steps, k);
    var i :| Wrote(states[k], i, r);
    var j :| Wrote(states[k], j, r');
    var ids := states[k].rowIds;
    assert forall a, b | 0 <= a <= b < |ids| :: ids[a] <= ids[b];
  }
}
