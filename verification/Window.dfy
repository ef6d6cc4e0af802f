/** Why the in-memory window of an endpoint agrees with the database, in-flight checks included. */
module Window {
  import opened Common
  import opened Store
  import opened Pipeline

  /** The last `k` elements. */
  function LastOf<T>(s: seq<T>, k: nat): seq<T> {
    if |s| <= k then s else s[|s| - k..]
  }

  function Minis(rows: seq<CheckRow>): seq<Mini> {
    seq(|rows|, i requires 0 <= i < |rows| => MiniOf(rows[i]))
  }

  /** The checks numbered `ns` that belong to endpoint `e`, in order. */
  function MinisOf(produced: seq<Check>, ns: seq<nat>, e: nat): seq<Mini> {
    if ns == [] then [] else
      var n := ns[|ns| - 1];
      MinisOf(produced, ns[..|ns| - 1], e)
      + (if n < |produced| && produced[n].endpoint == e then [produced[n].mini] else [])
  }

  predicate InHandOf(p: Pipe, e: nat, n: nat) {
    n in p.hands && p.hands[n] == Cached && n < |p.produced| && p.produced[n].endpoint == e
  }

  /** The check of `e` that is in the cache but not yet sent; with overlapping checks there could be several. */
  ghost function InHand(p: Pipe, e: nat): seq<Mini> {
    if n: nat :| InHandOf(p, e, n) then [p.produced[n].mini] else []
  }

  function Pending(p: Pipe): seq<nat> {
    (if p.writer.Some? then [p.writer.value] else []) + p.queue
  }

  /** Database rows, then the writer's check, then the channel, then the check in a worker's hand. */
  ghost function Log(p: Pipe, e: nat): seq<Mini> {
    Minis(ChecksOf(p.rows, {e})) + MinisOf(p.produced, Pending(p), e) + InHand(p, e)
  }

  predicate InOrder(s: seq<Mini>) {
    forall i, j | 0 <= i < j < |s| :: s[i].at <= s[j].at
  }

  ghost predicate OneAtATime(p: Pipe, e: nat) {
    forall m: nat, n: nat | InHandOf(p, e, m) && InHandOf(p, e, n) :: m == n
  }

  /** The cached window is the last fifty entries of the log, which is in chronological order. */
  ghost predicate Agrees(p: Pipe, e: nat) {
    && e in p.endpoints
    && OneAtATime(p, e)
    && Recent(p.cache, e) == LastOf(Log(p, e), WINDOW)
    && InOrder(Log(p, e))
  }

  /** The rows of `e` older than the cutoff all lie before the last fifty entries of the log. */
  ghost predicate OldOnesOutside(p: Pipe, e: nat, cutoff: int) {
    var own := ChecksOf(p.rows, {e});
    forall i | 0 <= i < |own| && own[i].at < cutoff :: i + WINDOW < |Log(p, e)|
  }

  /**
   Nothing goes wrong for `e` in this step: its checks do not overlap between cache and send, carry
   nondecreasing timestamps, are neither dropped nor rejected, its cache entry stays, and a cleanup leaves its
   rows alone or reaches only rows that are not among the last fifty entries of the log.
   */
  ghost predicate Smooth(p: Pipe, s: Step, e: nat) {
    match s
    case UpdateCache(n) => n < |p.produced| && p.produced[n].endpoint == e ==>
      && (forall m: nat :: !InHandOf(p, e, m))
      && (forall i | 0 <= i < |Log(p, e)| :: Log(p, e)[i].at <= p.produced[n].mini.at)
    case Send(n) => n < |p.produced| && p.produced[n].endpoint == e ==> |p.queue| < CAPACITY
    case Record(_, ok) =>
      p.writer.Some? && p.writer.value < |p.produced| && p.produced[p.writer.value].endpoint == e ==> ok
    case Cleanup(cutoff, gone) =>
      || (forall r | r in p.rows && r.endpoint == e :: r.id !in gone)
      || OldOnesOutside(p, e, cutoff)
    case DropEndpoint(x) => x != e
    case Forget(x) => x != e
    case _ => true
  }

  // ---- How the pieces of the log move ----

  lemma SlideIsLast(s: seq<Mini>, m: Mini)
    ensures Slide(LastOf(s, WINDOW), m) == LastOf(s + [m], WINDOW)
  {
  }

  lemma {:induction false} MinisOfConcat(produced: seq<Check>, a: seq<nat>, b: seq<nat>, e: nat)
    ensures MinisOf(produced, a + b, e) == MinisOf(produced, a, e) + MinisOf(produced, b, e)
  {
    if b == [] {
      assert a + b == a;
    } else {
      MinisOfConcat(produced, a, b[..|b| - 1], e);
      assert (a + b)[..|a + b| - 1] == a + b[..|b| - 1];
    }
  }

  lemma MinisOfOne(produced: seq<Check>, n: nat, e: nat)
    ensures MinisOf(produced, [n], e) == if n < |produced| && produced[n].endpoint == e then [produced[n].mini] else []
  {
    assert [n][..0] == [];
  }

  lemma {:induction false} MinisOfGrows(produced: seq<Check>, c: Check, ns: seq<nat>, e: nat)
    requires forall n | n in ns :: n < |produced|
    ensures MinisOf(produced + [c], ns, e) == MinisOf(produced, ns, e)
  {
    if ns != [] {
      var front := ns[..|ns| - 1];
      assert ns == front + [ns[|ns| - 1]];
      assert ns[|ns| - 1] in ns && forall n | n in front :: n in ns;
      MinisOfGrows(produced, c, front, e);
    }
  }

  lemma PendingKnown(p: Pipe)
    requires Conserved(p)
    ensures forall n | n in Pending(p) :: n < |p.produced|
  {
    forall n | n in Pending(p)
      ensures n < |p.produced|
    {
      assert Places(p, n) > 0 by {
        if n in p.queue { assert multiset(p.queue)[n] > 0; }
      }
    }
  }

  lemma InHandIs(p: Pipe, e: nat, n: nat)
    requires OneAtATime(p, e) && InHandOf(p, e, n)
    ensures InHand(p, e) == [p.produced[n].mini]
  {
  }

  /** Same hands for `e`, same content. */
  lemma SameHands(p: Pipe, q: Pipe, e: nat)
    requires OneAtATime(p, e) && forall n: nat :: InHandOf(q, e, n) <==> InHandOf(p, e, n)
    requires forall n: nat | InHandOf(p, e, n) :: n < |q.produced| && q.produced[n] == p.produced[n]
    ensures OneAtATime(q, e) && InHand(q, e) == InHand(p, e)
  {
    if n: nat :| InHandOf(p, e, n) {
      InHandIs(p, e, n);
      InHandIs(q, e, n);
    }
  }

  lemma {:induction false} WithoutConcat(a: seq<CheckRow>, b: seq<CheckRow>, gone: set<nat>)
    ensures Without(a + b, gone) == Without(a, gone) + Without(b, gone)
  {
    if |b| == 0 {
      assert a + b == a;
    } else {
      WithoutConcat(a, b[..|b| - 1], gone);
      FrontOfConcat(a, b);
    }
  }

  lemma WithoutOne(r: CheckRow, gone: set<nat>)
    ensures Without([r], gone) == if r.id in gone then [] else [r]
  {
    assert [r][..0] == [];
  }

  lemma {:induction false} WithoutNone(b: seq<CheckRow>, gone: set<nat>)
    requires forall i | 0 <= i < |b| :: b[i].id !in gone
    ensures Without(b, gone) == b
  {
    if b != [] {
      WithoutNone(b[..|b| - 1], gone);
      assert b == b[..|b| - 1] + [b[|b| - 1]];
    }
  }

  /** Deleting rows and picking those of one endpoint commute. */
  lemma {:induction false} WithoutOf(rows: seq<CheckRow>, gone: set<nat>, e: nat)
    ensures ChecksOf(Without(rows, gone), {e}) == Without(ChecksOf(rows, {e}), gone)
  {
    if |rows| > 0 {
      var front, r := rows[..|rows| - 1], rows[|rows| - 1];
      WithoutOf(front, gone, e);
      WithoutOfLast(front, r, gone, e);
      FrontAndLast(rows);
    }
  }

  lemma WithoutOfLast(front: seq<CheckRow>, r: CheckRow, gone: set<nat>, e: nat)
    requires ChecksOf(Without(front, gone), {e}) == Without(ChecksOf(front, {e}), gone)
    ensures ChecksOf(Without(front + [r], gone), {e}) == Without(ChecksOf(front + [r], {e}), gone)
  {
    WithoutConcat(front, [r], gone);
    ChecksOfConcat(front, [r], {e});
    ChecksOfConcat(Without(front, gone), Without([r], gone), {e});
    WithoutConcat(ChecksOf(front, {e}), ChecksOf([r], {e}), gone);
    WithoutOne(r, gone);
    ChecksOfOne(r, e);
  }

  lemma ChecksOfOne(r: CheckRow, e: nat)
    ensures ChecksOf([r], {e}) == if r.endpoint == e then [r] else []
  {
    assert [r][..0] == [];
  }

  // ---- Step by step ----

  lemma ProduceKeeps(p: Pipe, c: Check, e: nat)
    requires Conserved(p) && Agrees(p, e)
    ensures Agrees(Apply(p, Produce(c)), e)
  {
    var q := Apply(p, Produce(c));
    PendingKnown(p);
    MinisOfGrows(p.produced, c, Pending(p), e);
    SameHands(p, q, e);
  }

  lemma OtherHands(p: Pipe, e: nat, n: nat, phase: Phase, k: nat)
    requires n < |p.produced|
    ensures k != n ==> (InHandOf(p.(hands := p.hands[n := phase]), e, k) <==> InHandOf(p, e, k))
    ensures InHandOf(p.(hands := p.hands[n := phase]), e, n) <==> phase == Cached && p.produced[n].endpoint == e
  {
  }

  lemma UpdateKeeps(p: Pipe, n: nat, e: nat)
    requires Agrees(p, e) && Enabled(p, UpdateCache(n)) && Smooth(p, UpdateCache(n), e)
    ensures Agrees(Apply(p, UpdateCache(n)), e)
  {
    var q := Apply(p, UpdateCache(n));
    forall k: nat
      ensures InHandOf(q, e, k) <==> (if k == n then p.produced[n].endpoint == e else InHandOf(p, e, k))
    {
      OtherHands(p, e, n, Cached, k);
    }
    if p.produced[n].endpoint == e {
      var m := p.produced[n].mini;
      InHandIs(q, e, n);
      assert Log(q, e) == Log(p, e) + [m];
      SlideIsLast(Log(p, e), m);
    } else {
      SameHands(p, q, e);
    }
  }

  lemma SendHands(p: Pipe, q: Pipe, n: nat, e: nat)
    requires OneAtATime(p, e) && Enabled(p, Send(n)) && q.hands == p.hands[n := Sent] && q.produced == p.produced
    ensures OneAtATime(q, e)
    ensures InHand(p, e) == if p.produced[n].endpoint == e then [p.produced[n].mini] else InHand(q, e)
    ensures p.produced[n].endpoint == e ==> InHand(q, e) == []
  {
    forall k: nat
      ensures InHandOf(q, e, k) <==> k != n && InHandOf(p, e, k)
    {
      OtherHands(p, e, n, Sent, k);
    }
    if p.produced[n].endpoint == e {
      InHandIs(p, e, n);
      assert InHandOf(p, e, n);
      assert forall k: nat :: !InHandOf(q, e, k);
    } else {
      SameHands(p, q, e);
    }
  }

  lemma SendLog(p: Pipe, q: Pipe, n: nat, e: nat)
    requires OneAtATime(p, e) && Enabled(p, Send(n))
    requires q.hands == p.hands[n := Sent] && q.produced == p.produced && q.rows == p.rows && q.writer == p.writer
    requires q.queue == p.queue + [n] || (q.queue == p.queue && p.produced[n].endpoint != e)
    ensures Log(q, e) == Log(p, e) && OneAtATime(q, e)
  {
    SendHands(p, q, n, e);
    var one := MinisOf(p.produced, [n], e);
    SendPending(p, q, n, e);
    assert InHand(p, e) == one + InHand(q, e) by {
      MinisOfOne(p.produced, n, e);
    }
    Regroup(Minis(ChecksOf(p.rows, {e})), MinisOf(p.produced, Pending(p), e), one, InHand(q, e));
  }

  lemma SendPending(p: Pipe, q: Pipe, n: nat, e: nat)
    requires n < |p.produced| && q.produced == p.produced && q.writer == p.writer
    requires q.queue == p.queue + [n] || (q.queue == p.queue && p.produced[n].endpoint != e)
    ensures MinisOf(q.produced, Pending(q), e) == MinisOf(p.produced, Pending(p), e) + MinisOf(p.produced, [n], e)
  {
    MinisOfOne(p.produced, n, e);
    if q.queue == p.queue + [n] {
      MinisOfConcat(p.produced, Pending(p), [n], e);
      assert Pending(q) == Pending(p) + [n];
    } else {
      assert Pending(q) == Pending(p);
    }
  }

  lemma Regroup<T>(a: seq<T>, b: seq<T>, c: seq<T>, d: seq<T>)
    ensures a + (b + c) + d == a + b + (c + d)
  {
  }

  lemma SendKeeps(p: Pipe, n: nat, e: nat)
    requires Agrees(p, e) && Enabled(p, Send(n)) && Smooth(p, Send(n), e)
    ensures Agrees(Apply(p, Send(n)), e)
  {
    SendLog(p, Apply(p, Send(n)), n, e);
  }

  /** A recorded check moves from the head of the pending ones to the end of the rows. */
  lemma RecordLog(p: Pipe, q: Pipe, row: CheckRow, n: nat, e: nat)
    requires p.writer == Some(n) && n < |p.produced| && row == RowOf(p.produced[n], row.id)
    requires q.produced == p.produced && q.queue == p.queue && q.writer == None
    requires q.rows == p.rows + [row] || (q.rows == p.rows && row.endpoint != e)
    ensures Minis(ChecksOf(q.rows, {e})) + MinisOf(q.produced, Pending(q), e)
         == Minis(ChecksOf(p.rows, {e})) + MinisOf(p.produced, Pending(p), e)
  {
    var one := MinisOf(p.produced, [n], e);
    MinisOfOne(p.produced, n, e);
    MinisOfConcat(p.produced, [n], p.queue, e);
    assert Pending(q) == p.queue;
    RowAppended(p.rows, row, e);
    assert row.endpoint != e ==> one == [];
    Handover(Minis(ChecksOf(q.rows, {e})), Minis(ChecksOf(p.rows, {e})), one, MinisOf(p.produced, Pending(p), e),
        MinisOf(p.produced, p.queue, e));
  }

  lemma Handover<T>(a': seq<T>, a: seq<T>, one: seq<T>, b: seq<T>, rest: seq<T>)
    requires (a' == a + one || (a' == a && one == [])) && b == one + rest
    ensures a' + rest == a + b
  {
  }

  lemma MinisConcat(a: seq<CheckRow>, b: seq<CheckRow>)
    ensures Minis(a + b) == Minis(a) + Minis(b)
  {
  }

  lemma RowAppended(rows: seq<CheckRow>, row: CheckRow, e: nat)
    ensures Minis(ChecksOf(rows + [row], {e})) == Minis(ChecksOf(rows, {e})) +
              (if row.endpoint == e then [MiniOf(row)] else [])
  {
    var own, one := ChecksOf(rows, {e}), if row.endpoint == e then [row] else [];
    assert ChecksOf(rows + [row], {e}) == own + one by {
      ChecksOfConcat(rows, [row], {e});
      ChecksOfOne(row, e);
    }
    MinisConcat(own, one);
    assert Minis(one) == if row.endpoint == e then [MiniOf(row)] else [];
  }

  lemma RecordKeeps(p: Pipe, id: nat, ok: bool, e: nat)
    requires Agrees(p, e) && Enabled(p, Record(id, ok)) && Smooth(p, Record(id, ok), e)
    ensures Agrees(Apply(p, Record(id, ok)), e)
  {
    var q := Apply(p, Record(id, ok));
    var n := p.writer.value;
    SameHands(p, q, e);
    RecordLog(p, q, RowOf(p.produced[n], id), n, e);
    assert Log(q, e) == Log(p, e);
  }

  lemma OtherKeeps(p: Pipe, s: Step, e: nat)
    requires Agrees(p, e) && Enabled(p, s) && Smooth(p, s, e)
    requires s.Finish? || s.Take? || s.Quit? || s.AddEndpoint? || s.Forget?
    ensures Agrees(Apply(p, s), e)
  {
    var q := Apply(p, s);
    SameHands(p, q, e);
    assert Pending(q) == Pending(p);
  }

  lemma DropKeeps(p: Pipe, x: nat, e: nat)
    requires Agrees(p, e) && x != e
    ensures Agrees(Apply(p, DropEndpoint(x)), e)
  {
    SameHands(p, Apply(p, DropEndpoint(x)), e);
    ChecksOfTwice(p.rows, p.endpoints - {x}, {e});
  }

  // ---- Cleanup ----

  /** The part of the log that a cleanup cannot reach. */
  ghost function Beyond(p: Pipe, e: nat): seq<Mini> {
    MinisOf(p.produced, Pending(p), e) + InHand(p, e)
  }

  lemma CleanedLog(p: Pipe, s: Step, e: nat)
    requires OneAtATime(p, e) && s.Cleanup? && Enabled(p, s)
    ensures Log(p, e) == Minis(ChecksOf(p.rows, {e})) + Beyond(p, e)
    ensures Log(Apply(p, s), e) == Minis(Without(ChecksOf(p.rows, {e}), s.gone)) + Beyond(p, e)
  {
    var q := Apply(p, s);
    SameHands(p, q, e);
    WithoutOf(p.rows, s.gone, e);
    Associates(Minis(ChecksOf(p.rows, {e})), MinisOf(p.produced, Pending(p), e), InHand(p, e));
    Associates(Minis(ChecksOf(q.rows, {e})), MinisOf(p.produced, Pending(p), e), InHand(p, e));
  }

  lemma {:induction false} WithoutKeepsOrder(a: seq<CheckRow>, t: seq<Mini>, gone: set<nat>)
    requires InOrder(Minis(a) + t)
    ensures InOrder(Minis(Without(a, gone)) + t)
  {
    if a != [] {
      var front, last := a[..|a| - 1], a[|a| - 1];
      var one := if last.id in gone then [] else [MiniOf(last)];
      assert Minis(a) == Minis(front) + [MiniOf(last)];
      assert Minis(a) + t == Minis(front) + ([MiniOf(last)] + t);
      InOrderWithout(Minis(front), MiniOf(last), t);
      WithoutKeepsOrder(front, one + t, gone);
      assert Minis(Without(a, gone)) == Minis(Without(front, gone)) + one;
      assert Minis(Without(a, gone)) + t == Minis(Without(front, gone)) + (one + t);
    }
  }

  lemma InOrderWithout(a: seq<Mini>, m: Mini, t: seq<Mini>)
    requires InOrder(a + ([m] + t))
    ensures InOrder(a + t) && InOrder(a + ([] + t))
  {
    var s, s' := a + ([m] + t), a + t;
    assert forall i | 0 <= i < |s'| :: s'[i] == s[if i < |a| then i else i + 1];
    assert [] + t == t;
  }

  /** Only rows before the last fifty entries go, so the last fifty stay. */
  lemma CleanupKeeps(p: Pipe, s: Step, e: nat)
    requires Agrees(p, e) && s.Cleanup? && Enabled(p, s) && Smooth(p, s, e)
    ensures Agrees(Apply(p, s), e)
  {
    CleanedLog(p, s, e);
    SameHands(p, Apply(p, s), e);
    WithoutKeepsOrder(ChecksOf(p.rows, {e}), Beyond(p, e), s.gone);
    CleanedLogEndsAlike(p, s, e);
  }

  lemma CleanedLogEndsAlike(p: Pipe, s: Step, e: nat)
    requires OneAtATime(p, e) && s.Cleanup? && Enabled(p, s) && Smooth(p, s, e)
    ensures LastOf(Log(Apply(p, s), e), WINDOW) == LastOf(Log(p, e), WINDOW)
  {
    CleanedLog(p, s, e);
    if forall r | r in p.rows && r.endpoint == e :: r.id !in s.gone {
      WithoutNone(ChecksOf(p.rows, {e}), s.gone);
    } else {
      OutsideStay(p, s, e);
    }
  }

  lemma OutsideStay(p: Pipe, s: Step, e: nat)
    requires s.Cleanup? && Enabled(p, s) && OldOnesOutside(p, e, s.cutoff)
    requires exists r :: r in p.rows && r.endpoint == e && r.id in s.gone
    ensures LastOf(Minis(Without(ChecksOf(p.rows, {e}), s.gone)) + Beyond(p, e), WINDOW)
         == LastOf(Minis(ChecksOf(p.rows, {e})) + Beyond(p, e), WINDOW)
  {
    var own, rest := ChecksOf(p.rows, {e}), Beyond(p, e);
    var m := Unreached(p, s, e);
    Associates(Minis(own), MinisOf(p.produced, Pending(p), e), InHand(p, e));
    LastFiftyStay(own, rest, s.gone, m);
  }

  /** Where the rows begin that a cleanup leaves alone. */
  lemma Unreached(p: Pipe, s: Step, e: nat) returns (m: nat)
    requires s.Cleanup? && Enabled(p, s) && OldOnesOutside(p, e, s.cutoff)
    requires exists r :: r in p.rows && r.endpoint == e && r.id in s.gone
    ensures m <= |ChecksOf(p.rows, {e})| && m + WINDOW <= |Log(p, e)|
    ensures forall i | m <= i < |ChecksOf(p.rows, {e})| :: ChecksOf(p.rows, {e})[i].id !in s.gone
  {
    var own := ChecksOf(p.rows, {e});
    var r :| r in p.rows && r.endpoint == e && r.id in s.gone;
    assert r in own;
    var k :| 0 <= k < |own| && own[k] == r;
    m := if |Log(p, e)| - WINDOW < |own| then |Log(p, e)| - WINDOW else |own|;
    assert forall i | m <= i < |own| :: own[i] in p.rows;
  }

  lemma LastFiftyStay(own: seq<CheckRow>, rest: seq<Mini>, gone: set<nat>, m: nat)
    requires m <= |own| && m + WINDOW <= |own| + |rest| && forall i | m <= i < |own| :: own[i].id !in gone
    ensures LastOf(Minis(Without(own, gone)) + rest, WINDOW) == LastOf(Minis(own) + rest, WINDOW)
  {
    var a, b := own[..m], own[m..];
    assert own == a + b;
    WithoutConcat(a, b, gone);
    WithoutNone(b, gone);
    MinisConcat(a, b);
    MinisConcat(Without(a, gone), b);
    Associates(Minis(a), Minis(b), rest);
    Associates(Minis(Without(a, gone)), Minis(b), rest);
    LastOfLong(Minis(a), Minis(b) + rest, WINDOW);
    LastOfLong(Minis(Without(a, gone)), Minis(b) + rest, WINDOW);
  }

  lemma LastOfLong<T>(a: seq<T>, b: seq<T>, k: nat)
    requires |b| >= k
    ensures LastOf(a + b, k) == LastOf(b, k)
  {
  }

  /**
   A cleanup that runs to its end keeps the agreement exactly when no row of the endpoint is older than the cutoff,
   or its younger rows and the checks on their way number at least fifty.
   */
  lemma CompleteCleanupKeepsIff(p: Pipe, s: Step, e: nat)
    requires Agrees(p, e) && s.Cleanup? && Enabled(p, s)
    requires forall r | r in p.rows && r.at < s.cutoff :: r.id in s.gone
    ensures var own := ChecksOf(p.rows, {e});
            Agrees(Apply(p, s), e) <==>
              (forall r | r in own :: r.at >= s.cutoff) || |Younger(own, s.cutoff)| + |Beyond(p, e)| >= WINDOW
  {
    var own := ChecksOf(p.rows, {e});
    CleanupKeepsIffEnough(p, s, e);
    CleanedLog(p, s, e);
    assert forall i | 0 <= i < |own| :: own[i] in p.rows;
    WithoutOldIsYounger(own, s.gone, s.cutoff);
    AllYoung(own, s.cutoff);
  }

  lemma {:induction false} WithoutOldIsYounger(own: seq<CheckRow>, gone: set<nat>, cutoff: int)
    requires forall i | 0 <= i < |own| :: own[i].id in gone <==> own[i].at < cutoff
    ensures Without(own, gone) == Younger(own, cutoff)
  {
    if |own| > 0 {
      WithoutOldIsYounger(own[..|own| - 1], gone, cutoff);
    }
  }

  lemma {:induction false} AllYoung(own: seq<CheckRow>, cutoff: int)
    ensures |Younger(own, cutoff)| <= |own|
    ensures |Younger(own, cutoff)| == |own| <==> forall r | r in own :: r.at >= cutoff
  {
    if |own| > 0 {
      FrontAndLast(own);
      AllYoung(own[..|own| - 1], cutoff);
    }
  }

  /** An endpoint whose only check is older than the cutoff: the cleanup empties the table but not the window. */
  lemma CleanupMayBreakAgreement(r: CheckRow, cutoff: int)
    requires r.at < cutoff
    ensures var p := Pipe([], map[], [], None, true, map[r.endpoint := [MiniOf(r)]], {r.endpoint}, [r], r.id + 1,
                          [], [], [], [], [], []);
            var s := Cleanup(cutoff, {r.id});
            Initial(p) && Enabled(p, s) && Agrees(p, r.endpoint) && !Agrees(Apply(p, s), r.endpoint)
  {
    var p := Pipe([], map[], [], None, true, map[r.endpoint := [MiniOf(r)]], {r.endpoint}, [r], r.id + 1,
                  [], [], [], [], [], []);
    ChecksOfOne(r, r.endpoint);
    assert Minis([r]) == [MiniOf(r)];
    StartAgrees(p, r.endpoint);
    assert Younger([r], cutoff) == [] by { assert [r][..0] == []; }
    CompleteCleanupKeepsIff(p, Cleanup(cutoff, {r.id}), r.endpoint);
    assert r in [r];
  }

  /** The same in terms of the log afterwards. */
  lemma CleanupKeepsIffEnough(p: Pipe, s: Step, e: nat)
    requires Agrees(p, e) && s.Cleanup? && Enabled(p, s)
    requires forall r | r in p.rows && r.at < s.cutoff :: r.id in s.gone
    ensures Agrees(Apply(p, s), e) <==>
              |Log(Apply(p, s), e)| == |Log(p, e)| || |Log(Apply(p, s), e)| >= WINDOW
  {
    var own := ChecksOf(p.rows, {e});
    CleanedLog(p, s, e);
    if |Without(own, s.gone)| == |own| {
      NothingGone(own, s.gone);
      NoneOfIsGone(p, s, e);
      CleanupKeeps(p, s, e);
    } else if |Log(Apply(p, s), e)| >= WINDOW {
      OldRowsLead(p, s, e);
      CleanupKeeps(p, s, e);
    }
  }

  lemma {:induction false} NothingGone(own: seq<CheckRow>, gone: set<nat>)
    requires |Without(own, gone)| == |own|
    ensures forall i | 0 <= i < |own| :: own[i].id !in gone
  {
    if |own| > 0 {
      NothingGone(own[..|own| - 1], gone);
    }
  }

  lemma NoneOfIsGone(p: Pipe, s: Step, e: nat)
    requires s.Cleanup?
    requires forall i | 0 <= i < |ChecksOf(p.rows, {e})| :: ChecksOf(p.rows, {e})[i].id !in s.gone
    ensures forall r | r in p.rows && r.endpoint == e :: r.id !in s.gone
  {
    forall r | r in p.rows && r.endpoint == e
      ensures r.id !in s.gone
    {
      assert r in ChecksOf(p.rows, {e});
    }
  }

  /** The rows a complete cleanup removes are the first ones of the log. */
  lemma OldRowsLead(p: Pipe, s: Step, e: nat)
    requires Agrees(p, e) && s.Cleanup? && Enabled(p, s) && |Log(Apply(p, s), e)| >= WINDOW
    requires forall r | r in p.rows && r.at < s.cutoff :: r.id in s.gone
    ensures OldOnesOutside(p, e, s.cutoff)
  {
    var own := ChecksOf(p.rows, {e});
    CleanedLog(p, s, e);
    forall i | 0 <= i < |own| && own[i].at < s.cutoff
      ensures i + WINDOW < |Log(p, e)|
    {
      forall k | 0 <= k <= i
        ensures own[k].id in s.gone
      {
        RowsInOrder(own, Beyond(p, e), k, i);
        assert own[k] in p.rows;
      }
      GonePrefix(own, i + 1, s.gone);
    }
  }

  lemma RowsInOrder(own: seq<CheckRow>, rest: seq<Mini>, k: nat, i: nat)
    requires InOrder(Minis(own) + rest) && k <= i < |own|
    ensures own[k].at <= own[i].at
  {
    var log := Minis(own) + rest;
    assert log[k] == MiniOf(own[k]) && log[i] == MiniOf(own[i]);
  }

  lemma {:induction false} GonePrefix(own: seq<CheckRow>, k: nat, gone: set<nat>)
    requires k <= |own| && forall i | 0 <= i < k :: own[i].id in gone
    ensures |Without(own, gone)| <= |own| - k
  {
    if k < |own| || k > 0 {
      GonePrefix(own[..|own| - 1], if k < |own| then k else k - 1, gone);
    }
  }

  lemma StepKeepsAgreement(p: Pipe, s: Step, e: nat)
    requires Conserved(p) && Agrees(p, e) && Enabled(p, s) && Smooth(p, s, e)
    ensures Agrees(Apply(p, s), e)
  {
    match s
    case Produce(c) => ProduceKeeps(p, c, e);
    case UpdateCache(n) => UpdateKeeps(p, n, e);
    case Send(n) => SendKeeps(p, n, e);
    case Record(id, ok) => RecordKeeps(p, id, ok, e);
    case DropEndpoint(x) => DropKeeps(p, x, e);
    case Cleanup(_, _) => CleanupKeeps(p, s, e);
    case _ => OtherKeeps(p, s, e);
  }

  lemma RunConserves(states: seq<Pipe>, steps: seq<Step>, k: nat)
    requires IsRun(states, steps) && k < |states|
    ensures Conserved(states[k])
  {
    RunKeeps(states, steps, k);
  }

  ghost predicate SmoothAt(states: seq<Pipe>, steps: seq<Step>, i: nat, e: nat)
    requires |states| == |steps| + 1 && i < |steps|
  {
    Smooth(states[i], steps[i], e)
  }

  /** Agreement reached once lasts through any interleaving in which nothing goes wrong for the endpoint. */
  lemma {:induction false} AgreementLasts(states: seq<Pipe>, steps: seq<Step>, e: nat, from: nat, k: nat)
    requires IsRun(states, steps) && from <= k < |states|
    requires Agrees(states[from], e)
    requires forall i | from <= i < k :: SmoothAt(states, steps, i, e)
    ensures Agrees(states[k], e)
    decreases k
  {
    if from < k {
      AgreementLasts(states, steps, e, from, k - 1);
      assert SmoothAt(states, steps, k - 1, e);
      NextAgrees(states, steps, k - 1, e);
    }
  }

  lemma NextAgrees(states: seq<Pipe>, steps: seq<Step>, i: nat, e: nat)
    requires IsRun(states, steps) && i < |steps|
    ensures Agrees(states[i], e) && SmoothAt(states, steps, i, e) ==> Agrees(states[i + 1], e)
  {
    RunConserves(states, steps, i);
    assert Takes(states, steps, i);
    if Agrees(states[i], e) && SmoothAt(states, steps, i, e) {
      StepKeepsAgreement(states[i], steps[i], e);
    }
  }

  /** A hydrated endpoint, or one just created, starts in agreement. */
  lemma StartAgrees(p: Pipe, e: nat)
    requires e in p.endpoints && (forall n: nat :: !InHandOf(p, e, n)) && MinisOf(p.produced, Pending(p), e) == []
    requires InOrder(Minis(ChecksOf(p.rows, {e}))) && Recent(p.cache, e) == LastOf(Minis(ChecksOf(p.rows, {e})), WINDOW)
    ensures Agrees(p, e)
  {
    assert Log(p, e) == Minis(ChecksOf(p.rows, {e}));
  }

  // ---- Reading the rows back ----

  predicate Newer(a: CheckRow, b: CheckRow) {
    a.at > b.at || (a.at == b.at && a.id > b.id)
  }

  /** WHERE endpoint_id = e ORDER BY checked_at DESC, id DESC LIMIT limit */
  ghost predicate NewestFirst(rows: seq<CheckRow>, e: nat, limit: nat, r: seq<CheckRow>) {
    && |r| <= limit
    && (forall i, j | 0 <= i < j < |r| :: Newer(r[i], r[j]))
    && (forall c | c in r :: c in rows && c.endpoint == e)
    && (forall c | c in rows && c.endpoint == e && c !in r :: |r| == limit && forall x | x in r :: Newer(x, c))
  }

  /** Later rows are newer. */
  ghost predicate Ascend(own: seq<CheckRow>) {
    forall a, b | 0 <= a < b < |own| :: Newer(own[b], own[a])
  }

  /** `r` is the newest part of `own`, newest first, at most `limit` long. */
  ghost predicate NewestOf(own: seq<CheckRow>, limit: nat, r: seq<CheckRow>) {
    && |r| <= limit
    && (forall i, j | 0 <= i < j < |r| :: Newer(r[i], r[j]))
    && (forall c | c in r :: c in own)
    && (forall c | c in own && c !in r :: |r| == limit && forall x | x in r :: Newer(x, c))
  }

  /** The newest rows are listed from the end. */
  lemma {:induction false} NewestAreLast(own: seq<CheckRow>, limit: nat, r: seq<CheckRow>, i: nat)
    requires Ascend(own) && NewestOf(own, limit, r) && i < |r|
    ensures i < |own| && r[i] == own[|own| - 1 - i]
    decreases i
  {
    forall k | 0 <= k < i
      ensures k < |own| && r[k] == own[|own| - 1 - k]
    {
      NewestAreLast(own, limit, r, k);
    }
    assert r[i] in r;
    var at :| 0 <= at < |own| && own[at] == r[i];
    var k := |own| - 1 - at;
    assert k < i ==> r[k] == own[|own| - 1 - k] && Newer(r[k], r[i]);
    assert k >= i;
    var c := own[|own| - 1 - i];
    assert c in own;
    if k != i {
      assert Newer(c, r[i]);
      forall q | 0 <= q < |r|
        ensures r[q] != c
      {
        if q < i {
          assert r[q] == own[|own| - 1 - q];
        } else {
          assert q > i ==> Newer(r[i], r[q]);
        }
      }
    }
  }

  lemma NewestLength(own: seq<CheckRow>, limit: nat, r: seq<CheckRow>)
    requires Ascend(own) && NewestOf(own, limit, r)
    ensures |r| == |LastOf(own, limit)|
  {
    if |r| > 0 {
      NewestAreLast(own, limit, r, |r| - 1);
    }
    if |r| < |own| {
      var c := own[|own| - 1 - |r|];
      assert c in own;
      if c in r {
        var q :| 0 <= q < |r| && r[q] == c;
        NewestAreLast(own, limit, r, q);
      }
    }
  }

  /** `Hydrate` reverses what the query delivers. */
  function Reversed<T>(s: seq<T>): seq<T> {
    seq(|s|, i requires 0 <= i < |s| => s[|s| - 1 - i])
  }

  lemma NewestReversed(own: seq<CheckRow>, limit: nat, r: seq<CheckRow>)
    requires Ascend(own) && NewestOf(own, limit, r)
    ensures Reversed(r) == LastOf(own, limit)
  {
    NewestLength(own, limit, r);
    forall i | 0 <= i < |r|
      ensures Reversed(r)[i] == LastOf(own, limit)[i]
    {
      NewestAreLast(own, limit, r, |r| - 1 - i);
    }
  }

  /** Hydrating from rows in chronological order yields the last of them, oldest first. */
  lemma HydratedWindow(rows: seq<CheckRow>, e: nat, limit: nat, r: seq<CheckRow>)
    requires (forall a, b | 0 <= a < b < |rows| :: rows[a].id < rows[b].id) && NewestFirst(rows, e, limit, r)
    requires InOrder(Minis(ChecksOf(rows, {e})))
    ensures Minis(Reversed(r)) == LastOf(Minis(ChecksOf(rows, {e})), limit)
  {
    var own := ChecksOf(rows, {e});
    OwnRowsAscend(rows, e);
    NewestOfOwn(rows, e, limit, r);
    NewestReversed(own, limit, r);
    MinisOfLast(own, limit);
  }

  lemma NewestOfOwn(rows: seq<CheckRow>, e: nat, limit: nat, r: seq<CheckRow>)
    requires NewestFirst(rows, e, limit, r)
    ensures NewestOf(ChecksOf(rows, {e}), limit, r)
  {
  }

  lemma MinisOfLast(rows: seq<CheckRow>, k: nat)
    ensures Minis(LastOf(rows, k)) == LastOf(Minis(rows), k)
  {
  }

  lemma OwnRowsAscend(rows: seq<CheckRow>, e: nat)
    requires (forall a, b | 0 <= a < b < |rows| :: rows[a].id < rows[b].id) && InOrder(Minis(ChecksOf(rows, {e})))
    ensures Ascend(ChecksOf(rows, {e}))
  {
    ChecksOfIncreasing(rows, {e});
    var own := ChecksOf(rows, {e});
    assert forall a | 0 <= a < |own| :: Minis(own)[a].at == own[a].at;
  }

  /** Once the pipeline has drained, hydrating again would give the window the cache already holds. */
  lemma RehydrateChangesNothing(states: seq<Pipe>, steps: seq<Step>, e: nat, k: nat, r: seq<CheckRow>)
    requires IsRun(states, steps) && k < |states| && Agrees(states[k], e)
    requires MinisOf(states[k].produced, Pending(states[k]), e) == [] && InHand(states[k], e) == []
    requires NewestFirst(states[k].rows, e, WINDOW, r)
    ensures Minis(Reversed(r)) == Recent(states[k].cache, e)
  {
    RunKeeps(states, steps, k);
    assert Log(states[k], e) == Minis(ChecksOf(states[k].rows, {e}));
    HydratedWindow(states[k].rows, e, WINDOW, r);
  }
}
