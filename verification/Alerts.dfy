/** The alert state machine at the end of `check` (internal/monitor/manager.go) over unbounded check traces. */
module Alerts {
  import opened Common

  /** endpointState: the last result and how many checks in a row have failed. */
  datatype Status = Status(up: bool, fails: nat)

  datatype Alert = Down | Recovered

  /** One check as the alert logic sees it: its result and the threshold the worker was started with. */
  datatype Sample = Sample(up: bool, threshold: int)

  function Next(st: Option<Status>, up: bool): Status {
    Status(up, if up then 0 else (if st.Some? then st.value.fails else 0) + 1)
  }

  /** The very first check of an endpoint is a baseline and never alerts. */
  function Raised(st: Option<Status>, s: Sample): Option<Alert> {
    if st.None? then None
    else if s.up && !st.value.up then Some(Recovered)
    else if !s.up && Next(st, s.up).fails == s.threshold then Some(Down)
    else None
  }

  // ---- The in-memory state ----

  /** `Manager.state`.  `traces` records, per endpoint, the checks settled since its entry was created. */
  class Book {
    var state: map<nat, Status>
    ghost var traces: map<nat, seq<Sample>>

    ghost predicate Valid()
      reads this
    {
      && state.Keys == traces.Keys
      && forall e | e in state :: traces[e] != [] && StatusAfter(traces[e]) == Some(state[e])
    }

    constructor ()
      ensures Valid() && state == map[]
    {
      state := map[];
      traces := map[];
    }

    /** The locked section of `check` and the decision that follows it. */
    method Settle(e: nat, s: Sample) returns (alert: Option<Alert>)
      requires Valid()
      modifies this
      ensures Valid()
      ensures traces == old(traces)[e := (if e in old(traces) then old(traces)[e] else []) + [s]]
      ensures alert == AlertAt(traces[e], |traces[e]| - 1)
    {
      var hadLast := e in state;
      var current := if hadLast then state[e] else Status(false, 0);
      var fails := current.fails;
      if !s.up {
        fails := fails + 1;
      } else {
        fails := 0;
      }
      state := state[e := Status(s.up, fails)];
      ghost var before := if e in traces then traces[e] else [];
      traces := traces[e := before + [s]];
      assert (before + [s])[..|before|] == before;
      if !hadLast { return None; }
      if s.up && !current.up {
        return Some(Recovered);
      } else if !s.up && fails == s.threshold {
        return Some(Down);
      }
      return None;
    }

    /** `Delete` forgets the endpoint; pausing and editing leave its entry alone. */
    method Forget(e: nat)
      requires Valid()
      modifies this
      ensures Valid() && traces == old(traces) - {e} && state == old(state) - {e}
    {
      state := state - {e};
      traces := traces - {e};
    }
  }

  // ---- Traces ----

  function StatusAfter(trace: seq<Sample>): Option<Status> {
    if trace == [] then None else Some(Next(StatusAfter(trace[..|trace| - 1]), trace[|trace| - 1].up))
  }

  function AlertAt(trace: seq<Sample>, i: nat): Option<Alert>
    requires i < |trace|
  {
    Raised(StatusAfter(trace[..i]), trace[i])
  }

  /** All alerts raised along a trace, in order. */
  function AlertsOf(trace: seq<Sample>): seq<Alert> {
    if trace == [] then [] else
      var a := AlertAt(trace, |trace| - 1);
      AlertsOf(trace[..|trace| - 1]) + (if a.Some? then [a.value] else [])
  }

  ghost predicate Fixed(trace: seq<Sample>, threshold: int) {
    forall i | 0 <= i < |trace| :: trace[i].threshold == threshold
  }

  /** At least `len` checks fail from position `j` on, and the check before `j`, if any, succeeded. */
  ghost predicate FailRun(trace: seq<Sample>, j: int, len: int) {
    && 0 <= j && 0 < len && j + len <= |trace|
    && (j == 0 || trace[j - 1].up)
    && forall k | j <= k < j + len :: !trace[k].up
  }

  /** Where the maximal failure runs of length at least `len` start. */
  ghost function LongRuns(trace: seq<Sample>, len: int): set<int> {
    set j | 0 <= j < |trace| && FailRun(trace, j, len)
  }

  /** A success right after a failure. */
  predicate EndsRun(trace: seq<Sample>, i: int) {
    0 < i < |trace| && trace[i].up && !trace[i - 1].up
  }

  /** Where a failure run ends in a success. */
  ghost function Endings(trace: seq<Sample>): set<int> {
    set i | 0 <= i < |trace| && EndsRun(trace, i)
  }

  /** The stored counter is the length of the failure run the trace ends with. */
  lemma {:induction false} CounterIsTrailingRun(trace: seq<Sample>)
    requires trace != []
    ensures StatusAfter(trace).value.up == trace[|trace| - 1].up
    ensures var n := StatusAfter(trace).value.fails;
            if trace[|trace| - 1].up then n == 0 else FailRun(trace, |trace| - n, n)
  {
    var front := trace[..|trace| - 1];
    if front != [] {
      CounterIsTrailingRun(front);
      assert trace == front + [trace[|trace| - 1]];
    }
  }

  /** Two failure runs that end at the same place are the same. */
  lemma RunDetermined(trace: seq<Sample>, i: int, m: int, j: int, n: int)
    requires FailRun(trace, i, m) && FailRun(trace, j, n) && i + m == j + n
    ensures i == j
  {
  }

  /** The long runs that reach their length after the first check of the trace. */
  ghost function CountedRuns(trace: seq<Sample>, len: int): set<int> {
    set j | 0 <= j < |trace| && j + len > 1 && FailRun(trace, j, len)
  }

  /** Only length 1 makes a difference: a failing first check is a run that is never counted. */
  lemma CountedAreLong(trace: seq<Sample>, len: int)
    requires len > 0
    ensures CountedRuns(trace, len) == if len == 1 then LongRuns(trace, 1) - {0} else LongRuns(trace, len)
  {
  }

  /** Appending a check adds at most one run: the one whose required length is reached just then. */
  lemma CountedRunsStep(front: seq<Sample>, s: Sample, len: int)
    requires len > 0
    ensures |CountedRuns(front + [s], len)| ==
            |CountedRuns(front, len)| + (if front != [] && FailRun(front + [s], |front| + 1 - len, len) then 1 else 0)
  {
    var t := front + [s];
    var reached := |front| + 1 - len;
    forall j: int
      ensures j in CountedRuns(t, len) <==>
                j in CountedRuns(front, len) || (j == reached && front != [] && FailRun(t, j, len))
    {
      CountedRunsMember(front, s, len, j);
    }
    if front != [] && FailRun(t, reached, len) {
      assert CountedRuns(t, len) == CountedRuns(front, len) + {reached};
    } else {
      assert CountedRuns(t, len) == CountedRuns(front, len);
    }
  }

  lemma CountedRunsMember(front: seq<Sample>, s: Sample, len: int, j: int)
    requires len > 0
    ensures j in CountedRuns(front + [s], len) <==>
              j in CountedRuns(front, len) || (j == |front| + 1 - len && front != [] && FailRun(front + [s], j, len))
  {
    var t := front + [s];
    if j + len <= |front| {
      assert FailRun(t, j, len) <==> FailRun(front, j, len) by {
        assert forall k | 0 <= k < |front| :: t[k] == front[k];
      }
    }
  }

  ghost function CountOf(alerts: seq<Alert>, a: Alert): nat {
    multiset(alerts)[a]
  }

  lemma CountStep(front: seq<Sample>, s: Sample, a: Alert)
    ensures CountOf(AlertsOf(front + [s]), a) == CountOf(AlertsOf(front), a) +
              (if Raised(StatusAfter(front), s) == Some(a) then 1 else 0)
  {
    assert (front + [s])[..|front|] == front;
  }

  /** One more check adds one Down alert exactly when it is not the first and a run just reached the threshold. */
  lemma DownStep(trace: seq<Sample>, s: Sample)
    ensures Raised(StatusAfter(trace), s) == Some(Down) <==>
            trace != [] && s.threshold > 0 && FailRun(trace + [s], |trace| + 1 - s.threshold, s.threshold)
  {
    SomeStatus(trace);
    RaisesDown(StatusAfter(trace), s);
    if s.up {
      NoRunEndsIn(trace, s, s.threshold);
    } else {
      FailsAfter(trace, s);
    }
  }

  lemma RaisesDown(st: Option<Status>, s: Sample)
    ensures Raised(st, s) == Some(Down) <==> st.Some? && !s.up && Next(st, s.up).fails == s.threshold
  {
  }

  lemma FailsAfter(trace: seq<Sample>, s: Sample)
    requires !s.up
    ensures Next(StatusAfter(trace), s.up).fails == s.threshold <==>
              s.threshold > 0 && FailRun(trace + [s], |trace| + 1 - s.threshold, s.threshold)
  {
    var t := trace + [s];
    StatusStep(trace, s);
    assert |t| == |trace| + 1 && t[|t| - 1] == s;
    ReachedIffEqual(t, s.threshold);
  }

  lemma StatusStep(trace: seq<Sample>, s: Sample)
    ensures StatusAfter(trace + [s]) == Some(Next(StatusAfter(trace), s.up))
  {
    assert (trace + [s])[..|trace|] == trace;
  }

  lemma SomeStatus(trace: seq<Sample>)
    ensures StatusAfter(trace).Some? <==> trace != []
  {
  }

  lemma NoRunEndsIn(trace: seq<Sample>, s: Sample, len: int)
    requires s.up
    ensures !FailRun(trace + [s], |trace| + 1 - len, len)
  {
    assert (trace + [s])[|trace|].up;
  }

  /** A run that ends the trace has exactly the length the counter says. */
  lemma ReachedIffEqual(t: seq<Sample>, len: int)
    requires t != [] && !t[|t| - 1].up
    ensures StatusAfter(t).value.fails == len <==> len > 0 && FailRun(t, |t| - len, len)
  {
    CounterIsTrailingRun(t);
    var n := StatusAfter(t).value.fails;
    if len > 0 && FailRun(t, |t| - len, len) {
      RunDetermined(t, |t| - n, n, |t| - len, len);
    }
  }

  /**
   With a fixed positive threshold, the Down alerts number exactly the maximal failure runs that reach the
   threshold after the first check: all that are long enough, except a failing first check at threshold 1.
   */
  lemma {:induction false} DownAlertsCountRuns(trace: seq<Sample>, threshold: int)
    requires Fixed(trace, threshold) && threshold > 0
    ensures CountOf(AlertsOf(trace), Down) == |CountedRuns(trace, threshold)|
  {
    if trace != [] {
      var front, s := trace[..|trace| - 1], trace[|trace| - 1];
      assert trace == front + [s];
      DownAlertsCountRuns(front, threshold);
      CountStep(front, s, Down);
      DownStep(front, s);
      CountedRunsStep(front, s, threshold);
    }
  }

  /** The exception at threshold 1: an endpoint that is down from its first check on is never reported. */
  lemma FirstFailureIsSilent(n: nat)
    requires n > 0
    ensures var trace := seq(n, _ => Sample(false, 1)); AlertsOf(trace) == [] && LongRuns(trace, 1) == {0}
  {
    var trace := seq(n, _ => Sample(false, 1));
    SilentPrefix(trace, n);
    assert trace[..n] == trace;
    assert FailRun(trace, 0, 1);
  }

  lemma {:induction false} SilentPrefix(trace: seq<Sample>, k: nat)
    requires 0 < k <= |trace| && forall i | 0 <= i < |trace| :: trace[i] == Sample(false, 1)
    ensures AlertsOf(trace[..k]) == [] && StatusAfter(trace[..k]) == Some(Status(false, k))
  {
    assert trace[..k][..k - 1] == trace[..k - 1];
    if k > 1 {
      SilentPrefix(trace, k - 1);
    }
  }

  /** With threshold zero or less no Down alert is ever raised. */
  lemma {:induction false} NoDownWithoutThreshold(trace: seq<Sample>, threshold: int)
    requires Fixed(trace, threshold) && threshold <= 0
    ensures Down !in AlertsOf(trace)
  {
    if trace != [] {
      NoDownWithoutThreshold(trace[..|trace| - 1], threshold);
    }
  }

  /** Recovery alerts number exactly the failure runs that ended, whatever the thresholds. */
  lemma {:induction false} RecoveriesCountEndings(trace: seq<Sample>)
    ensures CountOf(AlertsOf(trace), Recovered) == |Endings(trace)|
  {
    if trace != [] {
      var front, s := trace[..|trace| - 1], trace[|trace| - 1];
      assert trace == front + [s];
      RecoveriesCountEndings(front);
      if front != [] {
        CounterIsTrailingRun(front);
      }
      CountStep(front, s, Recovered);
      EndingsStep(front, s);
    }
  }

  lemma EndingsStep(front: seq<Sample>, s: Sample)
    ensures |Endings(front + [s])| == |Endings(front)| +
              (if front != [] && s.up && !front[|front| - 1].up then 1 else 0)
  {
    var t := front + [s];
    forall i: int
      ensures i in Endings(t) <==> i in Endings(front) || (i == |front| && EndsRun(t, i))
    {
      assert i < |front| ==> (EndsRun(t, i) <==> EndsRun(front, i));
    }
    if EndsRun(t, |front|) {
      assert Endings(t) == Endings(front) + {|front|};
    } else {
      assert Endings(t) == Endings(front);
    }
  }

  /** With a fixed threshold, two Down alerts always have a Recovery between them. */
  lemma {:induction false} DownsAlternate(trace: seq<Sample>, threshold: int)
    requires Fixed(trace, threshold)
    ensures var alerts := AlertsOf(trace);
            && (forall i | 0 < i < |alerts| :: !(alerts[i - 1] == Down && alerts[i] == Down))
            && (alerts != [] && alerts[|alerts| - 1] == Down ==>
                  !StatusAfter(trace).value.up && StatusAfter(trace).value.fails >= threshold)
  {
    if trace != [] {
      DownsAlternate(trace[..|trace| - 1], threshold);
    }
  }

  // ---- Thresholds that change while an endpoint is down ----

  ghost function DownsIn(trace: seq<Sample>, a: nat, b: nat): set<int>
    requires b <= |trace|
  {
    set k: int | a <= k < b && AlertAt(trace, k) == Some(Down)
  }

  /** The threshold of check `k` differs from that of the check before it. */
  predicate ChangedAt(trace: seq<Sample>, k: int) {
    0 < k < |trace| && trace[k].threshold != trace[k - 1].threshold
  }

  ghost function ChangesIn(trace: seq<Sample>, a: nat, b: nat): set<int>
    requires b <= |trace|
  {
    set k: int | a < k < b && ChangedAt(trace, k)
  }

  lemma DownsInStep(trace: seq<Sample>, a: nat, k: nat)
    requires a <= k < |trace|
    ensures |DownsIn(trace, a, k + 1)| == |DownsIn(trace, a, k)| + (if AlertAt(trace, k) == Some(Down) then 1 else 0)
  {
    assert DownsIn(trace, a, k + 1) == DownsIn(trace, a, k) + (if AlertAt(trace, k) == Some(Down) then {k} else {});
  }

  lemma ChangesInStep(trace: seq<Sample>, a: nat, k: nat)
    requires a < k < |trace|
    ensures |ChangesIn(trace, a, k + 1)| == |ChangesIn(trace, a, k)| + (if ChangedAt(trace, k) then 1 else 0)
  {
    assert ChangesIn(trace, a, k + 1) == ChangesIn(trace, a, k) + (if ChangedAt(trace, k) then {k} else {});
  }

  /** Within one stretch of failures, at most one Down alert, plus one per change of the threshold. */
  lemma {:induction false} DownsPerFailureRun(trace: seq<Sample>, a: nat, b: nat)
    requires a < b <= |trace| && forall k | a <= k < b :: !trace[k].up
    ensures |DownsIn(trace, a, b)| <= 1 + |ChangesIn(trace, a, b)|
    ensures StatusAfter(trace[..b]).value.fails < trace[b - 1].threshold ==>
              |DownsIn(trace, a, b)| <= |ChangesIn(trace, a, b)|
    decreases b
  {
    var k := b - 1;
    assert trace[..b][..k] == trace[..k];
    assert !trace[k].up;
    DownsInStep(trace, a, k);
    if k == a {
      assert DownsIn(trace, a, a) == {} && ChangesIn(trace, a, b) == {};
    } else {
      DownsPerFailureRun(trace, a, k);
      ChangesInStep(trace, a, k);
    }
  }
}
