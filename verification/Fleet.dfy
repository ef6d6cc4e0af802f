/**
 The worker registry of internal/monitor/manager.go as a step machine.  Each critical section of `mu` is one
 step; `kill` is two, because it cancels only after releasing the lock.  API handlers, the startup loop and
 shutdown may interleave these steps in any way.
 */
module Fleet {
  import opened Store

  /** A goroutine started by `spawn`, with its copy of the endpoint's columns. */
  datatype Worker = Worker(endpoint: nat, fields: EndpointFields, cancelled: bool)

  /** `kills` maps each `kill` call that is between its unlock and its cancel to the worker it holds. */
  datatype Fleet = Fleet(workers: seq<Worker>, registry: map<nat, nat>, kills: map<nat, nat>, stopped: bool)

  datatype Step = Spawn(id: nat, fields: EndpointFields) | Unlock(call: nat, id: nat) | Cancel(call: nat) | Stop

  const IDLE := Fleet([], map[], map[], false)

  predicate Enabled(f: Fleet, s: Step) {
    match s
    case Spawn(_, _) => true
    case Unlock(call, _) => call !in f.kills
    case Cancel(call) => call in f.kills && f.kills[call] < |f.workers|
    case Stop => true
  }

  function Apply(f: Fleet, s: Step): Fleet
    requires Enabled(f, s)
  {
    match s
    case Spawn(id, fields) =>
      if id in f.registry then f
      else f.(workers := f.workers + [Worker(id, fields, false)], registry := f.registry[id := |f.workers|])
    case Unlock(call, id) =>
      if id in f.registry then f.(registry := f.registry - {id}, kills := f.kills[call := f.registry[id]])
      else f
    case Cancel(call) =>
      var w := f.kills[call];
      f.(workers := f.workers[w := f.workers[w].(cancelled := true)], kills := f.kills - {call})
    case Stop => f.(stopped := true)
  }

  /** The worker's context is not cancelled: neither by its own `kill` nor by stopping the manager. */
  predicate Live(f: Fleet, w: nat) {
    w < |f.workers| && !f.stopped && !f.workers[w].cancelled
  }

  predicate Registered(f: Fleet, w: nat) {
    w < |f.workers| && f.workers[w].endpoint in f.registry && f.registry[f.workers[w].endpoint] == w
  }

  ghost predicate Held(f: Fleet, w: nat) {
    exists call :: call in f.kills && f.kills[call] == w
  }

  /** Every uncancelled worker is registered or held by exactly one pending kill, never both. */
  ghost predicate FleetInv(f: Fleet) {
    && (forall id | id in f.registry :: f.registry[id] < |f.workers| && f.workers[f.registry[id]].endpoint == id
                                        && !f.workers[f.registry[id]].cancelled)
    && (forall call | call in f.kills :: f.kills[call] < |f.workers| && !f.workers[f.kills[call]].cancelled
                                         && !Registered(f, f.kills[call]))
    && (forall a, b | a in f.kills && b in f.kills && f.kills[a] == f.kills[b] :: a == b)
    && (forall w: nat | w < |f.workers| && !f.workers[w].cancelled :: Registered(f, w) || Held(f, w))
  }

  lemma SpawnKeepsInv(f: Fleet, id: nat, fields: EndpointFields)
    requires FleetInv(f)
    ensures FleetInv(Apply(f, Spawn(id, fields)))
  {
    var g := Apply(f, Spawn(id, fields));
    forall w: nat | w < |g.workers| && !g.workers[w].cancelled
      ensures Registered(g, w) || Held(g, w)
    {
      assert w < |f.workers| ==> Registered(f, w) || Held(f, w);
    }
  }

  lemma UnlockKeepsInv(f: Fleet, call: nat, id: nat)
    requires FleetInv(f) && call !in f.kills
    ensures FleetInv(Apply(f, Unlock(call, id)))
  {
    forall w: nat | w < |f.workers| && !f.workers[w].cancelled
      ensures Registered(Apply(f, Unlock(call, id)), w) || Held(Apply(f, Unlock(call, id)), w)
    {
      assert Registered(f, w) || Held(f, w);
      UnlockKeepsWorker(f, call, id, w);
    }
  }

  lemma UnlockKeepsWorker(f: Fleet, call: nat, id: nat, w: nat)
    requires call !in f.kills && (Registered(f, w) || Held(f, w))
    ensures Registered(Apply(f, Unlock(call, id)), w) || Held(Apply(f, Unlock(call, id)), w)
  {
    var g := Apply(f, Unlock(call, id));
    if Held(f, w) {
      var c :| c in f.kills && f.kills[c] == w;
      assert c in g.kills;
    } else if id == f.workers[w].endpoint {
      assert call in g.kills && g.kills[call] == w;
    }
  }

  lemma CancelKeepsInv(f: Fleet, call: nat)
    requires FleetInv(f) && call in f.kills
    ensures FleetInv(Apply(f, Cancel(call)))
  {
    var g := Apply(f, Cancel(call));
    var dead := f.kills[call];
    forall w: nat | w < |g.workers| && !g.workers[w].cancelled
      ensures Registered(g, w) || Held(g, w)
    {
      assert w != dead && (Registered(f, w) || Held(f, w));
      if Held(f, w) {
        var c :| c in f.kills && f.kills[c] == w;
        assert c in g.kills;
      }
    }
    assert forall w: nat :: Registered(g, w) <==> Registered(f, w);
  }

  lemma StepKeepsInv(f: Fleet, s: Step)
    requires FleetInv(f) && Enabled(f, s)
    ensures FleetInv(Apply(f, s))
  {
    match s
    case Spawn(id, fields) => SpawnKeepsInv(f, id, fields);
    case Unlock(call, id) => UnlockKeepsInv(f, call, id);
    case Cancel(call) => CancelKeepsInv(f, call);
    case Stop =>
      assert forall w: nat :: Held(f, w) ==> Held(Apply(f, s), w);
  }

  /** A run: one more state than steps, from the idle fleet, each step enabled where it is taken. */
  ghost predicate IsRun(states: seq<Fleet>, steps: seq<Step>) {
    && |states| == |steps| + 1
    && states[0] == IDLE
    && forall i | 0 <= i < |steps| :: Enabled(states[i], steps[i]) && states[i + 1] == Apply(states[i], steps[i])
  }

  lemma {:induction false} RunKeepsInv(states: seq<Fleet>, steps: seq<Step>, i: nat)
    requires IsRun(states, steps) && i < |states|
    ensures FleetInv(states[i])
  {
    if i > 0 {
      RunKeepsInv(states, steps, i - 1);
      StepKeepsInv(states[i - 1], steps[i - 1]);
    }
  }

  lemma {:induction false} StoppedStays(states: seq<Fleet>, steps: seq<Step>, i: nat)
    requires IsRun(states, steps) && i < |states|
    ensures states[i].stopped <==> Stop in steps[..i]
  {
    if i > 0 {
      StoppedStays(states, steps, i - 1);
      assert steps[..i] == steps[..i - 1] + [steps[i - 1]];
      assert states[i] == Apply(states[i - 1], steps[i - 1]);
    }
  }

  ghost function LiveFor(f: Fleet, e: nat): set<nat> {
    set w: nat | w < |f.workers| && Live(f, w) && f.workers[w].endpoint == e
  }

  ghost function KillsFor(f: Fleet, e: nat): set<nat> {
    set call | call in f.kills && f.kills[call] < |f.workers| && f.workers[f.kills[call]].endpoint == e
  }

  lemma HeldMeansPending(f: Fleet, w: nat)
    requires w < |f.workers| && Held(f, w)
    ensures exists call :: call in KillsFor(f, f.workers[w].endpoint) && f.kills[call] == w
  {
    var call :| call in f.kills && f.kills[call] == w;
    assert call in KillsFor(f, f.workers[w].endpoint);
  }

  /** The workers that should be live: the ones held by pending kills and the registered one. */
  ghost function Expected(f: Fleet, e: nat): nat {
    |KillsFor(f, e)| + (if e in f.registry then 1 else 0)
  }

  /**
   In every reachable state an endpoint has exactly one live worker per pending kill of it, and one more when
   it is registered, that one being the registered worker; once the manager is stopped, none is live.
   */
  lemma LiveWorkersAreCounted(states: seq<Fleet>, steps: seq<Step>, i: nat, e: nat)
    requires IsRun(states, steps) && i < |states|
    ensures |LiveFor(states[i], e)| == if Stop in steps[..i] then 0 else Expected(states[i], e)
    ensures Stop !in steps[..i] && e in states[i].registry ==> states[i].registry[e] in LiveFor(states[i], e)
  {
    RunKeepsInv(states, steps, i);
    StoppedStays(states, steps, i);
    if states[i].stopped {
      assert LiveFor(states[i], e) == {};
    } else {
      LiveAreExpected(states[i], e);
    }
  }

  lemma LiveAreExpected(f: Fleet, e: nat)
    requires FleetInv(f) && !f.stopped
    ensures |LiveFor(f, e)| == Expected(f, e)
    ensures e in f.registry ==> f.registry[e] in LiveFor(f, e)
  {
    var held := HeldWorkers(f, KillsFor(f, e));
    HeldCount(f, KillsFor(f, e));
    forall w: nat
      ensures w in LiveFor(f, e) <==> w in held || (e in f.registry && f.registry[e] == w)
    {
      LiveIsExpected(f, e, w);
    }
    if e in f.registry {
      RegisteredIsNotHeld(f, e);
      assert LiveFor(f, e) == held + {f.registry[e]};
    } else {
      assert LiveFor(f, e) == held;
    }
  }

  lemma RegisteredIsNotHeld(f: Fleet, e: nat)
    requires FleetInv(f) && e in f.registry
    ensures f.registry[e] !in HeldWorkers(f, KillsFor(f, e))
  {
    assert Registered(f, f.registry[e]);
  }

  lemma LiveIsExpected(f: Fleet, e: nat, w: nat)
    requires FleetInv(f) && !f.stopped
    ensures w in LiveFor(f, e) <==> w in HeldWorkers(f, KillsFor(f, e)) || (e in f.registry && f.registry[e] == w)
  {
    if w in LiveFor(f, e) && Held(f, w) {
      HeldMeansPending(f, w);
    }
  }

  ghost function HeldWorkers(f: Fleet, calls: set<nat>): set<nat>
    requires calls <= f.kills.Keys
  {
    set call | call in calls :: f.kills[call]
  }

  /** No two pending kills hold the same worker. */
  lemma {:induction false} HeldCount(f: Fleet, calls: set<nat>)
    requires FleetInv(f) && calls <= f.kills.Keys
    ensures |HeldWorkers(f, calls)| == |calls|
    decreases |calls|
  {
    if calls != {} {
      var call :| call in calls;
      HeldCount(f, calls - {call});
      assert HeldWorkers(f, calls) == HeldWorkers(f, calls - {call}) + {f.kills[call]};
    }
  }

  /** When an endpoint is checked by at most one worker: stopped, or registered or being killed, but not both. */
  lemma OneWorkerIff(states: seq<Fleet>, steps: seq<Step>, i: nat, e: nat)
    requires IsRun(states, steps) && i < |states|
    ensures (forall v, w | v in LiveFor(states[i], e) && w in LiveFor(states[i], e) :: v == w) <==>
              Stop in steps[..i] || |KillsFor(states[i], e)| + (if e in states[i].registry then 1 else 0) <= 1
  {
    LiveWorkersAreCounted(states, steps, i, e);
    AtMostOneIff(LiveFor(states[i], e));
  }

  lemma AtMostOneIff(s: set<nat>)
    ensures (forall v, w | v in s && w in s :: v == w) <==> |s| <= 1
  {
    if s != {} {
      var v :| v in s;
      assert s == {v} + (s - {v});
      if |s| <= 1 {
        assert |s - {v}| == 0;
      } else {
        var w :| w in s - {v};
      }
    }
  }

  /**
   A run in which the condition fails: when a request adds an endpoint between the unlock and the cancel of a
   `kill`, two workers check the same endpoint until the kill goes on.
   */
  lemma TwoWorkersMayOverlap(e: nat, fields: EndpointFields)
    ensures exists states, steps :: IsRun(states, steps) && |states| == 4 && LiveFor(states[3], e) == {0, 1}
  {
    var steps := [Spawn(e, fields), Unlock(0, e), Spawn(e, fields)];
    var w := Worker(e, fields, false);
    var states := [IDLE, Fleet([w], map[e := 0], map[], false), Fleet([w], map[], map[0 := 0], false),
                   Fleet([w, w], map[e := 1], map[0 := 0], false)];
    assert Apply(states[0], steps[0]) == states[1];
    assert Apply(states[1], steps[1]) == states[2];
    assert Apply(states[2], steps[2]) == states[3];
    assert IsRun(states, steps);
    assert LiveFor(states[3], e) == {0, 1};
  }

  // ---- The ticker period ----

  const NANOS_PER_SECOND := 1_000_000_000
  const MAX_SECONDS := 9_223_372_036

  /** The two's complement value of the low 64 bits. */
  function Int64(x: int): int {
    var low := x % 0x1_0000_0000_0000_0000;
    if low < 0x8000_0000_0000_0000 then low else low - 0x1_0000_0000_0000_0000
  }

  /** time.Duration(seconds) * time.Second; `time.NewTicker` panics unless it is positive. */
  function TickerPeriod(seconds: int): int {
    Int64(seconds * NANOS_PER_SECOND)
  }

  /** The worker ticks at its configured interval exactly when that interval is positive and fits. */
  lemma TickerPeriodIsRight(seconds: int)
    ensures 0 < TickerPeriod(seconds) == seconds * NANOS_PER_SECOND <==> 0 < seconds <= MAX_SECONDS
    ensures 0 < TickerPeriod(seconds) == seconds * 1_000_000_000 <==> 0 < seconds <= 9_223_372_036
  {
  }

  /** One second more than the bound already wraps to a negative period. */
  lemma TickerPeriodWraps()
    ensures TickerPeriod(MAX_SECONDS + 1) < 0
  {
    assert (MAX_SECONDS + 1) * NANOS_PER_SECOND == 9_223_372_037_000_000_000;
  }
}
