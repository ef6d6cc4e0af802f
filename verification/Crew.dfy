/**
 Workers and pipeline together (internal/monitor/manager.go): a worker performs one `check` at a time, on its
 own endpoint, and a cancelled worker finishes the one it is in.  So checks of an endpoint overlap only while
 two of its workers are about.
 */
module Crew {
  import opened Store
  import opened Pipeline
  import opened Window
  import F = Fleet

  /** `owner` tells which worker performs each `check` call in flight. */
  datatype Crew = Crew(fleet: F.Fleet, pipe: Pipe, owner: map<nat, nat>)

  /** A request or shutdown acts on the workers; a worker begins a check; or the pipeline moves on. */
  datatype Move = Manage(how: F.Step) | Begin(worker: nat, mini: Mini) | Work(step: Step)

  predicate Able(c: Crew, m: Move) {
    match m
    case Manage(how) => F.Enabled(c.fleet, how)
    case Begin(w, _) => w < |c.fleet.workers| && w !in c.owner.Values
    case Work(s) => !s.Produce? && Enabled(c.pipe, s)
  }

  function Done(c: Crew, m: Move): Crew
    requires Able(c, m)
  {
    match m
    case Manage(how) => c.(fleet := F.Apply(c.fleet, how))
    case Begin(w, mini) =>
      c.(pipe := Apply(c.pipe, Produce(Check(c.fleet.workers[w].endpoint, mini))),
         owner := c.owner[|c.pipe.produced| := w])
    case Work(s) =>
      c.(pipe := Apply(c.pipe, s), owner := if s.Finish? then c.owner - {s.no} else c.owner)
  }

  /** Check `n` is performed by a worker of its endpoint. */
  predicate Performs(c: Crew, n: nat) {
    && n in c.owner && c.owner[n] < |c.fleet.workers| && n < |c.pipe.produced|
    && c.pipe.produced[n].endpoint == c.fleet.workers[c.owner[n]].endpoint
  }

  /** Exactly the calls in flight have a worker, the right one, and no worker has two. */
  ghost predicate Staffed(c: Crew) {
    && (forall n :: n in c.owner <==> n in c.pipe.hands)
    && (forall n | n in c.owner :: Performs(c, n))
    && (forall m, n | m in c.owner && n in c.owner && c.owner[m] == c.owner[n] :: m == n)
  }

  ghost predicate CrewInv(c: Crew) {
    Conserved(c.pipe) && F.FleetInv(c.fleet) && Staffed(c)
  }

  lemma WorkersStay(f: F.Fleet, how: F.Step, w: nat)
    requires F.Enabled(f, how) && w < |f.workers|
    ensures w < |F.Apply(f, how).workers| && F.Apply(f, how).workers[w].endpoint == f.workers[w].endpoint
  {
  }

  lemma ManageKeeps(c: Crew, how: F.Step)
    requires CrewInv(c) && F.Enabled(c.fleet, how)
    ensures CrewInv(Done(c, Manage(how)))
  {
    F.StepKeepsInv(c.fleet, how);
    forall n | n in c.owner
      ensures Performs(Done(c, Manage(how)), n)
    {
      assert Performs(c, n);
      WorkersStay(c.fleet, how, c.owner[n]);
    }
  }

  lemma BeginKeeps(c: Crew, w: nat, mini: Mini)
    requires CrewInv(c) && Able(c, Begin(w, mini))
    ensures CrewInv(Done(c, Begin(w, mini)))
  {
    StepConserves(c.pipe, Produce(Check(c.fleet.workers[w].endpoint, mini)));
    BeginStaffs(c, w, mini);
  }

  lemma BeginStaffs(c: Crew, w: nat, mini: Mini)
    requires Staffed(c) && Able(c, Begin(w, mini))
    ensures Staffed(Done(c, Begin(w, mini)))
  {
    var d := Done(c, Begin(w, mini));
    forall n | n in d.owner
      ensures Performs(d, n)
    {
      assert n in c.owner ==> Performs(c, n);
    }
    assert forall n | n in c.owner :: c.owner[n] in c.owner.Values;
  }

  lemma WorkKeeps(c: Crew, s: Step)
    requires CrewInv(c) && Able(c, Work(s))
    ensures CrewInv(Done(c, Work(s)))
  {
    StepConserves(c.pipe, s);
    WorkStaffs(c, s);
  }

  lemma WorkStaffs(c: Crew, s: Step)
    requires Staffed(c) && Able(c, Work(s))
    ensures Staffed(Done(c, Work(s)))
  {
    var d := Done(c, Work(s));
    assert d.pipe.produced == c.pipe.produced;
    forall n | n in d.owner
      ensures Performs(d, n)
    {
      assert Performs(c, n);
    }
  }

  lemma MoveKeepsInv(c: Crew, m: Move)
    requires CrewInv(c) && Able(c, m)
    ensures CrewInv(Done(c, m))
  {
    match m
    case Manage(how) => ManageKeeps(c, how);
    case Begin(w, mini) => BeginKeeps(c, w, mini);
    case Work(s) => WorkKeeps(c, s);
  }

  ghost predicate IsCrewRun(states: seq<Crew>, moves: seq<Move>) {
    && |states| == |moves| + 1
    && states[0].fleet == F.IDLE && Initial(states[0].pipe) && states[0].owner == map[]
    && forall i | 0 <= i < |moves| :: Moves(states, moves, i)
  }

  ghost predicate Moves(states: seq<Crew>, moves: seq<Move>, i: nat)
    requires |states| == |moves| + 1 && i < |moves|
  {
    Able(states[i], moves[i]) && states[i + 1] == Done(states[i], moves[i])
  }

  lemma {:induction false} CrewRunKeepsInv(states: seq<Crew>, moves: seq<Move>, i: nat)
    requires IsCrewRun(states, moves) && i < |states|
    ensures CrewInv(states[i])
  {
    if i > 0 {
      CrewRunKeepsInv(states, moves, i - 1);
      assert Moves(states, moves, i - 1);
      MoveKeepsInv(states[i - 1], moves[i - 1]);
    }
  }

  // ---- When checks do not overlap ----

  /** At most one worker of `e` is live, and none that is not live is still in a check. */
  ghost predicate Alone(c: Crew, e: nat) {
    && |F.LiveFor(c.fleet, e)| <= 1
    && forall n | n in c.owner && Performs(c, n) && c.pipe.produced[n].endpoint == e :: F.Live(c.fleet, c.owner[n])
  }

  /** Then `e` has at most one check in flight, in whatever phase. */
  lemma AloneMeansOne(c: Crew, e: nat, m: nat, n: nat)
    requires CrewInv(c) && Alone(c, e) && m in c.pipe.hands && n in c.pipe.hands
    requires m < |c.pipe.produced| && c.pipe.produced[m].endpoint == e
    requires n < |c.pipe.produced| && c.pipe.produced[n].endpoint == e
    ensures m == n
  {
    assert Performs(c, m) && Performs(c, n);
    F.AtMostOneIff(F.LiveFor(c.fleet, e));
    assert c.owner[m] in F.LiveFor(c.fleet, e) && c.owner[n] in F.LiveFor(c.fleet, e);
  }

  lemma NoOverlap(states: seq<Crew>, moves: seq<Move>, i: nat, e: nat)
    requires IsCrewRun(states, moves) && i < |states| && Alone(states[i], e)
    ensures OneAtATime(states[i].pipe, e)
  {
    CrewRunKeepsInv(states, moves, i);
    var c := states[i];
    forall m: nat, n: nat | InHandOf(c.pipe, e, m) && InHandOf(c.pipe, e, n)
      ensures m == n
    {
      AloneMeansOne(c, e, m, n);
    }
  }

  /** Nothing goes wrong for `e` in this move; that its checks do not overlap is not part of it. */
  ghost predicate Calm(c: Crew, m: Move, e: nat) {
    m.Work? ==>
      match m.step
      case UpdateCache(n) => n < |c.pipe.produced| && c.pipe.produced[n].endpoint == e ==>
        forall i | 0 <= i < |Log(c.pipe, e)| :: Log(c.pipe, e)[i].at <= c.pipe.produced[n].mini.at
      case s => Smooth(c.pipe, s, e)
  }

  lemma CalmIsSmooth(c: Crew, s: Step, e: nat)
    requires CrewInv(c) && Alone(c, e) && Able(c, Work(s)) && Calm(c, Work(s), e)
    ensures Smooth(c.pipe, s, e)
  {
    if s.UpdateCache? && c.pipe.produced[s.no].endpoint == e {
      forall m: nat
        ensures !InHandOf(c.pipe, e, m)
      {
        if InHandOf(c.pipe, e, m) {
          AloneMeansOne(c, e, m, s.no);
        }
      }
    }
  }

  /** In each of the moves `from` to `k` one worker at a time looks after `e` and nothing else goes wrong for it. */
  ghost predicate Undisturbed(states: seq<Crew>, moves: seq<Move>, e: nat, from: nat, k: nat)
    requires |states| == |moves| + 1 && k <= |moves|
  {
    from < k ==>
      Undisturbed(states, moves, e, from, k - 1) && Alone(states[k - 1], e) && Calm(states[k - 1], moves[k - 1], e)
  }

  /** In each of the states `from` to `k` the cached window agrees with the database. */
  ghost predicate AgreesThroughout(states: seq<Crew>, e: nat, from: nat, k: nat)
    requires from <= k < |states|
  {
    Agrees(states[k].pipe, e) && (from < k ==> AgreesThroughout(states, e, from, k - 1))
  }

  /**
   As long as one worker at a time looks after the endpoint, its cached window is the last fifty entries of rows,
   writer's check, channel and worker's check, whatever the other workers and the requests do.
   */
  lemma {:induction false} CrewKeepsAgreement(states: seq<Crew>, moves: seq<Move>, e: nat, from: nat, k: nat)
    requires IsCrewRun(states, moves) && from <= k < |states|
    requires Agrees(states[from].pipe, e) && Undisturbed(states, moves, e, from, k)
    ensures AgreesThroughout(states, e, from, k)
    decreases k
  {
    if from < k {
      CrewKeepsAgreement(states, moves, e, from, k - 1);
      CrewMoveKeeps(states, moves, e, from, k);
    }
  }

  lemma CrewMoveKeeps(states: seq<Crew>, moves: seq<Move>, e: nat, from: nat, k: nat)
    requires IsCrewRun(states, moves) && from < k < |states|
    ensures AgreesThroughout(states, e, from, k - 1) && Undisturbed(states, moves, e, from, k) ==>
              AgreesThroughout(states, e, from, k)
  {
    NextCrewAgrees(states, moves, k - 1, e);
  }

  lemma NextCrewAgrees(states: seq<Crew>, moves: seq<Move>, i: nat, e: nat)
    requires IsCrewRun(states, moves) && i < |moves|
    ensures Alone(states[i], e) && Calm(states[i], moves[i], e) && Agrees(states[i].pipe, e) ==>
              Agrees(states[i + 1].pipe, e)
  {
    var c, m, d := states[i], moves[i], states[i + 1];
    NextCrew(states, moves, i);
    MoveKeepsAgreement(c, m, d, e);
  }

  lemma NextCrew(states: seq<Crew>, moves: seq<Move>, i: nat)
    requires IsCrewRun(states, moves) && i < |moves|
    ensures CrewInv(states[i]) && Able(states[i], moves[i]) && states[i + 1] == Done(states[i], moves[i])
  {
    CrewRunKeepsInv(states, moves, i);
    assert Moves(states, moves, i);
  }

  lemma MoveKeepsAgreement(c: Crew, m: Move, d: Crew, e: nat)
    requires CrewInv(c) && Able(c, m) && d == Done(c, m)
    ensures Alone(c, e) && Calm(c, m, e) && Agrees(c.pipe, e) ==> Agrees(d.pipe, e)
  {
    if Alone(c, e) && Calm(c, m, e) && Agrees(c.pipe, e) {
      CalmMoveKeeps(c, m, e);
    }
  }

  lemma CalmMoveKeeps(c: Crew, m: Move, e: nat)
    requires CrewInv(c) && Able(c, m) && Alone(c, e) && Calm(c, m, e) && Agrees(c.pipe, e)
    ensures Agrees(Done(c, m).pipe, e)
  {
    match m
    case Manage(_) =>
    case Begin(w, mini) => StepKeepsAgreement(c.pipe, Produce(Check(c.fleet.workers[w].endpoint, mini)), e);
    case Work(s) =>
      CalmIsSmooth(c, s, e);
      StepKeepsAgreement(c.pipe, s, e);
  }
}
