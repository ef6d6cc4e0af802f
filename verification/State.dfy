/** The dashboard cache (internal/monitor/state.go): stats objects mutated in place, handed out as copies. */
module State {
  import opened Common
  import opened Store
  import opened Pipeline
  import opened Window
  import opened Checks

  /** The contents of an EndpointStats object. */
  datatype Stats = Stats(
    lastStatus: Option<int>, lastMs: Option<int>, lastUp: Option<bool>, lastAt: Option<int>,
    recent: seq<Mini>, uptime24h: Option<real>, uptime30d: Option<real>)

  const BLANK := Stats(None, None, None, None, [], None, None)

  function Touched(s: Stats, m: Mini): Stats {
    s.(lastStatus := m.status, lastMs := Some(m.ms), lastUp := Some(m.up), lastAt := Some(m.at),
        recent := Slide(s.recent, m))
  }

  /** CalculateUptime delivers no average for an endpoint without checks in the period, or on an error. */
  function Average(averages: map<nat, real>, e: nat): Option<real> {
    if e in averages then Some(averages[e]) else None
  }

  /** What hydration makes of the newest rows, newest first. */
  function HydratedFrom(r: seq<CheckRow>, uptime: Option<real>): Stats {
    var s := if r == [] then BLANK else
        BLANK.(lastStatus := r[0].status, lastMs := Some(r[0].ms), lastUp := Some(r[0].up), lastAt := Some(r[0].at));
    s.(recent := Minis(Reversed(r)), uptime24h := uptime)
  }

  /** The stats hydration gives an endpoint. */
  ghost function HydratedStats(rows: seq<CheckRow>, e: nat, averages: map<nat, real>): Stats {
    HydratedFrom(Query(rows, e, WINDOW), Average(averages, e))
  }

  /** What startup makes of endpoint `e`; for those in `unread` the query for the newest rows fails. */
  ghost function StartStats(t: Tables, e: nat, unread: set<nat>, averages: map<nat, real>): Stats {
    if e in unread then HydratedFrom([], Average(averages, e)) else HydratedStats(t.checks, e, averages)
  }

  /** The last-check fields describe the newest entry of the window, which never exceeds fifty entries. */
  predicate Coherent(s: Stats) {
    && |s.recent| <= WINDOW
    && (s.recent == [] ==> s == BLANK.(uptime24h := s.uptime24h, uptime30d := s.uptime30d))
    && (s.recent != [] ==>
          var m := s.recent[|s.recent| - 1];
          s.lastStatus == m.status && s.lastMs == Some(m.ms) && s.lastUp == Some(m.up) && s.lastAt == Some(m.at))
  }

  lemma TouchedCoherent(s: Stats, m: Mini)
    requires Coherent(s)
    ensures Coherent(Touched(s, m)) && Touched(s, m).recent[|Touched(s, m).recent| - 1] == m
  {
  }

  /** A check replaces the last-check fields, slides the window of fifty, and leaves the averages alone. */
  lemma TouchedIs(s: Stats, m: Mini)
    requires |s.recent| <= 50
    ensures var t := Touched(s, m);
            && t.lastStatus == m.status && t.lastMs == Some(m.ms) && t.lastUp == Some(m.up) && t.lastAt == Some(m.at)
            && t.recent == (if |s.recent| < 50 then s.recent else s.recent[1..]) + [m]
            && t.uptime24h == s.uptime24h && t.uptime30d == s.uptime30d
  {
  }

  /** Hydration takes the rows in reverse, the first one for the last-check fields, and the average as delivered. */
  lemma HydratedIs(r: seq<CheckRow>, averages: map<nat, real>, e: nat)
    ensures var s := HydratedFrom(r, Average(averages, e));
            && |s.recent| == |r| && (forall i | 0 <= i < |r| :: s.recent[i] == MiniOf(r[|r| - 1 - i]))
            && s.uptime24h == (if e in averages then Some(averages[e]) else None) && s.uptime30d == None
            && if r == [] then s.lastStatus == None && s.lastMs == None && s.lastUp == None && s.lastAt == None
               else s.lastStatus == r[0].status && s.lastMs == Some(r[0].ms) && s.lastUp == Some(r[0].up)
                    && s.lastAt == Some(r[0].at)
  {
  }

  lemma HydratedCoherent(r: seq<CheckRow>, uptime: Option<real>)
    requires |r| <= WINDOW
    ensures Coherent(HydratedFrom(r, uptime))
  {
  }

  class EndpointStats {
    var lastStatus: Option<int>
    var lastMs: Option<int>
    var lastUp: Option<bool>
    var lastAt: Option<int>
    var recent: seq<Mini>
    var uptime24h: Option<real>
    var uptime30d: Option<real>

    ghost function Value(): Stats
      reads this
    {
      Stats(lastStatus, lastMs, lastUp, lastAt, recent, uptime24h, uptime30d)
    }

    constructor ()
      ensures Value() == BLANK
    {
      lastStatus, lastMs, lastUp, lastAt := None, None, None, None;
      recent, uptime24h, uptime30d := [], None, None;
    }

    method Touch(m: Mini)
      modifies this
      ensures Value() == Touched(old(Value()), m)
    {
      lastStatus := m.status;
      lastMs := Some(m.ms);
      lastUp := Some(m.up);
      lastAt := Some(m.at);
      recent := recent + [m];
      if |recent| > WINDOW {
        recent := recent[1..];
      }
    }

    /** A new object with the same contents. */
    method Clone() returns (c: EndpointStats)
      ensures fresh(c) && c.Value() == Value()
    {
      c := new EndpointStats();
      c.lastStatus := lastStatus;
      c.lastMs := lastMs;
      c.lastUp := lastUp;
      c.lastAt := lastAt;
      c.uptime24h := uptime24h;
      c.uptime30d := uptime30d;
      c.recent := recent;
    }
  }

  class StateManager {
    var state: map<nat, EndpointStats>

    /** No object serves two endpoints. */
    ghost predicate Valid()
      reads this
    {
      forall a, b | a in state && b in state && a != b :: state[a] != state[b]
    }

    ghost function Objects(): set<object>
      reads this
    {
      set e | e in state :: state[e]
    }

    ghost function View(): map<nat, Stats>
      reads this, Objects()
    {
      map e | e in state :: state[e].Value()
    }

    constructor ()
      ensures Valid() && state == map[]
    {
      state := map[];
    }

    method UpdateOnCheck(e: nat, m: Mini)
      requires Valid()
      modifies this, Objects()
      ensures Valid() && fresh(Objects() - old(Objects()))
      ensures View() == old(View())[e := Touched(if e in old(View()) then old(View())[e] else BLANK, m)]
      ensures View()[e].uptime24h == if e in old(View()) then old(View())[e].uptime24h else None
      ensures View()[e].uptime30d == if e in old(View()) then old(View())[e].uptime30d else None
    {
      var stats := Entry(e);
      TouchEntry(e, m);
    }

    method TouchEntry(e: nat, m: Mini)
      requires Valid() && e in state
      modifies state[e]
      ensures Valid() && View() == old(View())[e := Touched(old(View())[e], m)]
    {
      state[e].Touch(m);
    }

    /** The stats of `e`, blank ones if there are none yet. */
    method Entry(e: nat) returns (stats: EndpointStats)
      requires Valid()
      modifies this
      ensures Valid() && e in state && stats == state[e] && fresh(Objects() - old(Objects()))
      ensures forall x | x in old(state) :: x in state && state[x] == old(state)[x]
      ensures View() == if e in old(View()) then old(View()) else old(View())[e := BLANK]
    {
      if e in state {
        stats := state[e];
      } else {
        stats := new EndpointStats();
        state := state[e := stats];
      }
    }

    /** The caller gets a copy: later updates of the cache do not show through it. */
    method GetStats(e: nat) returns (c: EndpointStats?)
      ensures c == null <==> e !in state
      ensures c != null ==> fresh(c) && c.Value() == View()[e]
    {
      if e in state {
        c := state[e].Clone();
      } else {
        c := null;
      }
    }

    /** Copies of all stats, each its own object. */
    method GetDashboardStats() returns (copies: map<nat, EndpointStats>)
      ensures copies.Keys == state.Keys
      ensures forall e | e in copies :: fresh(copies[e]) && copies[e].Value() == View()[e]
      ensures forall a, b | a in copies && b in copies && a != b :: copies[a] != copies[b]
    {
      copies := map[];
      var todo := state.Keys;
      while todo != {}
        invariant todo <= state.Keys && copies.Keys == state.Keys - todo
        invariant forall e | e in copies :: fresh(copies[e]) && copies[e].Value() == View()[e]
        invariant forall a, b | a in copies && b in copies && a != b :: copies[a] != copies[b]
        decreases |todo|
      {
        var e :| e in todo;
        todo := todo - {e};
        var c := state[e].Clone();
        copies := copies[e := c];
      }
    }

    method Delete(e: nat)
      requires Valid()
      modifies this
      ensures Valid() && state == old(state) - {e}
    {
      state := state - {e};
    }

    /** Sets the 24 hour average of every endpoint for which the database delivers one. */
    method RefreshAverages(averages: map<nat, real>)
      requires Valid()
      modifies Objects()
      ensures Valid() && state == old(state)
      ensures forall e | e in state ::
                state[e].Value() == old(state[e].Value()).(uptime24h :=
                  if e in averages then Some(averages[e]) else old(state[e].Value()).uptime24h)
    {
      var ids := state.Keys;
      while ids != {}
        invariant ids <= state.Keys && state == old(state)
        invariant forall e | e in ids :: state[e].Value() == old(state[e].Value())
        invariant forall e | e in state.Keys - ids ::
            state[e].Value() == old(state[e].Value()).(uptime24h :=
              if e in averages then Some(averages[e]) else old(state[e].Value()).uptime24h)
        decreases |ids|
      {
        var e :| e in ids;
        ids := ids - {e};
        if Average(averages, e).Some? {
          state[e].uptime24h := Average(averages, e);
        }
      }
    }

    /** A fresh stats object with the newest rows in chronological order, or none if they cannot be read. */
    method HydrateOne(t: Tables, e: nat, unread: set<nat>, averages: map<nat, real>) returns (stats: EndpointStats)
      requires IncreasingIds(t.checks)
      ensures fresh(stats) && stats.Value() == StartStats(t, e, unread, averages)
    {
      stats := new EndpointStats();
      var newest: seq<CheckRow> := [];
      if e !in unread {
        newest := GetChecksByEndpoint(t.checks, e, WINDOW);
      }
      if newest != [] {
        for i := |newest| downto 0
          invariant stats.recent == Minis(Reversed(newest))[..|newest| - i]
          invariant stats.Value() == BLANK.(recent := stats.recent)
        {
          stats.recent := stats.recent + [MiniOf(newest[i])];
        }
        assert stats.recent == Minis(Reversed(newest));
        var latest := newest[0];
        stats.lastStatus := latest.status;
        stats.lastMs := Some(latest.ms);
        stats.lastUp := Some(latest.up);
        stats.lastAt := Some(latest.at);
      }
      stats.uptime24h := Average(averages, e);
    }

    /** Fills the cache for the unpaused endpoints from the database; entries of other endpoints stay. */
    method Hydrate(t: Tables, unread: set<nat>, averages: map<nat, real>, reliable: bool) returns (ok: bool)
      requires Valid() && IncreasingIds(t.checks)
      modifies this
      ensures Valid() && (reliable ==> ok) && (!ok ==> state == old(state))
      ensures ok ==> forall e :: e in state <==> e in old(state) || e in ActiveIds(t)
      ensures ok ==> forall e | e in ActiveIds(t) ::
                fresh(state[e]) && state[e].Value() == StartStats(t, e, unread, averages)
      ensures ok ==> forall e | e in old(state) && e !in ActiveIds(t) :: state[e] == old(state)[e]
    {
      if * { if !reliable { return false; } }
      var active := ActiveIds(t);
      var todo := active;
      while todo != {}
        invariant Valid() && todo <= active
        invariant forall e :: e in state <==> e in old(state) || (e in active && e !in todo)
        invariant forall e | e in active && e !in todo ::
            fresh(state[e]) && state[e].Value() == StartStats(t, e, unread, averages)
        invariant forall e | e in old(state) && (e !in active || e in todo) :: state[e] == old(state)[e]
        decreases |todo|
      {
        var e :| e in todo;
        todo := todo - {e};
        var stats := HydrateOne(t, e, unread, averages);
        state := state[e := stats];
      }
      return true;
    }
  }

  /** Hydration restores the cached window of an endpoint whose pipeline has drained, and its last status with it. */
  lemma HydrationRestoresCache(states: seq<Pipe>, steps: seq<Step>, e: nat, k: nat, averages: map<nat, real>)
    requires IsRun(states, steps) && k < |states| && Agrees(states[k], e)
    requires MinisOf(states[k].produced, Pending(states[k]), e) == [] && InHand(states[k], e) == []
    ensures HydratedStats(states[k].rows, e, averages).recent == Recent(states[k].cache, e)
    ensures Coherent(HydratedStats(states[k].rows, e, averages))
  {
    RunKeeps(states, steps, k);
    QueryAnswers(states[k].rows, e, WINDOW);
    RehydrateChangesNothing(states, steps, e, k, Query(states[k].rows, e, WINDOW));
    HydratedCoherent(Query(states[k].rows, e, WINDOW), Average(averages, e));
  }
}
