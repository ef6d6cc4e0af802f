/** The check history (internal/db/check.go): recording, batches, queries and cleanup. */
module Checks {
  import opened Common
  import opened Store
  import opened Window

  // ---- Recording ----

  /** `after` is `before` with one row per check of `cs` appended, in order, under fresh increasing ids. */
  ghost predicate Appended(before: Tables, cs: seq<Check>, after: Tables) {
    && after == before.(checks := after.checks, nextCheck := after.nextCheck)
    && |after.checks| == |before.checks| + |cs|
    && before.checks <= after.checks
    && before.nextCheck <= after.nextCheck
    && (forall i | |before.checks| <= i < |after.checks| ::
          && after.checks[i] == RowOf(cs[i - |before.checks|], after.checks[i].id)
          && before.nextCheck <= after.checks[i].id < after.nextCheck)
    && (forall i, j | |before.checks| <= i < j < |after.checks| :: after.checks[i].id < after.checks[j].id)
  }

  predicate Known(t: Tables, cs: seq<Check>) {
    forall j | 0 <= j < |cs| :: cs[j].endpoint in t.endpoints.rows
  }

  lemma AppendedInv(before: Tables, cs: seq<Check>, after: Tables)
    requires Inv(before) && Known(before, cs) && Appended(before, cs, after)
    ensures Inv(after)
  {
    var n := |before.checks|;
    assert forall i | 0 <= i < n :: after.checks[i] == before.checks[i];
    assert forall i | n <= i < |after.checks| :: after.checks[i].endpoint == cs[i - n].endpoint;
  }

  lemma AppendedTwice(a: Tables, cs: seq<Check>, b: Tables, ds: seq<Check>, c: Tables)
    requires Appended(a, cs, b) && Appended(b, ds, c)
    ensures Appended(a, cs + ds, c)
  {
    var n, m := |a.checks|, |b.checks|;
    assert forall i | 0 <= i < m :: c.checks[i] == b.checks[i];
    assert forall i | n <= i < m :: c.checks[i] == RowOf((cs + ds)[i - n], c.checks[i].id);
    assert forall i | m <= i < |c.checks| :: c.checks[i] == RowOf((cs + ds)[i - n], c.checks[i].id);
  }

  /** One INSERT: fails when the endpoint is gone. */
  method InsertCheck(t: Tables, c: Check) returns (ok: bool, t': Tables, id: nat)
    ensures ok <==> c.endpoint in t.endpoints.rows
    ensures ok ==> Appended(t, [c], t') && t'.checks[|t.checks|].id == id
    ensures !ok ==> t' == t
  {
    id := 0;
    if c.endpoint !in t.endpoints.rows { return false, t, id; }
    var gap: int :| gap >= 0;
    id := t.nextCheck + gap;
    return true, t.(checks := t.checks + [RowOf(c, id)], nextCheck := id + 1), id;
  }

  /** `id` is what the check object learns: the id of its row. */
  method RecordCheck(db: DB, c: Check, reliable: bool) returns (ok: bool, id: nat)
    modifies db
    ensures ok ==> c.endpoint in old(db.tables).endpoints.rows && Appended(old(db.tables), [c], db.tables)
    ensures ok ==> db.tables.checks == old(db.tables).checks + [RowOf(c, id)]
    ensures !ok ==> db.tables == old(db.tables)
    ensures reliable ==> (ok <==> c.endpoint in old(db.tables).endpoints.rows)
  {
    id := 0;
    if * { if !reliable { return false, id; } }
    var t;
    ok, t, id := InsertCheck(db.tables, c);
    db.tables := t;
  }

  // ---- Batches ----

  const BATCH := 100

  /** A bound statement parameter. */
  datatype Value = Endpoint(e: nat) | StatusCode(code: Option<int>) | Millis(ms: int) | IsUp(up: bool) |
      CheckedAt(at: int)

  /** The row that a placeholder group `(?, ?, ?, ?, ?)` binds to parameters 5j to 5j + 4. */
  function BoundRow(values: seq<Value>, j: nat): Option<Check> {
    if 5 * j + 4 < |values| && values[5 * j].Endpoint? && values[5 * j + 1].StatusCode? && values[5 * j + 2].Millis?
       && values[5 * j + 3].IsUp? && values[5 * j + 4].CheckedAt?
    then Some(Check(values[5 * j].e, Mini(values[5 * j + 3].up, values[5 * j + 4].at, values[5 * j + 1].code,
        values[5 * j + 2].ms)))
    else None
  }

  /** The parameters bind exactly the rows of `cs`, in order, with nothing left over. */
  ghost predicate Binds(values: seq<Value>, cs: seq<Check>) {
    |values| == 5 * |cs| && forall j | 0 <= j < |cs| :: BoundRow(values, j) == Some(cs[j])
  }

  /** Lays out the parameters of one chunk in an array, five per check. */
  method BindChunk(chunk: seq<Check>) returns (values: array<Value>)
    ensures fresh(values) && Binds(values[..], chunk)
  {
    values := new Value[|chunk| * 5](_ => Millis(0));
    for j := 0 to |chunk|
      invariant forall k | 0 <= k < j :: BoundRow(values[..], k) == Some(chunk[k])
    {
      var c := chunk[j];
      ghost var before := values[..];
      values[j * 5] := Endpoint(c.endpoint);
      values[j * 5 + 1] := StatusCode(c.mini.status);
      values[j * 5 + 2] := Millis(c.mini.ms);
      values[j * 5 + 3] := IsUp(c.mini.up);
      values[j * 5 + 4] := CheckedAt(c.mini.at);
      assert BoundRow(values[..], j) == Some(c);
      forall k | 0 <= k < j
        ensures BoundRow(values[..], k) == Some(chunk[k])
      {
        assert BoundRow(before, k) == Some(chunk[k]);
      }
    }
  }

  /** INSERT ... VALUES with one placeholder group per row; it fails as a whole. */
  method InsertRows(t: Tables, groups: nat, values: seq<Value>, ghost cs: seq<Check>) returns (ok: bool, t': Tables)
    requires groups == |cs| && Binds(values, cs)
    ensures ok <==> Known(t, cs)
    ensures ok ==> Appended(t, cs, t')
  {
    t' := t;
    for j := 0 to groups
      invariant Known(t, cs[..j])
      invariant Appended(t, cs[..j], t')
    {
      var row := BoundRow(values, j);
      assert row == Some(cs[j]);
      ghost var before := t';
      var one, id;
      one, t', id := InsertCheck(t', row.value);
      if !one {
        assert cs[j].endpoint !in t.endpoints.rows;
        return false, t';
      }
      AppendedTwice(t, cs[..j], before, [cs[j]], t');
      assert cs[..j + 1] == cs[..j] + [cs[j]];
    }
    assert cs[..groups] == cs;
    return true, t';
  }

  lemma UnknownInSlice(t: Tables, cs: seq<Check>, i: nat, end: nat)
    requires i <= end <= |cs| && !Known(t, cs[i..end])
    ensures !Known(t, cs)
  {
    var chunk := cs[i..end];
    var j :| 0 <= j < |chunk| && chunk[j].endpoint !in t.endpoints.rows;
    assert cs[i + j] == chunk[j];
  }

  lemma KnownSlices(t: Tables, cs: seq<Check>, i: nat, end: nat)
    requires i <= end <= |cs| && Known(t, cs[..i]) && Known(t, cs[i..end])
    ensures cs[..end] == cs[..i] + cs[i..end] && Known(t, cs[..end])
  {
    var front, chunk := cs[..i], cs[i..end];
    assert cs[..end] == front + chunk;
    assert forall j | 0 <= j < |front| :: (front + chunk)[j] == front[j];
    assert forall j | 0 <= j < |chunk| :: (front + chunk)[i + j] == chunk[j];
  }

  /** Inserts all checks in chunks of a hundred within one transaction. */
  method RecordChecksBatch(db: DB, cs: seq<Check>, reliable: bool) returns (ok: bool)
    modifies db
    ensures ok ==> Known(old(db.tables), cs) && Appended(old(db.tables), cs, db.tables)
    ensures !ok ==> db.tables == old(db.tables)
    ensures reliable ==> (ok <==> Known(old(db.tables), cs))
  {
    if * { if !reliable { return false; } }
    var tx := db.tables;
    ghost var t0 := tx;
    var i := 0;
    while i < |cs|
      invariant 0 <= i <= |cs|
      invariant Known(t0, cs[..i]) && Appended(t0, cs[..i], tx)
      invariant db.tables == t0
    {
      var end := i + BATCH;
      if end > |cs| { end := |cs|; }
      var chunk := cs[i..end];
      var values := BindChunk(chunk);
      if * { if !reliable { return false; } }
      ghost var before := tx;
      var one;
      one, tx := InsertRows(tx, |chunk|, values[..], chunk);
      if !one {
        UnknownInSlice(t0, cs, i, end);
        return false;
      }
      AppendedTwice(t0, cs[..i], before, chunk, tx);
      KnownSlices(t0, cs, i, end);
      i := end;
    }
    if * { if !reliable { return false; } }
    assert cs[..|cs|] == cs;
    db.tables := tx;
    return true;
  }

  // ---- The recent-checks query ----

  predicate IncreasingIds(rows: seq<CheckRow>) {
    forall i, j | 0 <= i < j < |rows| :: rows[i].id < rows[j].id
  }

  predicate Newest(s: set<CheckRow>, m: CheckRow) {
    m in s && forall c | c in s && c != m :: Newer(m, c)
  }

  ghost function TheNewest(s: set<CheckRow>): (m: CheckRow)
    requires s != {}
    ensures m in s
  {
    if exists m :: Newest(s, m) then var m :| Newest(s, m); m else var m :| m in s; m
  }

  /** The newest rows of `s`, newest first, at most `limit` of them. */
  ghost function NewestRows(s: set<CheckRow>, limit: nat): seq<CheckRow> {
    if limit == 0 || s == {} then [] else
      var m := TheNewest(s);
      [m] + NewestRows(s - {m}, limit - 1)
  }

  /** The answer to the recent-checks query. */
  ghost function Query(rows: seq<CheckRow>, e: nat, limit: nat): seq<CheckRow> {
    NewestRows((set c | c in rows && c.endpoint == e), limit)
  }

  /** Picks the newest remaining row until the limit is reached. */
  method GetChecksByEndpoint(rows: seq<CheckRow>, e: nat, limit: nat) returns (r: seq<CheckRow>)
    requires IncreasingIds(rows)
    ensures r == Query(rows, e, limit)
  {
    var left := set c | c in rows && c.endpoint == e;
    DistinctIds(rows);
    r := [];
    while |r| < limit && left != {}
      invariant |r| <= limit && TotallyNewer(left)
      invariant r + NewestRows(left, limit - |r|) == Query(rows, e, limit)
      decreases |left|
    {
      ghost var newest := NewestExists(left);
      var m :| m in left && Newest(left, m);
      assert m == TheNewest(left);
      assert r + NewestRows(left, limit - |r|) == (r + [m]) + NewestRows(left - {m}, limit - |r| - 1);
      r := r + [m];
      left := left - {m};
    }
    assert r + [] == r;
  }

  ghost predicate TotallyNewer(s: set<CheckRow>) {
    forall a, b | a in s && b in s && a != b :: Newer(a, b) || Newer(b, a)
  }

  lemma DistinctIds(rows: seq<CheckRow>)
    requires IncreasingIds(rows)
    ensures forall a, b | a in rows && b in rows && a != b :: Newer(a, b) || Newer(b, a)
  {
    forall a, b | a in rows && b in rows && a != b
      ensures a.id != b.id
    {
      var i :| 0 <= i < |rows| && rows[i] == a;
      var j :| 0 <= j < |rows| && rows[j] == b;
    }
  }

  lemma {:induction false} NewestExists(s: set<CheckRow>) returns (m: CheckRow)
    requires s != {} && TotallyNewer(s)
    ensures Newest(s, m)
    decreases |s|
  {
    m :| m in s;
    var rest := s - {m};
    if rest != {} {
      var r := NewestExists(rest);
      assert forall c | c in s :: c == m || c in rest;
      if Newer(r, m) {
        m := r;
      }
    }
  }

  /** The rows delivered come newest first, and every row left out is older than all of them. */
  lemma {:induction false} NewestRowsAreNewest(s: set<CheckRow>, limit: nat)
    requires TotallyNewer(s)
    ensures var r := NewestRows(s, limit);
            && |r| <= limit
            && (forall i, j | 0 <= i < j < |r| :: Newer(r[i], r[j]))
            && (forall c | c in r :: c in s)
            && (forall c | c in s && c !in r :: |r| == limit && forall x | x in r :: Newer(x, c))
    decreases |s|
  {
    if limit > 0 && s != {} {
      var newest := NewestExists(s);
      var m := TheNewest(s);
      assert Newest(s, m);
      NewestRowsAreNewest(s - {m}, limit - 1);
      var rest := NewestRows(s - {m}, limit - 1);
      var r := NewestRows(s, limit);
      assert r == [m] + rest;
      forall i, j | 0 <= i < j < |r|
        ensures Newer(r[i], r[j])
      {
        assert r[j] in rest;
      }
    }
  }

  lemma QueryAnswers(rows: seq<CheckRow>, e: nat, limit: nat)
    requires IncreasingIds(rows)
    ensures NewestFirst(rows, e, limit, Query(rows, e, limit))
  {
    DistinctIds(rows);
    NewestRowsAreNewest((set c | c in rows && c.endpoint == e), limit);
  }

  // ---- Cleanup ----

  const CLEANUP_BATCH := 1000

  lemma {:induction false} WithoutOld(rows: seq<CheckRow>, gone: set<nat>, cutoff: int)
    requires forall c | c in rows && c.id in gone :: c.at < cutoff
    ensures Younger(Without(rows, gone), cutoff) == Younger(rows, cutoff)
  {
    if |rows| > 0 {
      var front, c := rows[..|rows| - 1], rows[|rows| - 1];
      assert c in rows && forall d | d in front :: d in rows;
      WithoutOld(front, gone, cutoff);
      WithoutOldLast(front, c, gone, cutoff);
      FrontAndLast(rows);
    }
  }

  lemma WithoutOldLast(front: seq<CheckRow>, c: CheckRow, gone: set<nat>, cutoff: int)
    requires Younger(Without(front, gone), cutoff) == Younger(front, cutoff) && (c.id in gone ==> c.at < cutoff)
    ensures Younger(Without(front + [c], gone), cutoff) == Younger(front + [c], cutoff)
  {
    WithoutStep(front, c, gone);
    YoungerStep(front, c, cutoff);
    YoungerStep(Without(front, gone), c, cutoff);
    assert Without(front, gone) + [] == Without(front, gone);
  }

  lemma WithoutStep(front: seq<CheckRow>, c: CheckRow, gone: set<nat>)
    ensures Without(front + [c], gone) == Without(front, gone) + (if c.id in gone then [] else [c])
  {
    assert (front + [c])[..|front|] == front;
  }

  lemma {:induction false} WithoutShrinks(rows: seq<CheckRow>, gone: set<nat>, c: CheckRow)
    requires c in rows && c.id in gone
    ensures |Without(rows, gone)| < |rows|
  {
    var last, front := rows[|rows| - 1], rows[..|rows| - 1];
    if last.id !in gone {
      FrontAndLast(rows);
      WithoutShrinks(front, gone, c);
    }
  }

  lemma YoungerStep(front: seq<CheckRow>, c: CheckRow, cutoff: int)
    ensures Younger(front + [c], cutoff) == Younger(front, cutoff) + (if c.at >= cutoff then [c] else [])
  {
    assert (front + [c])[..|front|] == front;
  }

  lemma {:induction false} YoungerAll(rows: seq<CheckRow>, cutoff: int)
    requires forall c | c in rows :: c.at >= cutoff
    ensures Younger(rows, cutoff) == rows
  {
    if rows != [] {
      var c, front := rows[|rows| - 1], rows[..|rows| - 1];
      assert rows == front + [c];
      YoungerAll(front, cutoff);
    }
  }

  /** SELECT id ... WHERE checked_at < cutoff LIMIT 1000, in no particular order. */
  method PickOld(rows: seq<CheckRow>, cutoff: int) returns (gone: set<nat>)
    requires forall i, j | 0 <= i < j < |rows| :: rows[i].id < rows[j].id
    ensures |gone| <= 1000
    ensures forall c | c in rows && c.id in gone :: c.at < cutoff
    ensures forall id | id in gone :: exists c :: c in rows && c.id == id
    ensures gone == {} ==> forall c | c in rows :: c.at >= cutoff
  {
    gone := {};
    for i := 0 to |rows|
      invariant |gone| <= CLEANUP_BATCH
      invariant forall k | 0 <= k < |rows| && rows[k].id in gone :: rows[k].at < cutoff
      invariant forall id | id in gone :: exists k :: 0 <= k < i && rows[k].id == id
      invariant gone == {} ==> forall k | 0 <= k < i :: rows[k].at >= cutoff
    {
      if rows[i].at < cutoff && |gone| < CLEANUP_BATCH {
        gone := gone + {rows[i].id};
      }
    }
  }

  /** What a cleanup may have done by the time it ends or is cut short: only rows older than the cutoff are gone. */
  ghost predicate Cleaned(t: Tables, cutoff: int, t': Tables) {
    && t' == t.(checks := t'.checks)
    && Younger(t'.checks, cutoff) == Younger(t.checks, cutoff)
    && (forall c | c in t'.checks :: c in t.checks)
    && (forall i, j | 0 <= i < j < |t'.checks| :: t'.checks[i].id < t'.checks[j].id)
  }

  lemma CleanedInv(t: Tables, cutoff: int, t': Tables)
    requires Inv(t) && Cleaned(t, cutoff, t')
    ensures Inv(t')
  {
    assert forall i | 0 <= i < |t'.checks| :: t'.checks[i] in t.checks;
  }

  /** Two lists of rows with increasing ids and the same members are the same list. */
  lemma {:induction false} SameMembers(a: seq<CheckRow>, b: seq<CheckRow>)
    requires IncreasingIds(a) && IncreasingIds(b) && forall c :: c in a <==> c in b
    ensures a == b
  {
    assert |a| > 0 ==> a[0] in a;
    assert |b| > 0 ==> b[0] in b;
    if |a| > 0 {
      var front, front' := a[..|a| - 1], b[..|b| - 1];
      SameLast(a, b);
      forall c
        ensures c in front <==> c in front'
      {
        InFrontIff(a, c);
        InFrontIff(b, c);
      }
      SameMembers(front, front');
      FrontAndLast(a);
      FrontAndLast(b);
    }
  }

  lemma InFrontIff(a: seq<CheckRow>, c: CheckRow)
    requires |a| > 0 && IncreasingIds(a)
    ensures c in a[..|a| - 1] <==> c in a && c != a[|a| - 1]
  {
    FrontAndLast(a);
  }

  lemma SameLast(a: seq<CheckRow>, b: seq<CheckRow>)
    requires |a| > 0 && |b| > 0 && IncreasingIds(a) && IncreasingIds(b) && forall c :: c in a <==> c in b
    ensures a[|a| - 1] == b[|b| - 1]
  {
    var x, y := a[|a| - 1], b[|b| - 1];
    assert x in b && y in a;
    var i :| 0 <= i < |b| && b[i] == x;
    var j :| 0 <= j < |a| && a[j] == y;
    assert x.id <= y.id && y.id <= x.id;
    DistinctIds(a);
  }

  /** A cleanup, finished or not, deletes a set of rows that are older than the cutoff. */
  lemma CleanedIsDeletion(t: Tables, cutoff: int, t': Tables) returns (gone: set<nat>)
    requires IncreasingIds(t.checks) && Cleaned(t, cutoff, t')
    ensures t'.checks == Without(t.checks, gone)
    ensures forall r | r in t.checks && r.id in gone :: r.at < cutoff
  {
    gone := set r | r in t.checks && r !in t'.checks :: r.id;
    DistinctIds(t.checks);
    forall r | r in t.checks
      ensures r.id in gone <==> r !in t'.checks
    {
    }
    forall r | r in t.checks && r.id in gone
      ensures r.at < cutoff
    {
      assert r.at >= cutoff ==> r in Younger(t'.checks, cutoff);
    }
    WithoutIncreasing(t.checks, gone);
    SameMembers(t'.checks, Without(t.checks, gone));
  }

  lemma CleanStep(t0: Tables, cutoff: int, t: Tables, gone: set<nat>)
    requires Cleaned(t0, cutoff, t) && forall c | c in t.checks && c.id in gone :: c.at < cutoff
    ensures Cleaned(t0, cutoff, t.(checks := Without(t.checks, gone)))
  {
    WithoutOld(t.checks, gone, cutoff);
    WithoutIncreasing(t.checks, gone);
  }

  lemma CleanDone(t0: Tables, cutoff: int, t: Tables)
    requires Cleaned(t0, cutoff, t) && forall c | c in t.checks :: c.at >= cutoff
    ensures Cleaned(t0, cutoff, t.(checks := Without(t.checks, {})))
    ensures Without(t.checks, {}) == Younger(t0.checks, cutoff)
  {
    CleanStep(t0, cutoff, t, {});
    YoungerAll(t.checks, cutoff);
    YoungerAll(Without(t.checks, {}), cutoff);
  }

  /** A cleanup with an earlier cutoff is the beginning of one with a later cutoff. */
  lemma CutoffMoves(t0: Tables, cutoff: int, later: int, t: Tables)
    requires Cleaned(t0, cutoff, t) && cutoff <= later
    ensures Cleaned(t0, later, t)
  {
    YoungerTwice(t0.checks, cutoff, later);
    YoungerTwice(t.checks, cutoff, later);
  }

  lemma {:induction false} YoungerTwice(rows: seq<CheckRow>, cutoff: int, later: int)
    requires cutoff <= later
    ensures Younger(Younger(rows, cutoff), later) == Younger(rows, later)
  {
    if |rows| > 0 {
      var front, c := rows[..|rows| - 1], rows[|rows| - 1];
      YoungerTwice(front, cutoff, later);
      YoungerStep(Younger(front, cutoff), c, later);
      assert Younger(front, later) + [] == Younger(front, later);
      assert Younger(front, cutoff) + [] == Younger(front, cutoff);
    }
  }

  /** One DELETE statement. */
  method DeleteOldBatch(db: DB, cutoff: int, ghost t0: Tables) returns (affected: nat)
    requires Cleaned(t0, cutoff, db.tables)
    modifies db
    ensures Cleaned(t0, cutoff, db.tables)
    ensures affected == 0 ==> db.tables.checks == Younger(t0.checks, cutoff)
    ensures affected > 0 ==> |db.tables.checks| < |old(db.tables).checks|
  {
    var t := db.tables;
    var gone := PickOld(t.checks, cutoff);
    db.tables := t.(checks := Without(t.checks, gone));
    affected := |gone|;
    if gone == {} {
      CleanDone(t0, cutoff, t);
    } else {
      CleanStep(t0, cutoff, t, gone);
      ghost var id :| id in gone;
      ghost var c :| c in t.checks && c.id == id;
      WithoutShrinks(t.checks, gone, c);
    }
  }

  /**
   Deletes rows older than the cutoff, a thousand at a time, until none is left.  The cutoff is taken from the clock
   anew for each batch; `last` is the one in force at the end.  Unless `reliable`, a statement may fail and the
   context may end.
   */
  method CleanupOldChecks(db: DB, cutoff: int, reliable: bool) returns (finished: bool, ghost last: int)
    requires Inv(db.tables)
    modifies db
    ensures cutoff <= last && Cleaned(old(db.tables), last, db.tables)
    ensures finished ==> db.tables.checks == Younger(old(db.tables).checks, last)
    ensures reliable ==> finished
  {
    ghost var t0 := db.tables;
    var due := cutoff;
    while true
      invariant cutoff <= due && Cleaned(t0, due, db.tables)
      decreases |db.tables.checks|
    {
      if * { if !reliable { return false, due; } }
      var passed: int :| passed >= 0;
      CutoffMoves(t0, due, due + passed, db.tables);
      due := due + passed;
      var affected := DeleteOldBatch(db, due, t0);
      if affected == 0 { return true, due; }
      if * { if !reliable { return false, due; } }
    }
    return true, due;
  }
}
