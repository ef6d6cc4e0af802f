/**
 A table some of whose rows are owned by the configuration file.

 `endpoints` and `notifiers` get the same treatment from the sync: upsert every configured uid,
 then prune the configured rows whose uid is gone.  `F` holds the columns an upsert overwrites,
 `M` the columns it leaves alone.
 */
module ManagedTable {
  import opened Common

  datatype Source = FromUi | FromConfig

  datatype Row<F, M> = Row(uid: Option<string>, source: Source, fields: F, meta: M)

  /** `next` is an id larger than any the table has ever handed out (AUTOINCREMENT). */
  datatype Table<F, M> = Table(rows: map<nat, Row<F, M>>, next: nat)

  predicate HasUid<F, M>(tb: Table<F, M>, id: nat, u: string) {
    id in tb.rows && tb.rows[id].uid == Some(u)
  }

  ghost predicate Knows<F, M>(tb: Table<F, M>, u: string) {
    exists id :: HasUid(tb, id, u)
  }

  predicate Managed<F, M>(tb: Table<F, M>, id: nat) {
    id in tb.rows && tb.rows[id].source == FromConfig
  }

  /** Ids stay below the counter, a row is managed exactly when it has a uid, and uids are unique. */
  ghost predicate Sound<F, M>(tb: Table<F, M>) {
    && (forall id | id in tb.rows :: id < tb.next)
    && (forall id | id in tb.rows :: tb.rows[id].source == FromConfig <==> tb.rows[id].uid.Some?)
    && (forall i, j, u | HasUid(tb, i, u) && HasUid(tb, j, u) :: i == j)
  }

  /** INSERT ... ON CONFLICT(uid) DO UPDATE: the counter may advance even when a row is updated. */
  method Upsert<F, M>(tb: Table<F, M>, u: string, f: F, meta: M) returns (r: Table<F, M>, id: nat)
    requires Sound(tb)
    ensures id in tb.rows ==>
              HasUid(tb, id, u) && r.rows == tb.rows[id := tb.rows[id].(fields := f, source := FromConfig)]
    ensures id !in tb.rows ==>
              !Knows(tb, u) && id >= tb.next && r.rows == tb.rows[id := Row(Some(u), FromConfig, f, meta)]
    ensures r.next >= tb.next && (id !in tb.rows ==> r.next > id)
  {
    var gap: int :| gap >= 0;
    if i: nat :| i in tb.rows && HasUid(tb, i, u) {
      id := i;
      r := Table(tb.rows[id := tb.rows[id].(fields := f, source := FromConfig)], tb.next + gap);
    } else {
      id := tb.next + gap;
      r := Table(tb.rows[id := Row(Some(u), FromConfig, f, meta)], id + 1);
    }
  }

  // ---- What a run of upserts has achieved so far ----

  /** `row` as it looks once the uids in `done` have been upserted from `want`. */
  function Overwritten<F, M>(row: Row<F, M>, want: map<string, F>, done: set<string>): Row<F, M> {
    if row.uid.Some? && row.uid.value in done && row.uid.value in want
    then row.(fields := want[row.uid.value])
    else row
  }

  /** A row inserted for one of the uids in `done`. */
  predicate Inserted<F(==), M>(row: Row<F, M>, want: map<string, F>, done: set<string>) {
    row.uid.Some? && row.uid.value in done && row.uid.value in want
    && row.source == FromConfig && row.fields == want[row.uid.value]
  }

  ghost predicate Upserted<F, M>(before: Table<F, M>, want: map<string, F>, done: set<string>, now: Table<F, M>) {
    && Sound(now)
    && now.next >= before.next
    && (forall id | id in before.rows :: id in now.rows && now.rows[id] == Overwritten(before.rows[id], want, done))
    && (forall id | id in now.rows && id !in before.rows :: id >= before.next && Inserted(now.rows[id], want, done))
    && (forall u | u in done :: Knows(now, u))
  }

  lemma UpsertStep<F, M>(before: Table<F, M>, want: map<string, F>, done: set<string>, tb: Table<F, M>,
                         u: string, meta: M, r: Table<F, M>, id: nat)
    requires Sound(before) && Upserted(before, want, done, tb) && u in want && u !in done
    requires id in tb.rows ==>
              HasUid(tb, id, u) && r.rows == tb.rows[id := tb.rows[id].(fields := want[u], source := FromConfig)]
    requires id !in tb.rows ==>
              !Knows(tb, u) && id >= tb.next && r.rows == tb.rows[id := Row(Some(u), FromConfig, want[u], meta)]
    requires r.next >= tb.next && (id !in tb.rows ==> r.next > id)
    ensures Upserted(before, want, done + {u}, r)
  {
    forall v | v in done + {u}
      ensures Knows(r, v)
    {
      if v == u {
        assert HasUid(r, id, u);
      } else {
        var i :| HasUid(tb, i, v);
        assert HasUid(r, i, v);
      }
    }
    forall i, j, v | HasUid(r, i, v) && HasUid(r, j, v)
      ensures i == j
    {
      if v == u {
        assert i != id ==> HasUid(tb, i, u);
        assert j != id ==> HasUid(tb, j, u);
      } else {
        assert HasUid(tb, i, v) && HasUid(tb, j, v);
      }
    }
    forall i | i in r.rows && i !in before.rows
      ensures i >= before.next && Inserted(r.rows[i], want, done + {u})
    {
      assert id in tb.rows ==> HasUid(tb, id, u) && !Inserted(tb.rows[id], want, done);
    }
    forall i | i in before.rows
      ensures i in r.rows && r.rows[i] == Overwritten(before.rows[i], want, done + {u})
    {
      assert before.rows[i].uid == Some(u) ==> HasUid(tb, i, u);
      assert id in tb.rows ==> HasUid(tb, id, u);
    }
  }

  // ---- Pruning and the finished reconciliation ----

  /** WHERE source = 'config' AND uid NOT IN (...); with nothing configured, every managed row goes. */
  predicate Orphan<F, M>(row: Row<F, M>, want: set<string>) {
    row.source == FromConfig && (want == {} || (row.uid.Some? && row.uid.value !in want))
  }

  function Prune<F, M>(tb: Table<F, M>, want: set<string>): Table<F, M> {
    tb.(rows := map id | id in tb.rows && !Orphan(tb.rows[id], want) :: tb.rows[id])
  }

  /**
   `after` is `before` reconciled with `want`: UI rows are untouched, managed rows survive under their
   old id exactly when their uid is still wanted, and every other row is a newly inserted managed one.
   */
  ghost predicate Reconciled<F, M>(before: Table<F, M>, want: map<string, F>, after: Table<F, M>) {
    && Sound(after)
    && after.next >= before.next
    && (forall id | id in before.rows && before.rows[id].uid.None? ::
        id in after.rows && after.rows[id] == before.rows[id])
    && (forall id, u | HasUid(before, id, u) ::
          if u in want then id in after.rows && after.rows[id] == before.rows[id].(fields := want[u])
          else id !in after.rows)
    && (forall id | id in after.rows && id !in before.rows ::
          id >= before.next && Inserted(after.rows[id], want, want.Keys))
    && (forall u | u in want :: Knows(after, u))
  }

  lemma PruneReconciles<F, M>(before: Table<F, M>, want: map<string, F>, tb: Table<F, M>)
    requires Sound(before) && Upserted(before, want, want.Keys, tb)
    ensures Reconciled(before, want, Prune(tb, want.Keys))
  {
    var after := Prune(tb, want.Keys);
    forall u | u in want
      ensures Knows(after, u)
    {
      var id :| HasUid(tb, id, u);
      assert HasUid(after, id, u);
    }
    forall i, j, u | HasUid(after, i, u) && HasUid(after, j, u)
      ensures i == j
    {
      assert HasUid(tb, i, u) && HasUid(tb, j, u);
    }
    forall id, u | HasUid(before, id, u)
      ensures if u in want then id in after.rows && after.rows[id] == before.rows[id].(fields := want[u])
              else id !in after.rows
    {
      assert before.rows[id].source == FromConfig;
    }
  }

  // ---- Changes by hand ----

  /** UPDATE ... WHERE id = ?: at most one row gets new columns; who owns it and the rest of it stay. */
  ghost predicate ColumnsSet<F, M>(tb: Table<F, M>, id: nat, f: F, tb': Table<F, M>) {
    && tb'.next == tb.next
    && (forall i :: i in tb'.rows <==> i in tb.rows)
    && (forall i | i in tb.rows && i in tb'.rows ::
          && tb'.rows[i].fields == (if i == id then f else tb.rows[i].fields)
          && tb'.rows[i].uid == tb.rows[i].uid && tb'.rows[i].source == tb.rows[i].source
          && tb'.rows[i].meta == tb.rows[i].meta)
  }

  /** UPDATE of the columns an upsert leaves alone: again at most one row, and only those columns. */
  ghost predicate MetaSet<F, M>(tb: Table<F, M>, id: nat, meta: M, tb': Table<F, M>) {
    && tb'.next == tb.next
    && (forall i :: i in tb'.rows <==> i in tb.rows)
    && (forall i | i in tb.rows && i in tb'.rows ::
          && tb'.rows[i].meta == (if i == id then meta else tb.rows[i].meta)
          && tb'.rows[i].uid == tb.rows[i].uid && tb'.rows[i].source == tb.rows[i].source
          && tb'.rows[i].fields == tb.rows[i].fields)
  }

  /** INSERT: one more row, under an id that was not handed out before and will not be again. */
  ghost predicate RowAdded<F, M>(tb: Table<F, M>, id: nat, row: Row<F, M>, tb': Table<F, M>) {
    && tb.next <= id < tb'.next
    && (forall i :: i in tb'.rows <==> i in tb.rows || i == id)
    && (forall i | i in tb'.rows :: tb'.rows[i] == if i == id then row else if i in tb.rows then tb.rows[i] else row)
  }

  /** UPDATE ... SET source = 'ui', uid = NULL WHERE source = 'config'. */
  ghost predicate Released<F, M>(tb: Table<F, M>, tb': Table<F, M>) {
    && tb'.next == tb.next
    && (forall i :: i in tb'.rows <==> i in tb.rows)
    && (forall i | i in tb.rows && i in tb'.rows ::
          && tb'.rows[i].fields == tb.rows[i].fields && tb'.rows[i].meta == tb.rows[i].meta
          && tb'.rows[i].source == FromUi
          && tb'.rows[i].uid == if Managed(tb, i) then None else tb.rows[i].uid)
  }

  /** DELETE ... WHERE id = ?: that row is gone, every other one is as before, and the id stays used up. */
  ghost predicate RowGone<F, M>(tb: Table<F, M>, id: nat, tb': Table<F, M>) {
    && tb'.next == tb.next
    && (forall i :: i in tb'.rows <==> i in tb.rows && i != id)
    && (forall i | i in tb'.rows && i in tb.rows :: tb'.rows[i] == tb.rows[i])
  }

  // ---- What a reader of the table sees ----

  /** The managed rows as the configuration file would spell them. */
  ghost function View<F, M>(tb: Table<F, M>): (v: map<string, F>)
    requires Sound(tb)
    ensures forall u :: u in v <==> Knows(tb, u)
    ensures forall id, u | HasUid(tb, id, u) :: u in v && v[u] == tb.rows[id].fields
  {
    map u | u in Uids(tb) :: tb.rows[IdOf(tb, u)].fields
  }

  ghost function Uids<F, M>(tb: Table<F, M>): (us: set<string>)
    ensures forall u :: u in us <==> Knows(tb, u)
  {
    var us := set id | id in tb.rows && tb.rows[id].uid.Some? :: tb.rows[id].uid.value;
    assert forall id, u | HasUid(tb, id, u) :: u in us;
    assert forall u | u in us :: Knows(tb, u) by {
      forall u | u in us
        ensures Knows(tb, u)
      {
        var id :| id in tb.rows && tb.rows[id].uid == Some(u);
        assert HasUid(tb, id, u);
      }
    }
    us
  }

  ghost function IdOf<F, M>(tb: Table<F, M>, u: string): (id: nat)
    requires Knows(tb, u)
    ensures HasUid(tb, id, u)
  {
    var id :| HasUid(tb, id, u);
    id
  }

  lemma ReconciledView<F, M>(before: Table<F, M>, want: map<string, F>, after: Table<F, M>)
    requires Sound(before) && Reconciled(before, want, after)
    ensures View(after) == want
  {
    forall id, u | HasUid(after, id, u)
      ensures u in want && after.rows[id].fields == want[u]
    {
      if id in before.rows {
        if before.rows[id].uid.Some? {
          assert HasUid(before, id, before.rows[id].uid.value);
        }
      }
    }
    assert forall u | u in View(after) :: u in want && View(after)[u] == want[u] by {
      forall u | u in View(after)
        ensures u in want && View(after)[u] == want[u]
      {
        assert HasUid(after, IdOf(after, u), u);
      }
    }
  }

  /** Reconciling twice with the same configuration changes nothing the second time. */
  lemma ReconciledTwice<F, M>(t0: Table<F, M>, want: map<string, F>, t1: Table<F, M>, t2: Table<F, M>)
    requires Sound(t0) && Reconciled(t0, want, t1) && Reconciled(t1, want, t2)
    ensures t2.rows == t1.rows
  {
    ReconciledView(t0, want, t1);
    SettledIsFixed(t1, want, t2);
  }

  /** A table that already shows `want` is a fixed point of the reconciliation. */
  lemma SettledIsFixed<F, M>(t: Table<F, M>, want: map<string, F>, t': Table<F, M>)
    requires Sound(t) && View(t) == want && Reconciled(t, want, t')
    ensures t'.rows == t.rows
  {
    forall id | id in t.rows
      ensures id in t'.rows && t'.rows[id] == t.rows[id]
    {
      if t.rows[id].uid.Some? {
        assert HasUid(t, id, t.rows[id].uid.value);
      }
    }
    forall id | id in t'.rows
      ensures id in t.rows
    {
      if id !in t.rows {
        var u := t'.rows[id].uid.value;
        var before := IdOf(t, u);
        assert HasUid(t', before, u) && HasUid(t', id, u);
      }
    }
  }

  // ---- Tables that agree on the managed rows ----

  ghost predicate ManagedRowsSame<F, M>(a: Table<F, M>, b: Table<F, M>) {
    forall id | Managed(a, id) || Managed(b, id) :: id in a.rows && id in b.rows && b.rows[id] == a.rows[id]
  }

  lemma SameManagedSameUid<F, M>(a: Table<F, M>, b: Table<F, M>, id: nat, u: string)
    requires Sound(a) && Sound(b) && ManagedRowsSame(a, b)
    ensures HasUid(a, id, u) <==> HasUid(b, id, u)
  {
    assert HasUid(a, id, u) ==> Managed(a, id);
    assert HasUid(b, id, u) ==> Managed(b, id);
  }

  lemma SameManagedSameId<F, M>(a: Table<F, M>, b: Table<F, M>, u: string)
    requires Sound(a) && Sound(b) && ManagedRowsSame(a, b)
    ensures Knows(a, u) <==> Knows(b, u)
    ensures Knows(a, u) && Knows(b, u) ==> IdOf(a, u) == IdOf(b, u)
  {
    if Knows(a, u) { SameManagedSameUid(a, b, IdOf(a, u), u); }
    if Knows(b, u) { SameManagedSameUid(a, b, IdOf(b, u), u); }
  }

  lemma SameManagedSameUids<F, M>(a: Table<F, M>, b: Table<F, M>)
    requires Sound(a) && Sound(b) && ManagedRowsSame(a, b)
    ensures Uids(a) == Uids(b)
  {
    forall u
      ensures u in Uids(a) <==> u in Uids(b)
    {
      SameManagedSameId(a, b, u);
    }
  }

  lemma SameManagedSameRead<F, M>(a: Table<F, M>, b: Table<F, M>)
    requires Sound(a) && Sound(b) && ManagedRowsSame(a, b)
    ensures View(a) == View(b)
  {
    forall u
      ensures u in View(a) <==> u in View(b)
      ensures u in View(a) && u in View(b) ==> View(a)[u] == View(b)[u]
    {
      SameManagedSameId(a, b, u);
      if Knows(a, u) {
        assert HasUid(a, IdOf(a, u), u) && HasUid(b, IdOf(b, u), u);
      }
    }
    SameMap(View(a), View(b));
  }
}
