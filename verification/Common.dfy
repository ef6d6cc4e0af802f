/** Small vocabulary shared by every module: optional values, results, and ascending listings. */
module Common {

  datatype Option<+T> = None | Some(value: T)

  datatype Result<+T, +E> = Ok(value: T) | Err(error: E)

  ghost predicate NoRepeats<T>(s: seq<T>) {
    forall i, j | 0 <= i < j < |s| :: s[i] != s[j]
  }

  /** Visiting `u` moves it from the unvisited part of `all` to the visited one. */
  lemma StrikeOff<T>(all: set<T>, todo: set<T>, u: T)
    requires u in todo && todo <= all
    ensures all - (todo - {u}) == all - todo + {u} && u !in all - todo
  {
  }

  /** The elements of `s`, smallest first: what `ORDER BY id ASC` delivers. */
  ghost function Ascending(s: set<nat>): seq<nat>
    decreases |s|
  {
    if s == {} then [] else
      var m := Least(s);
      [m] + Ascending(s - {m})
  }

  ghost function Least(s: set<nat>): (m: nat)
    requires s != {}
    ensures m in s && forall x | x in s :: m <= x
    decreases |s|
  {
    var x :| x in s;
    if s == {x} then x else
      var rest := s - {x};
      assert s == rest + {x};
      var r := Least(rest);
      if x < r then x else r
  }

  lemma {:induction false} AscendingLists(s: set<nat>)
    ensures |Ascending(s)| == |s|
    ensures forall x :: x in Ascending(s) <==> x in s
    ensures forall i, j | 0 <= i < j < |Ascending(s)| :: Ascending(s)[i] < Ascending(s)[j]
    decreases |s|
  {
    if s != {} {
      var m := Least(s);
      AscendingLists(s - {m});
      LeastFirst(m, s - {m}, Ascending(s - {m}));
    }
  }

  lemma LeastFirst(m: nat, others: set<nat>, rest: seq<nat>)
    requires (forall x | x in others :: m < x) && (forall x :: x in rest <==> x in others)
    requires forall i, j | 0 <= i < j < |rest| :: rest[i] < rest[j]
    ensures forall x :: x in [m] + rest <==> x == m || x in others
    ensures forall i, j | 0 <= i < j < |[m] + rest| :: ([m] + rest)[i] < ([m] + rest)[j]
  {
    forall i | 0 <= i < |rest|
      ensures m < rest[i]
    {
      assert rest[i] in rest;
    }
  }

  /** Reads off the rows with the given ids in ascending order, one at a time. */
  method OrderById(s: set<nat>) returns (ids: seq<nat>)
    ensures ids == Ascending(s)
    ensures forall x :: x in ids <==> x in s
  {
    ids := [];
    var rest := s;
    while rest != {}
      invariant ids + Ascending(rest) == Ascending(s)
      decreases |rest|
    {
      ghost var least := Least(rest);
      assert least in rest && forall x | x in rest :: least <= x;
      var m :| m in rest && forall x | x in rest :: m <= x;
      assert m == least;
      assert ids + Ascending(rest) == (ids + [m]) + Ascending(rest - {m});
      ids := ids + [m];
      rest := rest - {m};
    }
    assert ids + [] == ids;
    AscendingLists(s);
  }

  lemma SameMap<K, V>(a: map<K, V>, b: map<K, V>)
    requires forall k :: k in a <==> k in b
    requires forall k | k in a && k in b :: a[k] == b[k]
    ensures a == b
  {
  }

  lemma SplitAt<T>(s: seq<T>, k: nat)
    requires k < |s|
    ensures s[..k + 1] == s[..k] + [s[k]] && s == s[..k + 1] + s[k + 1..]
  {
  }

  lemma FrontAndLast<T>(s: seq<T>)
    requires |s| > 0
    ensures s == s[..|s| - 1] + [s[|s| - 1]]
  {
  }

  lemma FrontOfConcat<T>(a: seq<T>, b: seq<T>)
    requires |b| > 0
    ensures (a + b)[..|a + b| - 1] == a + b[..|b| - 1] && (a + b)[|a + b| - 1] == b[|b| - 1]
  {
  }

  lemma Associates<T>(a: seq<T>, b: seq<T>, c: seq<T>)
    ensures (a + b) + c == a + (b + c)
  {
  }
}
