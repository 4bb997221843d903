/**
 * A database table as the sequence of its rows in insertion (id) order,
 * with the first-match lookup of `where(...)->first()` and the batch
 * `upsert($rows, $uniqueBy, $update)` of Laravel's query builder: each
 * row, in list order, replaces the row holding the same unique key or is
 * appended when there is none.
 */
module Upserts {
  import opened Wrappers
  import opened Collections

  /** The position of the first row whose key is `k`: `where(...)->first()` on that key. */
  function IndexOfKey<R, K(==)>(t: seq<R>, key: R -> K, k: K): (r: Option<nat>)
    ensures r.Some? ==> r.value < |t| && key(t[r.value]) == k && forall j :: 0 <= j < r.value ==> key(t[j]) != k
    ensures r.None? ==> forall j :: 0 <= j < |t| ==> key(t[j]) != k
    decreases |t|
  {
    if t == [] then None
    else if key(t[0]) == k then Some(0)
    else match IndexOfKey(t[1..], key, k)
      case None => None
      case Some(i) => Some(i + 1)
  }

  lemma IndexOfKeyAt<R, K>(t: seq<R>, key: R -> K, k: K, i: nat)
    requires i < |t| && key(t[i]) == k
    requires forall j :: 0 <= j < i ==> key(t[j]) != k
    ensures IndexOfKey(t, key, k) == Some(i)
  {
  }

  /** No two rows share a unique key. */
  ghost predicate UniqueKeys<R, K>(t: seq<R>, key: R -> K) {
    forall i, j :: 0 <= i < j < |t| ==> key(t[i]) != key(t[j])
  }

  /** The row holding unique key `k`, if any. */
  function Lookup<R, K(==)>(t: seq<R>, key: R -> K, k: K): (r: Option<R>)
    ensures r.Some? ==> r.value in t && key(r.value) == k
    ensures r.None? ==> forall j :: 0 <= j < |t| ==> key(t[j]) != k
  {
    match IndexOfKey(t, key, k)
    case Some(i) => Some(t[i])
    case None => None
  }

  /** One row of an upsert: update in place on a key conflict, insert otherwise. */
  function UpsertOne<R, K(==)>(t: seq<R>, key: R -> K, row: R): seq<R> {
    match IndexOfKey(t, key, key(row))
    case Some(i) => t[i := row]
    case None => t + [row]
  }

  /** `upsert($rows, ...)`: the rows applied in list order. */
  function Upsert<R, K(==)>(t: seq<R>, key: R -> K, rows: seq<R>): seq<R>
    decreases |rows|
  {
    if rows == [] then t else Upsert(UpsertOne(t, key, rows[0]), key, rows[1..])
  }

  /** The last row of a batch that carries key `k`: the one an upsert leaves behind. */
  function LastWithKey<R, K(==)>(rows: seq<R>, key: R -> K, k: K): (r: Option<R>)
    ensures r.Some? ==> r.value in rows && key(r.value) == k
    ensures r.None? ==> k !in MapSeq(rows, key)
    decreases |rows|
  {
    if rows == [] then None
    else match LastWithKey(rows[1..], key, k)
      case Some(r) => Some(r)
      case None =>
        assert MapSeq(rows, key) == [key(rows[0])] + MapSeq(rows[1..], key) by {
          MapSeqCons(rows, key);
        }
        if key(rows[0]) == k then Some(rows[0]) else None
  }

  lemma MapSeqCons<T, U>(s: seq<T>, f: T -> U)
    requires s != []
    ensures MapSeq(s, f) == [f(s[0])] + MapSeq(s[1..], f)
  {
  }

  lemma UpsertOneFacts<R, K>(t: seq<R>, key: R -> K, row: R)
    requires UniqueKeys(t, key)
    ensures UniqueKeys(UpsertOne(t, key, row), key)
    ensures |UpsertOne(t, key, row)| >= |t|
    ensures forall i :: 0 <= i < |t| && key(t[i]) != key(row) ==> UpsertOne(t, key, row)[i] == t[i]
    ensures forall k :: Lookup(UpsertOne(t, key, row), key, k) == if k == key(row) then Some(row) else Lookup(t, key, k)
    ensures forall x :: x in UpsertOne(t, key, row) ==> x in t || x == row
  {
    var u := UpsertOne(t, key, row);
    forall k ensures Lookup(u, key, k) == if k == key(row) then Some(row) else Lookup(t, key, k) {
      match IndexOfKey(t, key, key(row))
      case Some(i) =>
        if k == key(row) {
          IndexOfKeyAt(u, key, k, i);
        } else {
          match IndexOfKey(t, key, k)
          case Some(j) => IndexOfKeyAt(u, key, k, j);
          case None =>
        }
      case None =>
        if k == key(row) {
          IndexOfKeyAt(u, key, k, |t|);
        } else {
          match IndexOfKey(t, key, k)
          case Some(j) => IndexOfKeyAt(u, key, k, j);
          case None =>
        }
    }
  }

  /**
   * After an upsert every unique key is held by the last batch row that
   * carries it, or, when no batch row does, by the row that held it before.
   */
  lemma {:induction false} UpsertLookup<R, K>(t: seq<R>, key: R -> K, rows: seq<R>, k: K)
    requires UniqueKeys(t, key)
    ensures UniqueKeys(Upsert(t, key, rows), key)
    ensures Lookup(Upsert(t, key, rows), key, k) ==
      match LastWithKey(rows, key, k)
      case Some(r) => Some(r)
      case None => Lookup(t, key, k)
    decreases |rows|
  {
    if rows != [] {
      UpsertOneFacts(t, key, rows[0]);
      UpsertLookup(UpsertOne(t, key, rows[0]), key, rows[1..], k);
    }
  }

  /**
   * An upsert leaves every row whose key the batch does not carry where it
   * was and as it was, and only ever adds rows at the end.
   */
  lemma {:induction false} UpsertUntouched<R, K>(t: seq<R>, key: R -> K, rows: seq<R>)
    requires UniqueKeys(t, key)
    ensures |Upsert(t, key, rows)| >= |t|
    ensures forall i :: 0 <= i < |t| && key(t[i]) !in MapSeq(rows, key) ==> Upsert(t, key, rows)[i] == t[i]
    ensures forall x :: x in Upsert(t, key, rows) ==> x in t || x in rows
    decreases |rows|
  {
    if rows != [] {
      var u := UpsertOne(t, key, rows[0]);
      UpsertOneFacts(t, key, rows[0]);
      UpsertUntouched(u, key, rows[1..]);
      MapSeqCons(rows, key);
    }
  }

  /** In a table with unique keys, looking up a row's own key finds that row. */
  lemma UniqueLookup<R, K>(t: seq<R>, key: R -> K, x: R)
    requires UniqueKeys(t, key) && x in t
    ensures Lookup(t, key, key(x)) == Some(x)
  {
    var i :| 0 <= i < |t| && t[i] == x;
    IndexOfKeyAt(t, key, key(x), i);
  }

  /** A row an upsert leaves under a key the table did not hold is the batch's last row with that key. */
  lemma UpsertNewKey<R, K>(t: seq<R>, key: R -> K, rows: seq<R>, x: R)
    requires UniqueKeys(t, key) && x in Upsert(t, key, rows)
    requires Lookup(t, key, key(x)).None?
    ensures LastWithKey(rows, key, key(x)) == Some(x)
  {
    UpsertLookup(t, key, rows, key(x));
    UniqueLookup(Upsert(t, key, rows), key, x);
  }
}
