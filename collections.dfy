/**
 * The Laravel collection and PHP array operations the core relies on:
 * `filter`/`where`, `array_unique`, `groupBy` (groups in order of first
 * appearance, members in input order), `array_map` and `implode`.
 */
module Collections {

  /** `$collection->filter($p)` with the original order kept. */
  function Filter<T>(s: seq<T>, p: T -> bool): (r: seq<T>)
    ensures forall i :: 0 <= i < |r| ==> r[i] in s && p(r[i])
    ensures forall i :: 0 <= i < |s| && p(s[i]) ==> s[i] in r
    ensures |r| <= |s|
    decreases |s|
  {
    if s == [] then []
    else Filter(s[..|s| - 1], p) + (if p(s[|s| - 1]) then [s[|s| - 1]] else [])
  }

  lemma {:induction false} FilterAppend<T>(a: seq<T>, b: seq<T>, p: T -> bool)
    ensures Filter(a + b, p) == Filter(a, p) + Filter(b, p)
    decreases |b|
  {
    if b == [] {
      assert a + b == a;
    } else {
      var b' := b[..|b| - 1];
      assert (a + b)[..|a + b| - 1] == a + b';
      assert (a + b)[|a + b| - 1] == b[|b| - 1];
      FilterAppend(a, b', p);
    }
  }

  /** `array_map($f, $s)`. */
  function MapSeq<T, U>(s: seq<T>, f: T -> U): (r: seq<U>)
    ensures |r| == |s|
    ensures forall i :: 0 <= i < |s| ==> r[i] == f(s[i])
    decreases |s|
  {
    if s == [] then [] else MapSeq(s[..|s| - 1], f) + [f(s[|s| - 1])]
  }

  ghost predicate NoDuplicates<T>(s: seq<T>) {
    forall i, j :: 0 <= i < j < |s| ==> s[i] != s[j]
  }

  /** `array_unique($s)`: the first occurrence of every element, in order. */
  function Distinct<T(==)>(s: seq<T>): (r: seq<T>)
    ensures NoDuplicates(r)
    ensures forall i :: 0 <= i < |r| ==> r[i] in s
    ensures forall i :: 0 <= i < |s| ==> s[i] in r
    decreases |s|
  {
    if s == [] then []
    else
      var d := Distinct(s[..|s| - 1]);
      if s[|s| - 1] in d then d else d + [s[|s| - 1]]
  }

  /** The elements `array_unique` keeps come in the order of their first occurrences. */
  lemma {:induction false} DistinctOrder<T>(s: seq<T>)
    ensures forall i, j :: 0 <= i < j < |Distinct(s)| ==> FirstIndexOf(s, Distinct(s)[i]) < FirstIndexOf(s, Distinct(s)[j])
    decreases |s|
  {
    if s != [] {
      var n := |s| - 1;
      var d := Distinct(s[..n]);
      DistinctOrder(s[..n]);
      FirstIndexOfPrefix(s, n, d);
      if s[n] !in d {
        assert s[n] !in s[..n];
        assert FirstIndexOf(s, s[n]) == n;
      }
    }
  }

  /** An element of a prefix is first found in the whole sequence where it is first found in the prefix. */
  lemma FirstIndexOfPrefix<T>(s: seq<T>, n: nat, d: seq<T>)
    requires n <= |s|
    requires forall i :: 0 <= i < |d| ==> d[i] in s[..n]
    ensures forall i :: 0 <= i < |d| ==> FirstIndexOf(s, d[i]) == FirstIndexOf(s[..n], d[i]) < n
  {
  }

  lemma DistinctMembers<T>(s: seq<T>, x: T)
    ensures x in Distinct(s) <==> x in s
  {
    if x in s {
      var i :| 0 <= i < |s| && s[i] == x;
    }
  }

  /** One group of `groupBy`: its key and its members in input order. */
  datatype Group<K, T> = Group(key: K, items: seq<T>)

  function Keys<K, T>(gs: seq<Group<K, T>>): (r: seq<K>)
    ensures |r| == |gs|
    ensures forall i :: 0 <= i < |gs| ==> r[i] == gs[i].key
    decreases |gs|
  {
    if gs == [] then [] else [gs[0].key] + Keys(gs[1..])
  }

  /** The members of `s` whose key is `k`, in order. */
  function WithKey<T, K(==)>(s: seq<T>, key: T -> K, k: K): (r: seq<T>)
    ensures forall i :: 0 <= i < |r| ==> r[i] in s && key(r[i]) == k
    ensures forall i :: 0 <= i < |s| && key(s[i]) == k ==> s[i] in r
    decreases |s|
  {
    if s == [] then []
    else WithKey(s[..|s| - 1], key, k) + (if key(s[|s| - 1]) == k then [s[|s| - 1]] else [])
  }

  lemma {:induction false} WithKeyAppend<T, K>(a: seq<T>, b: seq<T>, key: T -> K, k: K)
    ensures WithKey(a + b, key, k) == WithKey(a, key, k) + WithKey(b, key, k)
    decreases |b|
  {
    if b == [] {
      assert a + b == a;
    } else {
      var b' := b[..|b| - 1];
      assert (a + b)[..|a + b| - 1] == a + b';
      assert (a + b)[|a + b| - 1] == b[|b| - 1];
      WithKeyAppend(a, b', key, k);
    }
  }

  lemma MapSeqAppend<T, U>(a: seq<T>, b: seq<T>, f: T -> U)
    ensures MapSeq(a + b, f) == MapSeq(a, f) + MapSeq(b, f)
  {
    assert forall i :: 0 <= i < |a + b| ==> MapSeq(a + b, f)[i] == (MapSeq(a, f) + MapSeq(b, f))[i];
  }

  /** `array_unique` leaves a sequence without duplicates as it is. */
  lemma {:induction false} DistinctOfUnique<T>(s: seq<T>)
    requires NoDuplicates(s)
    ensures Distinct(s) == s
    decreases |s|
  {
    if s != [] {
      var s' := s[..|s| - 1];
      assert NoDuplicates(s');
      DistinctOfUnique(s');
      assert s[|s| - 1] !in s' by {
        forall i | 0 <= i < |s'| ensures s'[i] != s[|s| - 1] {
          assert s'[i] == s[i];
        }
      }
      assert s == s' + [s[|s| - 1]];
    }
  }

  /** Appending elements already present leaves `array_unique` unchanged. */
  lemma {:induction false} DistinctAbsorbs<T>(a: seq<T>, b: seq<T>)
    requires forall x :: x in b ==> x in a
    ensures Distinct(a + b) == Distinct(a)
    decreases |b|
  {
    if b == [] {
      assert a + b == a;
    } else {
      var b', x := b[..|b| - 1], b[|b| - 1];
      assert (a + b)[..|a + b| - 1] == a + b';
      assert (a + b)[|a + b| - 1] == x;
      assert forall y :: y in b' ==> y in b;
      DistinctAbsorbs(a, b');
      assert x in b;
      DistinctMembers(a, x);
    }
  }

  /** Appends `x` to the group keyed `k`, opening a new last group when there is none. */
  function AddToGroup<K(==), T>(gs: seq<Group<K, T>>, k: K, x: T): (r: seq<Group<K, T>>)
    decreases |gs|
  {
    if gs == [] then [Group(k, [x])]
    else if gs[0].key == k then [gs[0].(items := gs[0].items + [x])] + gs[1..]
    else [gs[0]] + AddToGroup(gs[1..], k, x)
  }

  /**
   * `$collection->groupBy($key)`, and equally the PHP idiom
   * `foreach ($s as $x) { $groups[$key($x)][] = $x; }`.
   */
  function GroupBy<T, K(==)>(s: seq<T>, key: T -> K): seq<Group<K, T>>
    decreases |s|
  {
    if s == [] then [] else AddToGroup(GroupBy(s[..|s| - 1], key), key(s[|s| - 1]), s[|s| - 1])
  }

  lemma AddToGroupShape<K, T>(gs: seq<Group<K, T>>, k: K, x: T)
    requires NoDuplicates(Keys(gs))
    ensures k in Keys(gs) ==> Keys(AddToGroup(gs, k, x)) == Keys(gs)
    ensures k !in Keys(gs) ==> Keys(AddToGroup(gs, k, x)) == Keys(gs) + [k]
    ensures NoDuplicates(Keys(AddToGroup(gs, k, x)))
    ensures |AddToGroup(gs, k, x)| >= |gs|
    ensures forall i :: 0 <= i < |gs| ==>
      AddToGroup(gs, k, x)[i] == if gs[i].key == k then gs[i].(items := gs[i].items + [x]) else gs[i]
    ensures k !in Keys(gs) ==> AddToGroup(gs, k, x)[|gs|] == Group(k, [x])
  {
    var r := AddToGroup(gs, k, x);
    var ks := Keys(gs);
    if k in ks {
      var j :| 0 <= j < |ks| && ks[j] == k;
      forall i | 0 <= i < |gs| && i != j ensures gs[i].key != k {
        assert ks[i] != ks[j];
      }
      AddToGroupHit(gs, k, x, j);
      assert Keys(r) == ks by {
        forall i | 0 <= i < |ks| ensures Keys(r)[i] == ks[i] {
          assert r[i].key == gs[i].key;
        }
      }
    } else {
      forall i | 0 <= i < |gs| ensures gs[i].key != k {
        assert ks[i] == gs[i].key;
      }
      AddToGroupMiss(gs, k, x);
      assert Keys(r) == ks + [k] by {
        forall i | 0 <= i < |r| ensures Keys(r)[i] == (ks + [k])[i] {
          assert r[i] == (gs + [Group(k, [x])])[i];
        }
      }
    }
  }

  /** Adding to a key first carried by group `j` extends that group alone. */
  lemma {:induction false} AddToGroupHit<K, T>(gs: seq<Group<K, T>>, k: K, x: T, j: nat)
    requires j < |gs| && gs[j].key == k
    requires forall i :: 0 <= i < j ==> gs[i].key != k
    ensures |AddToGroup(gs, k, x)| == |gs|
    ensures AddToGroup(gs, k, x)[j] == gs[j].(items := gs[j].items + [x])
    ensures forall i :: 0 <= i < |gs| && i != j ==> AddToGroup(gs, k, x)[i] == gs[i]
    decreases j
  {
    if j > 0 {
      var tail := gs[1..];
      var r := AddToGroup(gs, k, x);
      assert tail[j - 1] == gs[j];
      forall i | 0 <= i < j - 1 ensures tail[i].key != k {
        assert tail[i] == gs[i + 1];
      }
      AddToGroupHit(tail, k, x, j - 1);
      var rt := AddToGroup(tail, k, x);
      assert r == [gs[0]] + rt;
      forall i | 0 < i < |gs| ensures r[i] == rt[i - 1] {}
    }
  }

  /** Adding to a key no group carries opens a new last group. */
  lemma {:induction false} AddToGroupMiss<K, T>(gs: seq<Group<K, T>>, k: K, x: T)
    requires forall i :: 0 <= i < |gs| ==> gs[i].key != k
    ensures AddToGroup(gs, k, x) == gs + [Group(k, [x])]
    decreases |gs|
  {
    if gs != [] {
      var tail := gs[1..];
      forall i | 0 <= i < |tail| ensures tail[i].key != k {
        assert tail[i] == gs[i + 1];
      }
      AddToGroupMiss(tail, k, x);
      assert gs + [Group(k, [x])] == [gs[0]] + (tail + [Group(k, [x])]);
    }
  }

  /** The group keys are the distinct keys of the input, in order of first appearance. */
  lemma {:induction false} GroupByKeys<T, K>(s: seq<T>, key: T -> K)
    ensures Keys(GroupBy(s, key)) == Distinct(MapSeq(s, key))
    decreases |s|
  {
    if s != [] {
      var s', x := s[..|s| - 1], s[|s| - 1];
      GroupByKeys(s', key);
      AddToGroupKeys(GroupBy(s', key), MapSeq(s', key), key(x), x);
    }
  }

  lemma AddToGroupKeys<K, T>(gs: seq<Group<K, T>>, m: seq<K>, k: K, x: T)
    requires Keys(gs) == Distinct(m)
    ensures Keys(AddToGroup(gs, k, x)) == Distinct(m + [k])
  {
    AddToGroupShape(gs, k, x);
    assert (m + [k])[..|m|] == m;
  }

  /** Every group holds exactly the members of the input that carry its key, in input order. */
  lemma {:induction false} GroupByItems<T, K>(s: seq<T>, key: T -> K)
    ensures forall i :: 0 <= i < |GroupBy(s, key)| ==>
      GroupBy(s, key)[i].items == WithKey(s, key, GroupBy(s, key)[i].key)
    decreases |s|
  {
    if s != [] {
      var s', x := s[..|s| - 1], s[|s| - 1];
      var gs := GroupBy(s', key);
      GroupByItems(s', key);
      GroupByKeys(s', key);
      AddToGroupShape(gs, key(x), x);
      var r := GroupBy(s, key);
      assert r == AddToGroup(gs, key(x), x);
      forall i | 0 <= i < |r| ensures r[i].items == WithKey(s, key, r[i].key) {
        var k := r[i].key;
        assert WithKey(s, key, k) == WithKey(s', key, k) + (if key(x) == k then [x] else []);
        if i < |gs| {
          assert gs[i].items == WithKey(s', key, gs[i].key);
        } else {
          assert key(x) !in Keys(gs);
          assert k == key(x);
          WithKeyAbsent(s', key, k);
        }
      }
    }
  }

  lemma {:induction false} WithKeyAbsent<T, K>(s: seq<T>, key: T -> K, k: K)
    requires k !in MapSeq(s, key)
    ensures WithKey(s, key, k) == []
    decreases |s|
  {
    if s != [] {
      var m := MapSeq(s, key);
      assert m[|s| - 1] == key(s[|s| - 1]);
      assert MapSeq(s[..|s| - 1], key) == m[..|s| - 1];
      WithKeyAbsent(s[..|s| - 1], key, k);
    }
  }

  /**
   * What `groupBy` promises, in one statement: the keys are distinct, and
   * a group holds exactly the members of the input that carry its key, so
   * every member is in the group of its own key.
   */
  lemma GroupByMembership<T, K>(s: seq<T>, key: T -> K)
    ensures NoDuplicates(Keys(GroupBy(s, key)))
    ensures forall i, x :: 0 <= i < |GroupBy(s, key)| ==>
      (x in GroupBy(s, key)[i].items <==> x in s && key(x) == GroupBy(s, key)[i].key)
    ensures forall x :: x in s ==> key(x) in Keys(GroupBy(s, key))
    ensures forall i :: 0 <= i < |GroupBy(s, key)| ==> GroupBy(s, key)[i].items != []
  {
    var gs := GroupBy(s, key);
    GroupByKeys(s, key);
    forall i | 0 <= i < |gs| ensures gs[i].items == WithKey(s, key, gs[i].key) != [] {
      GroupKeyWitness(s, key, i);
    }
    forall i, x | 0 <= i < |gs| ensures x in gs[i].items <==> x in s && key(x) == gs[i].key {
      WithKeyMember(s, key, gs[i].key, x);
    }
    forall x | x in s ensures key(x) in Keys(gs) {
      GroupKeyOfMember(s, key, x);
    }
  }

  lemma FilterMember<T>(s: seq<T>, p: T -> bool, x: T)
    ensures x in Filter(s, p) <==> x in s && p(x)
  {
    if x in s {
      var i :| 0 <= i < |s| && s[i] == x;
    }
    if x in Filter(s, p) {
      var f := Filter(s, p);
      var i :| 0 <= i < |f| && f[i] == x;
    }
  }

  lemma WithKeyMember<T, K>(s: seq<T>, key: T -> K, k: K, x: T)
    ensures x in WithKey(s, key, k) <==> x in s && key(x) == k
  {
    if x in s {
      var i :| 0 <= i < |s| && s[i] == x;
    }
    if x in WithKey(s, key, k) {
      var w := WithKey(s, key, k);
      var i :| 0 <= i < |w| && w[i] == x;
    }
  }

  /** A key of `groupBy` is the key of some member, whose group it then is. */
  lemma GroupKeyWitness<T, K>(s: seq<T>, key: T -> K, i: nat)
    requires i < |GroupBy(s, key)|
    ensures GroupBy(s, key)[i].items == WithKey(s, key, GroupBy(s, key)[i].key) != []
  {
    var gs := GroupBy(s, key);
    var m := MapSeq(s, key);
    GroupByKeys(s, key);
    GroupByItems(s, key);
    assert Keys(gs)[i] == gs[i].key;
    var j :| 0 <= j < |m| && m[j] == gs[i].key;
    assert s[j] in WithKey(s, key, gs[i].key);
  }

  /** A member's key is among the keys of `groupBy`. */
  lemma GroupKeyOfMember<T, K>(s: seq<T>, key: T -> K, x: T)
    requires x in s
    ensures key(x) in Keys(GroupBy(s, key))
  {
    var m := MapSeq(s, key);
    GroupByKeys(s, key);
    var j :| 0 <= j < |s| && s[j] == x;
    assert m[j] == key(x);
    DistinctMembers(m, key(x));
  }

  /**
   * `$rows->filter($p)->groupBy($key)`: the groups partition the selected
   * members, one group per key, none empty.
   */
  lemma GroupFilterMembership<T, K>(s: seq<T>, p: T -> bool, key: T -> K)
    ensures NoDuplicates(Keys(GroupBy(Filter(s, p), key)))
    ensures forall i, x :: 0 <= i < |GroupBy(Filter(s, p), key)| ==>
      (x in GroupBy(Filter(s, p), key)[i].items <==> x in s && p(x) && key(x) == GroupBy(Filter(s, p), key)[i].key)
    ensures forall i :: 0 <= i < |GroupBy(Filter(s, p), key)| ==> GroupBy(Filter(s, p), key)[i].items != []
    ensures forall x :: x in s && p(x) ==> key(x) in Keys(GroupBy(Filter(s, p), key))
  {
    var f := Filter(s, p);
    var gs := GroupBy(f, key);
    GroupByKeys(f, key);
    forall i | 0 <= i < |gs| ensures gs[i].items != [] && gs[i].items == WithKey(f, key, gs[i].key) {
      GroupKeyWitness(f, key, i);
    }
    forall i, x | 0 <= i < |gs| ensures x in gs[i].items <==> x in s && p(x) && key(x) == gs[i].key {
      WithKeyMember(f, key, gs[i].key, x);
      FilterMember(s, p, x);
    }
    forall x | x in s && p(x) ensures key(x) in Keys(gs) {
      FilterMember(s, p, x);
      GroupKeyOfMember(f, key, x);
    }
  }

  /** Groups the members of every group again by a second key. */
  function Subgroup<K, K2(==), T>(gs: seq<Group<K, T>>, key2: T -> K2): (r: seq<Group<K, Group<K2, T>>>)
    ensures |r| == |gs|
    ensures forall i :: 0 <= i < |gs| ==> r[i].key == gs[i].key && r[i].items == GroupBy(gs[i].items, key2)
    decreases |gs|
  {
    if gs == [] then []
    else Subgroup(gs[..|gs| - 1], key2) + [Group(gs[|gs| - 1].key, GroupBy(gs[|gs| - 1].items, key2))]
  }

  /** An inner group holds the members of `s` that carry its two keys, in the order of `s`. */
  ghost predicate Nested2Exact<T, K1, K2>(r: seq<Group<K1, Group<K2, T>>>, s: seq<T>, k1: T -> K1, k2: T -> K2) {
    forall i, j :: 0 <= i < |r| && 0 <= j < |r[i].items| ==>
      r[i].items[j].items == WithKey(WithKey(s, k1, r[i].key), k2, r[i].items[j].key)
  }

  /**
   * `groupBy([$k1, $k2])`: the outer keys are the distinct first keys in
   * order of first appearance, and an inner group holds exactly the
   * members that carry its two keys.
   */
  lemma GroupBy2Exact<T, K1, K2>(s: seq<T>, k1: T -> K1, k2: T -> K2)
    ensures Keys(Subgroup(GroupBy(s, k1), k2)) == Distinct(MapSeq(s, k1))
    ensures Nested2Exact(Subgroup(GroupBy(s, k1), k2), s, k1, k2)
  {
    var g1 := GroupBy(s, k1);
    var r := Subgroup(g1, k2);
    GroupByKeys(s, k1);
    GroupByItems(s, k1);
    assert Keys(r) == Keys(g1) by {
      forall i | 0 <= i < |r| ensures Keys(r)[i] == Keys(g1)[i] {}
    }
    forall i, j | 0 <= i < |r| && 0 <= j < |r[i].items|
      ensures r[i].items[j].items == WithKey(WithKey(s, k1, r[i].key), k2, r[i].items[j].key)
    {
      GroupByItems(g1[i].items, k2);
    }
  }

  /** Groups the members of every inner group again by a third key. */
  function Subgroup2<K, K2, K3(==), T>(gs: seq<Group<K, Group<K2, T>>>, key3: T -> K3): (r: seq<Group<K, Group<K2, Group<K3, T>>>>)
    ensures |r| == |gs|
    ensures forall i :: 0 <= i < |gs| ==> r[i].key == gs[i].key && r[i].items == Subgroup(gs[i].items, key3)
    decreases |gs|
  {
    if gs == [] then []
    else Subgroup2(gs[..|gs| - 1], key3) + [Group(gs[|gs| - 1].key, Subgroup(gs[|gs| - 1].items, key3))]
  }

  /** `groupBy([$k1, $k2, $k3])`: nested groups, keyed by the first key, then the second, then the third. */
  function GroupBy3<T, K1(==), K2(==), K3(==)>(s: seq<T>, k1: T -> K1, k2: T -> K2, k3: T -> K3): seq<Group<K1, Group<K2, Group<K3, T>>>> {
    Subgroup2(Subgroup(GroupBy(s, k1), k2), k3)
  }

  /**
   * At every level the keys are distinct, and an innermost group holds
   * exactly the members that carry its three keys; no group is empty.
   */
  lemma GroupBy3Member<T, K1, K2, K3>(s: seq<T>, k1: T -> K1, k2: T -> K2, k3: T -> K3, i: nat, j: nat, l: nat)
    requires i < |GroupBy3(s, k1, k2, k3)| && j < |GroupBy3(s, k1, k2, k3)[i].items|
    requires l < |GroupBy3(s, k1, k2, k3)[i].items[j].items|
    ensures var g := GroupBy3(s, k1, k2, k3)[i];
      g.items[j].items[l].items == WithKey(WithKey(WithKey(s, k1, g.key), k2, g.items[j].key), k3, g.items[j].items[l].key)
  {
    var g1 := GroupBy(s, k1);
    var g2 := Subgroup(g1, k2);
    GroupByItems(s, k1);
    GroupByItems(g1[i].items, k2);
    GroupByItems(g2[i].items[j].items, k3);
  }

  lemma GroupBy3NonEmpty<T, K1, K2, K3>(s: seq<T>, k1: T -> K1, k2: T -> K2, k3: T -> K3, i: nat, j: nat)
    requires i < |GroupBy3(s, k1, k2, k3)| && j < |GroupBy3(s, k1, k2, k3)[i].items|
    ensures GroupBy3(s, k1, k2, k3)[i].items[j].items != []
  {
    var g1 := GroupBy(s, k1);
    var g2 := Subgroup(g1, k2);
    var b := g2[i].items[j];
    GroupKeyWitness(g1[i].items, k2, j);
    GroupKeyOfMember(b.items, k3, b.items[0]);
  }

  lemma GroupBy3Keys<T, K1, K2, K3>(s: seq<T>, k1: T -> K1, k2: T -> K2, k3: T -> K3)
    ensures Keys(GroupBy3(s, k1, k2, k3)) == Distinct(MapSeq(s, k1))
  {
    var g1 := GroupBy(s, k1);
    var r := GroupBy3(s, k1, k2, k3);
    GroupByKeys(s, k1);
    assert |Keys(r)| == |Keys(g1)|;
    forall i | 0 <= i < |r| ensures Keys(r)[i] == Keys(g1)[i] {
      assert r[i].key == Subgroup(g1, k2)[i].key;
    }
  }

  /**
   * An innermost group holds the members of `s` that carry its three keys,
   * in the order of `s`.
   */
  ghost predicate Nested3Exact<T, K1, K2, K3>(r: seq<Group<K1, Group<K2, Group<K3, T>>>>, s: seq<T>,
                                                         k1: T -> K1, k2: T -> K2, k3: T -> K3) {
    forall i, j, l :: 0 <= i < |r| && 0 <= j < |r[i].items| && 0 <= l < |r[i].items[j].items| ==>
      r[i].items[j].items[l].items == WithKey(WithKey(WithKey(s, k1, r[i].key), k2, r[i].items[j].key), k3, r[i].items[j].items[l].key)
  }

  /** No second-level group is empty. */
  ghost predicate Nested3NonEmpty<K1, K2, K3, T>(r: seq<Group<K1, Group<K2, Group<K3, T>>>>) {
    forall i, j :: 0 <= i < |r| && 0 <= j < |r[i].items| ==> r[i].items[j].items != []
  }

  /** No second-level group of `groupBy([$k1, $k2, $k3])` is empty. */
  lemma GroupBy3AllNonEmpty<T, K1, K2, K3>(s: seq<T>, k1: T -> K1, k2: T -> K2, k3: T -> K3)
    ensures Nested3NonEmpty(GroupBy3(s, k1, k2, k3))
  {
    var r := GroupBy3(s, k1, k2, k3);
    forall i, j | 0 <= i < |r| && 0 <= j < |r[i].items| ensures r[i].items[j].items != [] {
      GroupBy3NonEmpty(s, k1, k2, k3, i, j);
    }
  }

  /** An innermost group of `groupBy([$k1, $k2, $k3])` holds exactly the members that carry its three keys. */
  lemma GroupBy3Exact<T, K1, K2, K3>(s: seq<T>, k1: T -> K1, k2: T -> K2, k3: T -> K3)
    ensures Nested3Exact(GroupBy3(s, k1, k2, k3), s, k1, k2, k3)
  {
    var r := GroupBy3(s, k1, k2, k3);
    forall i, j, l | 0 <= i < |r| && 0 <= j < |r[i].items| && 0 <= l < |r[i].items[j].items|
      ensures r[i].items[j].items[l].items
        == WithKey(WithKey(WithKey(s, k1, r[i].key), k2, r[i].items[j].key), k3, r[i].items[j].items[l].key)
    {
      GroupBy3Member(s, k1, k2, k3, i, j, l);
    }
  }

  /** `implode($sep, $parts)`. */
  function Join(parts: seq<string>, sep: string): (r: string)
    ensures parts == [] ==> r == []
    ensures |parts| == 1 ==> r == parts[0]
    decreases |parts|
  {
    if parts == [] then []
    else if |parts| == 1 then parts[0]
    else parts[0] + sep + Join(parts[1..], sep)
  }

  // -------------------------------------------------- splitting at a separator

  /** The position of the first `c` in `s` (`strpos`), or `|s|` when there is none. */
  function FirstIndexOf<T(==)>(s: seq<T>, c: T): (i: nat)
    ensures i <= |s|
    ensures i < |s| ==> s[i] == c
    ensures forall j :: 0 <= j < i ==> s[j] != c
    decreases |s|
  {
    if s == [] || s[0] == c then 0 else 1 + FirstIndexOf(s[1..], c)
  }

  lemma {:induction false} FirstIndexOfSeparator(a: string, b: string, sep: char)
    requires sep !in a
    ensures FirstIndexOf(a + [sep] + b, sep) == |a|
    decreases |a|
  {
    if a != [] {
      assert (a + [sep] + b)[1..] == a[1..] + [sep] + b;
      FirstIndexOfSeparator(a[1..], b, sep);
    }
  }

  /** A string split at a separator that the left part does not contain splits only one way. */
  lemma SplitAtSeparator(a1: string, b1: string, a2: string, b2: string, sep: char)
    requires sep !in a1 && sep !in a2
    requires a1 + [sep] + b1 == a2 + [sep] + b2
    ensures a1 == a2 && b1 == b2
  {
    var s := a1 + [sep] + b1;
    FirstIndexOfSeparator(a1, b1, sep);
    FirstIndexOfSeparator(a2, b2, sep);
    assert a1 == s[..|a1|];
    assert a2 == s[..|a2|];
    assert b1 == s[|a1| + 1..];
    assert b2 == (a2 + [sep] + b2)[|a2| + 1..];
  }

  /** `explode($sep, $s)` for a one-character separator: the pieces between the separators, in order. */
  function Split(s: string, sep: char): (r: seq<string>)
    ensures |r| >= 1
    decreases |s|
  {
    var i := FirstIndexOf(s, sep);
    if i == |s| then [s] else [s[..i]] + Split(s[i + 1..], sep)
  }

  /** Splitting `a . sep . b` where `a` has no separator yields `a`, then the pieces of `b`. */
  lemma SplitAtFirst(a: string, b: string, sep: char)
    requires sep !in a
    ensures Split(a + [sep] + b, sep) == [a] + Split(b, sep)
  {
    var s := a + [sep] + b;
    FirstIndexOfSeparator(a, b, sep);
    assert s[..|a|] == a;
    assert s[|a| + 1..] == b;
  }

  /**
   * `explode` undoes `implode` when no part holds the separator: the
   * joined string names its parts, in order.
   */
  lemma {:induction false} SplitJoin(parts: seq<string>, sep: char)
    requires parts != []
    requires forall i :: 0 <= i < |parts| ==> sep !in parts[i]
    ensures Split(Join(parts, [sep]), sep) == parts
    decreases |parts|
  {
    if |parts| == 1 {
      assert FirstIndexOf(parts[0], sep) == |parts[0]|;
    } else {
      var rest := parts[1..];
      assert Join(parts, [sep]) == parts[0] + [sep] + Join(rest, [sep]);
      SplitAtFirst(parts[0], Join(rest, [sep]), sep);
      SplitJoin(rest, sep);
      assert parts == [parts[0]] + rest;
    }
  }
}
