/** Group-by-sum of total_amount over one column, and the sort that orders
    the groups. A group is a (key, summed cents) pair, as in a pandas Series
    produced by df.groupby(col)['total_amount'].sum(). */
module Grouping {
  import opened Sales

  type Group<K> = (K, int)

  /** The revenue of the rows whose key column equals k. */
  function RevenueWhere<K(==,!new)>(t: Table, key: Transaction -> K, k: K): int {
    if t == [] then 0
    else (if key(t[0]) == k then t[0].totalAmount else 0) + RevenueWhere(t[1..], key, k)
  }

  /** The key values present in a table. */
  function KeysOf<K(==,!new)>(t: Table, key: Transaction -> K): (ks: set<K>)
    ensures forall i :: 0 <= i < |t| ==> key(t[i]) in ks
    ensures forall k :: k in ks ==> exists i :: 0 <= i < |t| && key(t[i]) == k
  {
    if t == [] then {}
    else
      assert forall i :: 1 <= i < |t| ==> t[i] == t[1..][i - 1];
      {key(t[0])} + KeysOf(t[1..], key)
  }

  /** The keys of a list of groups. */
  function KeySet<K>(g: seq<Group<K>>): (ks: set<K>)
    ensures forall i :: 0 <= i < |g| ==> g[i].0 in ks
    ensures forall k :: k in ks ==> exists i :: 0 <= i < |g| && g[i].0 == k
  {
    if g == [] then {}
    else
      assert forall i :: 1 <= i < |g| ==> g[i] == g[1..][i - 1];
      {g[0].0} + KeySet(g[1..])
  }

  predicate DistinctKeys<K(==,!new)>(g: seq<Group<K>>) {
    forall i, j :: 0 <= i < j < |g| ==> g[i].0 != g[j].0
  }

  /** The value stored under k, or 0 when k has no group. */
  function ValueOf<K(==,!new)>(g: seq<Group<K>>, k: K): int {
    if g == [] then 0 else if g[0].0 == k then g[0].1 else ValueOf(g[1..], k)
  }

  function SumValues<K>(g: seq<Group<K>>): int {
    if g == [] then 0 else g[0].1 + SumValues(g[1..])
  }

  /** In a list with distinct keys, looking up an entry's key gives its value. */
  lemma {:induction false} ValueOfEntry<K(!new)>(g: seq<Group<K>>, i: nat)
    requires DistinctKeys(g) && i < |g|
    ensures ValueOf(g, g[i].0) == g[i].1
  {
    if i > 0 {
      ValueOfEntry(g[1..], i - 1);
    }
  }

  lemma ConsParts<K>(a: Group<K>, s: seq<Group<K>>)
    ensures ([a] + s)[0] == a && ([a] + s)[1..] == s
    ensures KeySet([a] + s) == {a.0} + KeySet(s)
    ensures SumValues([a] + s) == a.1 + SumValues(s)
  {
    assert ([a] + s)[1..] == s;
  }

  /** A cons has distinct keys exactly when its head's key is new to its tail. */
  lemma ConsDistinct<K(!new)>(a: Group<K>, s: seq<Group<K>>)
    ensures DistinctKeys([a] + s) <==> a.0 !in KeySet(s) && DistinctKeys(s)
  {
    var r := [a] + s;
    ConsParts(a, s);
    if DistinctKeys(r) {
      forall i | 0 <= i < |s| ensures s[i].0 != a.0 {
        assert r[i + 1] == s[i];
      }
      forall i, j | 0 <= i < j < |s| ensures s[i].0 != s[j].0 {
        assert r[i + 1] == s[i] && r[j + 1] == s[j];
      }
    }
    if a.0 !in KeySet(s) && DistinctKeys(s) {
      forall i, j | 0 <= i < j < |r| ensures r[i].0 != r[j].0 {
        assert r[j] == s[j - 1];
        if i > 0 { assert r[i] == s[i - 1]; }
      }
    }
  }

  /** Adds v to the group of k, opening a group for k when there is none. */
  function AddTo<K(==)>(g: seq<Group<K>>, k: K, v: int): seq<Group<K>> {
    if g == [] then [(k, v)]
    else if g[0].0 == k then [(k, g[0].1 + v)] + g[1..]
    else [g[0]] + AddTo(g[1..], k, v)
  }

  lemma {:induction false} AddToFacts<K(!new)>(g: seq<Group<K>>, k: K, v: int)
    requires DistinctKeys(g)
    ensures DistinctKeys(AddTo(g, k, v))
    ensures KeySet(AddTo(g, k, v)) == KeySet(g) + {k}
    ensures forall x {:trigger ValueOf(AddTo(g, k, v), x)} ::
      ValueOf(AddTo(g, k, v), x) == ValueOf(g, x) + (if x == k then v else 0)
    ensures SumValues(AddTo(g, k, v)) == SumValues(g) + v
  {
    var r := AddTo(g, k, v);
    if g == [] {
      ConsParts((k, v), []);
    } else {
      assert g == [g[0]] + g[1..];
      ConsParts(g[0], g[1..]);
      ConsDistinct(g[0], g[1..]);
      if g[0].0 == k {
        ConsParts((k, g[0].1 + v), g[1..]);
        ConsDistinct((k, g[0].1 + v), g[1..]);
      } else {
        var rest := AddTo(g[1..], k, v);
        AddToFacts(g[1..], k, v);
        ConsParts(g[0], rest);
        ConsDistinct(g[0], rest);
      }
    }
  }

  /** df.groupby(key)['total_amount'].sum(): one group per key value present,
      holding the revenue of exactly the rows with that key. */
  function GroupSum<K(==,!new)>(t: Table, key: Transaction -> K): (g: seq<Group<K>>)
    ensures DistinctKeys(g)
    ensures KeySet(g) == KeysOf(t, key)
    ensures forall k :: ValueOf(g, k) == RevenueWhere(t, key, k)
    ensures SumValues(g) == TotalRevenue(t)
  {
    if t == [] then []
    else
      var rest := GroupSum(t[1..], key);
      AddToFacts(rest, key(t[0]), t[0].totalAmount);
      AddTo(rest, key(t[0]), t[0].totalAmount)
  }

  /** Every group holds the revenue of the rows with its key. */
  lemma GroupSumEntry<K(!new)>(t: Table, key: Transaction -> K, i: nat)
    requires i < |GroupSum(t, key)|
    ensures GroupSum(t, key)[i].1 == RevenueWhere(t, key, GroupSum(t, key)[i].0)
  {
    ValueOfEntry(GroupSum(t, key), i);
  }

  /** A list with distinct keys has as many entries as keys. */
  lemma {:induction false} DistinctKeysCount<K(!new)>(g: seq<Group<K>>)
    requires DistinctKeys(g)
    ensures |KeySet(g)| == |g|
  {
    if g != [] {
      assert g == [g[0]] + g[1..];
      ConsParts(g[0], g[1..]);
      ConsDistinct(g[0], g[1..]);
      DistinctKeysCount(g[1..]);
    }
  }

  // ---- sorting ----

  /** le is total and transitive: a valid sort key comparison. */
  ghost predicate TotalPreorder<T(!new)>(le: (T, T) -> bool) {
    && (forall a, b :: le(a, b) || le(b, a))
    && (forall a, b, c :: le(a, b) && le(b, c) ==> le(a, c))
  }

  predicate SortedBy<T(!new)>(s: seq<T>, le: (T, T) -> bool) {
    forall i, j :: 0 <= i < j < |s| ==> le(s[i], s[j])
  }

  /** Puts x before the first element it does not come after. */
  function Insert<T>(x: T, s: seq<T>, le: (T, T) -> bool): seq<T> {
    if s == [] then [x]
    else if le(x, s[0]) then [x] + s
    else [s[0]] + Insert(x, s[1..], le)
  }

  lemma {:induction false} InsertMultiset<T>(x: T, s: seq<T>, le: (T, T) -> bool)
    ensures multiset(Insert(x, s, le)) == multiset(s) + multiset{x}
  {
    if s != [] {
      assert s == [s[0]] + s[1..];
      if !le(x, s[0]) {
        InsertMultiset(x, s[1..], le);
      }
    }
  }

  lemma {:induction false} InsertMembers<T>(x: T, s: seq<T>, le: (T, T) -> bool, j: nat)
    requires j < |Insert(x, s, le)|
    ensures Insert(x, s, le)[j] == x || Insert(x, s, le)[j] in s
  {
    if s != [] && !le(x, s[0]) && j > 0 {
      InsertMembers(x, s[1..], le, j - 1);
    }
  }

  lemma {:induction false} InsertFacts<T(!new)>(x: T, s: seq<T>, le: (T, T) -> bool)
    requires TotalPreorder(le) && SortedBy(s, le)
    ensures multiset(Insert(x, s, le)) == multiset(s) + multiset{x}
    ensures SortedBy(Insert(x, s, le), le)
  {
    InsertMultiset(x, s, le);
    if s != [] {
      if !le(x, s[0]) {
        var rest := Insert(x, s[1..], le);
        InsertFacts(x, s[1..], le);
        var r := [s[0]] + rest;
        forall j | 0 <= j < |rest| ensures le(s[0], rest[j]) {
          InsertMembers(x, s[1..], le, j);
          if rest[j] != x {
            var m :| 0 <= m < |s[1..]| && s[1..][m] == rest[j];
            assert s[m + 1] == rest[j];
          }
        }
        forall i, j | 0 <= i < j < |r| ensures le(r[i], r[j]) {
          assert r[j] == rest[j - 1];
          if i > 0 { assert r[i] == rest[i - 1]; }
        }
      } else {
        var r := [x] + s;
        forall i, j | 0 <= i < j < |r| ensures le(r[i], r[j]) {
          assert r[j] == s[j - 1];
          if i > 0 { assert r[i] == s[i - 1]; }
        }
      }
    }
  }

  /** An ordering of s by le; tied elements may come in any order. */
  function Sort<T(!new)>(s: seq<T>, le: (T, T) -> bool): (r: seq<T>)
    requires TotalPreorder(le)
    ensures multiset(r) == multiset(s)
    ensures |r| == |s|
    ensures SortedBy(r, le)
  {
    if s == [] then []
    else
      assert s == [s[0]] + s[1..];
      var rest := Sort(s[1..], le);
      InsertFacts(s[0], rest, le);
      Insert(s[0], rest, le)
  }

  /** Inserting a group whose key is new keeps keys distinct and adds that
      group's key and value. */
  lemma {:induction false} InsertGroup<K(!new)>(x: Group<K>, s: seq<Group<K>>, le: (Group<K>, Group<K>) -> bool)
    requires DistinctKeys(s) && x.0 !in KeySet(s)
    ensures DistinctKeys(Insert(x, s, le))
    ensures KeySet(Insert(x, s, le)) == KeySet(s) + {x.0}
    ensures SumValues(Insert(x, s, le)) == SumValues(s) + x.1
  {
    if s == [] {
      ConsParts(x, []);
    } else {
      assert s == [s[0]] + s[1..];
      ConsParts(s[0], s[1..]);
      ConsDistinct(s[0], s[1..]);
      if le(x, s[0]) {
        ConsParts(x, s);
        ConsDistinct(x, s);
      } else {
        var rest := Insert(x, s[1..], le);
        InsertGroup(x, s[1..], le);
        ConsParts(s[0], rest);
        ConsDistinct(s[0], rest);
      }
    }
  }

  /** Sorting keeps exactly the elements it was given. */
  lemma SortMembers<T(!new)>(s: seq<T>, le: (T, T) -> bool)
    requires TotalPreorder(le)
    ensures forall e :: e in Sort(s, le) <==> e in s
  {
    var r := Sort(s, le);
    forall e ensures e in r <==> e in s {
      assert e in r <==> e in multiset(r);
      assert e in s <==> e in multiset(s);
    }
  }

  /** Sorting a list of groups keeps its keys, their distinctness and the
      total of its values. */
  lemma {:induction false} SortGroups<K(!new)>(g: seq<Group<K>>, le: (Group<K>, Group<K>) -> bool)
    requires TotalPreorder(le) && DistinctKeys(g)
    ensures DistinctKeys(Sort(g, le))
    ensures KeySet(Sort(g, le)) == KeySet(g)
    ensures SumValues(Sort(g, le)) == SumValues(g)
  {
    if g != [] {
      assert g == [g[0]] + g[1..];
      ConsParts(g[0], g[1..]);
      ConsDistinct(g[0], g[1..]);
      var rest := Sort(g[1..], le);
      SortGroups(g[1..], le);
      assert Sort(g, le) == Insert(g[0], rest, le);
      InsertGroup(g[0], rest, le);
    }
  }
}
