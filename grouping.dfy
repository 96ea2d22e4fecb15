/** pandas `groupby(key)[column].sum()`, `sort_values()` and `idxmax()` over
    (key, amount) pairs. */
module Grouping {
  import Seqs

  /** The distinct keys, in order of first appearance. */
  function KeysOf<K(==)>(entries: seq<(K, real)>): (ks: seq<K>)
    decreases |entries|
  {
    if entries == [] then []
    else
      var rest := KeysOf(entries[..|entries| - 1]);
      var k := entries[|entries| - 1].0;
      if k in rest then rest else rest + [k]
  }

  /** Some pair has key `k`. */
  ghost predicate Occurs<K>(entries: seq<(K, real)>, k: K)
  {
    exists i :: 0 <= i < |entries| && entries[i].0 == k
  }

  /** The keys of a grouping are exactly the keys that occur, each once. */
  lemma {:induction false} KeysOfSpec<K>(entries: seq<(K, real)>)
    ensures forall i, j :: 0 <= i < j < |KeysOf(entries)| ==> KeysOf(entries)[i] != KeysOf(entries)[j]
    ensures forall k :: k in KeysOf(entries) <==> Occurs(entries, k)
    decreases |entries|
  {
    if entries != [] {
      var init := entries[..|entries| - 1];
      var last := entries[|entries| - 1];
      KeysOfSpec(init);
      forall k ensures Occurs(entries, k) <==> Occurs(init, k) || last.0 == k {
        if Occurs(init, k) {
          var i :| 0 <= i < |init| && init[i].0 == k;
          assert entries[i].0 == k;
        }
        if Occurs(entries, k) {
          var i :| 0 <= i < |entries| && entries[i].0 == k;
          if i < |entries| - 1 {
            assert init[i].0 == k;
          }
        }
      }
    }
  }

  /** The summed amount of one key. */
  function SumFor<K(==)>(entries: seq<(K, real)>, k: K): real
    decreases |entries|
  {
    if entries == [] then 0.0
    else (if entries[0].0 == k then entries[0].1 else 0.0) + SumFor(entries[1..], k)
  }

  /** `groupby(key)[amount].sum()`: one pair per distinct key with the sum of
      its amounts. */
  function Totals<K(==)>(entries: seq<(K, real)>): (r: seq<(K, real)>)
  {
    var ks := KeysOf(entries);
    seq(|ks|, i requires 0 <= i < |ks| => (ks[i], SumFor(entries, ks[i])))
  }

  /** Every occurring key has exactly one total, and that total is the sum of
      the key's amounts. */
  lemma TotalsSpec<K>(entries: seq<(K, real)>)
    ensures forall i, j :: 0 <= i < j < |Totals(entries)| ==> Totals(entries)[i].0 != Totals(entries)[j].0
    ensures forall i :: 0 <= i < |Totals(entries)| ==>
      Totals(entries)[i].1 == SumFor(entries, Totals(entries)[i].0)
    ensures forall k :: Occurs(Totals(entries), k) <==> Occurs(entries, k)
  {
    KeysOfSpec(entries);
    var ks := KeysOf(entries);
    var t := Totals(entries);
    forall k ensures Occurs(t, k) <==> k in ks {
      if k in ks {
        var i :| 0 <= i < |ks| && ks[i] == k;
        assert t[i].0 == k;
      }
    }
  }

  /** Ascending in amount. */
  ghost predicate AscendingByAmount<K>(s: seq<(K, real)>)
  {
    forall i, j :: 0 <= i < j < |s| ==> s[i].1 <= s[j].1
  }

  /** Insert `x` before the first pair whose amount is not smaller. */
  function Insert<K(==)>(x: (K, real), s: seq<(K, real)>): (r: seq<(K, real)>)
    ensures multiset(r) == multiset(s) + multiset{x}
    decreases |s|
  {
    if s == [] then [x]
    else if x.1 <= s[0].1 then [x] + s
    else
      var rest := Insert(x, s[1..]);
      assert s == [s[0]] + s[1..];
      [s[0]] + rest
  }

  /** Inserting into an ascending sequence keeps it ascending. */
  lemma {:induction false} InsertAscending<K>(x: (K, real), s: seq<(K, real)>)
    requires AscendingByAmount(s)
    ensures AscendingByAmount(Insert(x, s))
    decreases |s|
  {
    if s != [] && x.1 > s[0].1 {
      var rest := Insert(x, s[1..]);
      InsertAscending(x, s[1..]);
      forall j | 0 <= j < |rest| ensures s[0].1 <= rest[j].1 {
        assert rest[j] in multiset(rest);
        assert rest[j] in multiset(s[1..]) || rest[j] == x;
        if rest[j] != x {
          var k :| 0 <= k < |s[1..]| && s[1..][k] == rest[j];
          assert s[k + 1] == rest[j];
        }
      }
      assert Insert(x, s) == [s[0]] + rest;
    }
  }

  /** `sort_values()`: the same pairs, ascending in amount. */
  function SortByAmount<K(==)>(s: seq<(K, real)>): (r: seq<(K, real)>)
    ensures multiset(r) == multiset(s)
    ensures AscendingByAmount(r)
    decreases |s|
  {
    if s == [] then []
    else
      assert s == [s[0]] + s[1..];
      InsertAscending(s[0], SortByAmount(s[1..]));
      Insert(s[0], SortByAmount(s[1..]))
  }

  /** No key appears twice. */
  ghost predicate DistinctKeys<K>(s: seq<(K, real)>)
  {
    forall i, j :: 0 <= i < j < |s| ==> s[i].0 != s[j].0
  }

  /** Inserting a pair whose key is new keeps the keys distinct. */
  lemma {:induction false} InsertKeepsDistinct<K>(x: (K, real), s: seq<(K, real)>)
    requires DistinctKeys(s)
    requires forall i :: 0 <= i < |s| ==> s[i].0 != x.0
    ensures DistinctKeys(Insert(x, s))
    decreases |s|
  {
    if s != [] && x.1 > s[0].1 {
      var rest := Insert(x, s[1..]);
      InsertKeepsDistinct(x, s[1..]);
      forall j | 0 <= j < |rest| ensures s[0].0 != rest[j].0 {
        assert rest[j] in multiset(rest);
        if rest[j] != x {
          assert rest[j] in multiset(s[1..]);
          var k :| 0 <= k < |s[1..]| && s[1..][k] == rest[j];
          assert s[k + 1] == rest[j];
        }
      }
      assert Insert(x, s) == [s[0]] + rest;
    }
  }

  /** Sorting a grouping keeps its keys distinct. */
  lemma {:induction false} SortKeepsDistinct<K>(s: seq<(K, real)>)
    requires DistinctKeys(s)
    ensures DistinctKeys(SortByAmount(s))
    decreases |s|
  {
    if s != [] {
      var sorted := SortByAmount(s[1..]);
      SortKeepsDistinct(s[1..]);
      forall i | 0 <= i < |sorted| ensures sorted[i].0 != s[0].0 {
        assert sorted[i] in multiset(s[1..]);
        var k :| 0 <= k < |s[1..]| && s[1..][k] == sorted[i];
        assert s[k + 1] == sorted[i];
      }
      InsertKeepsDistinct(s[0], sorted);
    }
  }

  /** Reordering keeps the set of keys. */
  lemma SameKeys<K>(a: seq<(K, real)>, b: seq<(K, real)>)
    requires multiset(a) == multiset(b)
    ensures forall k :: Occurs(a, k) <==> Occurs(b, k)
  {
    forall k | Occurs(a, k) ensures Occurs(b, k) {
      var i :| 0 <= i < |a| && a[i].0 == k;
      assert a[i] in multiset(b);
      var j :| 0 <= j < |b| && b[j] == a[i];
    }
    forall k | Occurs(b, k) ensures Occurs(a, k) {
      var i :| 0 <= i < |b| && b[i].0 == k;
      assert b[i] in multiset(a);
      var j :| 0 <= j < |a| && a[j] == b[i];
    }
  }

  /** A row filter keeps the keys distinct. */
  lemma {:induction false} FilterKeepsDistinct<K>(s: seq<(K, real)>, keep: ((K, real)) -> bool)
    requires DistinctKeys(s)
    ensures DistinctKeys(Seqs.Filter(s, keep))
    decreases |s|
  {
    if s != [] {
      var rest := Seqs.Filter(s[1..], keep);
      FilterKeepsDistinct(s[1..], keep);
      Seqs.FilterMembers(s[1..], keep);
      forall i | 0 <= i < |rest| ensures rest[i].0 != s[0].0 {
        var k :| 0 <= k < |s[1..]| && s[1..][k] == rest[i];
        assert s[k + 1] == rest[i];
      }
      var h := if keep(s[0]) then [s[0]] else [];
      assert Seqs.Filter(s, keep) == h + rest;
    }
  }

  /** With distinct keys no pair occurs twice. */
  lemma {:induction false} DistinctKeysOnce<K>(s: seq<(K, real)>, x: (K, real))
    requires DistinctKeys(s)
    ensures multiset(s)[x] <= 1
    decreases |s|
  {
    if s != [] {
      var init := s[..|s| - 1];
      assert s == init + [s[|s| - 1]];
      DistinctKeysOnce(init, x);
    }
  }

  /** Reordering keeps the keys distinct. */
  lemma PermutationKeepsDistinct<K>(a: seq<(K, real)>, b: seq<(K, real)>)
    requires multiset(a) == multiset(b) && DistinctKeys(a)
    ensures DistinctKeys(b)
  {
    forall i, j | 0 <= i < j < |b| ensures b[i].0 != b[j].0 {
      if b[i] == b[j] {
        assert b == b[..j] + b[j..];
        assert b[i] == b[..j][i] && b[j] == b[j..][0];
        assert multiset(b)[b[i]] == multiset(b[..j])[b[i]] + multiset(b[j..])[b[i]];
        DistinctKeysOnce(a, b[i]);
      } else {
        assert b[i] in multiset(a) && b[j] in multiset(a);
        var p :| 0 <= p < |a| && a[p] == b[i];
        var q :| 0 <= q < |a| && a[q] == b[j];
      }
    }
  }

  /** Ascending in key. */
  ghost predicate AscendingByKey(s: seq<(int, real)>)
  {
    forall i, j :: 0 <= i < j < |s| ==> s[i].0 <= s[j].0
  }

  /** Insert `x` before the first pair whose key is not smaller. */
  function InsertByKey(x: (int, real), s: seq<(int, real)>): (r: seq<(int, real)>)
    ensures multiset(r) == multiset(s) + multiset{x}
    decreases |s|
  {
    if s == [] then [x]
    else if x.0 <= s[0].0 then [x] + s
    else
      var rest := InsertByKey(x, s[1..]);
      assert s == [s[0]] + s[1..];
      [s[0]] + rest
  }

  /** Inserting into a sequence ascending in key keeps it ascending. */
  lemma {:induction false} InsertByKeyAscending(x: (int, real), s: seq<(int, real)>)
    requires AscendingByKey(s)
    ensures AscendingByKey(InsertByKey(x, s))
    decreases |s|
  {
    if s != [] && x.0 > s[0].0 {
      var rest := InsertByKey(x, s[1..]);
      InsertByKeyAscending(x, s[1..]);
      forall j | 0 <= j < |rest| ensures s[0].0 <= rest[j].0 {
        assert rest[j] in multiset(rest);
        assert rest[j] in multiset(s[1..]) || rest[j] == x;
        if rest[j] != x {
          var k :| 0 <= k < |s[1..]| && s[1..][k] == rest[j];
          assert s[k + 1] == rest[j];
        }
      }
      assert InsertByKey(x, s) == [s[0]] + rest;
    }
  }

  /** `sort_index()`: the same pairs, ascending in key. */
  function SortByKey(s: seq<(int, real)>): (r: seq<(int, real)>)
    ensures multiset(r) == multiset(s)
    ensures AscendingByKey(r)
    decreases |s|
  {
    if s == [] then []
    else
      assert s == [s[0]] + s[1..];
      InsertByKeyAscending(s[0], SortByKey(s[1..]));
      InsertByKey(s[0], SortByKey(s[1..]))
  }

  /** Sorting pairs with distinct keys by key gives strictly ascending keys,
      each key once. */
  lemma SortByKeyStrict(s: seq<(int, real)>)
    requires DistinctKeys(s)
    ensures DistinctKeys(SortByKey(s))
    ensures forall i, j :: 0 <= i < j < |SortByKey(s)| ==> SortByKey(s)[i].0 < SortByKey(s)[j].0
  {
    var r := SortByKey(s);
    PermutationKeepsDistinct(s, r);
    forall i, j | 0 <= i < j < |r| ensures r[i].0 < r[j].0 {
      assert r[i].0 <= r[j].0 && r[i].0 != r[j].0;
    }
  }

  /** The position of the first pair with the largest amount (`idxmax`). */
  function MaxIndex<K>(s: seq<(K, real)>): (i: nat)
    requires |s| > 0
    ensures i < |s|
    ensures forall j :: 0 <= j < |s| ==> s[j].1 <= s[i].1
    ensures forall j :: 0 <= j < i ==> s[j].1 < s[i].1
    decreases |s|
  {
    if |s| == 1 then 0
    else
      var k := MaxIndex(s[1..]) + 1;
      assert s[k] == s[1..][k - 1];
      if s[0].1 >= s[k].1 then 0 else k
  }
}
