/** Generic sequence operations behind the pandas row filters
    (`df[mask]`), `len(df[mask])` and `head(n)`. */
module Seqs {

  /** `a` can be obtained from `b` by deleting elements: the rows a boolean
      mask keeps, in their original order. */
  ghost predicate IsSubsequence<T>(a: seq<T>, b: seq<T>)
    decreases |b|
  {
    if a == [] then true
    else if b == [] then false
    else if a[0] == b[0] then IsSubsequence(a[1..], b[1..])
    else IsSubsequence(a, b[1..])
  }

  /** The rows of `s` for which `keep` holds, in order (a pandas boolean mask). */
  function Filter<T>(s: seq<T>, keep: T -> bool): (r: seq<T>)
    ensures |r| <= |s|
    ensures forall i :: 0 <= i < |r| ==> keep(r[i])
    decreases |s|
  {
    if s == [] then []
    else (if keep(s[0]) then [s[0]] else []) + Filter(s[1..], keep)
  }

  /** The filter keeps exactly the rows its mask selects: every row of the
      result is a row of `s`, and every selected row of `s` is in the result. */
  lemma {:induction false} FilterMembers<T>(s: seq<T>, keep: T -> bool)
    ensures forall i :: 0 <= i < |Filter(s, keep)| ==> Filter(s, keep)[i] in s
    ensures forall i :: 0 <= i < |s| && keep(s[i]) ==> s[i] in Filter(s, keep)
    decreases |s|
  {
    if s != [] {
      FilterMembers(s[1..], keep);
      var rest := Filter(s[1..], keep);
      var h := if keep(s[0]) then [s[0]] else [];
      assert Filter(s, keep) == h + rest;
      forall i | 0 <= i < |s| && keep(s[i])
        ensures s[i] in Filter(s, keep)
      {
        if i > 0 {
          assert s[i] == s[1..][i - 1];
        }
      }
    }
  }

  /** Filtering two pieces separately is filtering them end to end. */
  lemma {:induction false} FilterAppend<T>(a: seq<T>, b: seq<T>, keep: T -> bool)
    ensures Filter(a + b, keep) == Filter(a, keep) + Filter(b, keep)
    decreases |a|
  {
    if a == [] {
      assert a + b == b;
    } else {
      FilterAppend(a[1..], b, keep);
      assert (a + b)[1..] == a[1..] + b;
    }
  }

  /** The number of rows for which `p` holds (`mask.sum()`). */
  function Count<T>(s: seq<T>, p: T -> bool): (n: nat)
    ensures n <= |s|
    decreases |s|
  {
    if s == [] then 0
    else (if p(s[0]) then 1 else 0) + Count(s[1..], p)
  }

  /** Some row satisfies `p` exactly when the count is positive. */
  lemma {:induction false} CountPositive<T>(s: seq<T>, p: T -> bool)
    ensures Count(s, p) > 0 <==> exists i :: 0 <= i < |s| && p(s[i])
    decreases |s|
  {
    if s != [] {
      CountPositive(s[1..], p);
      if exists i :: 0 <= i < |s| && p(s[i]) {
        var i :| 0 <= i < |s| && p(s[i]);
        if i > 0 {
          assert p(s[1..][i - 1]);
        }
      }
      if exists i :: 0 <= i < |s[1..]| && p(s[1..][i]) {
        var i :| 0 <= i < |s[1..]| && p(s[1..][i]);
        assert p(s[i + 1]);
      }
    }
  }

  /** Prepending an optional copy of `x` to a subsequence of `b` gives a
      subsequence of `[x] + b`. */
  lemma PrependOptional<T>(opt: seq<T>, x: T, a: seq<T>, b: seq<T>)
    requires opt == [] || opt == [x]
    requires IsSubsequence(a, b)
    ensures IsSubsequence(opt + a, [x] + b)
  {
    if opt == [] {
      assert opt + a == a;
      SubsequenceOfTail(a, x, b);
    } else {
      assert (opt + a)[1..] == a && ([x] + b)[1..] == b;
    }
  }

  /** A filter keeps its rows in order: the result is a subsequence. */
  lemma {:induction false} FilterIsSubsequence<T>(s: seq<T>, keep: T -> bool)
    ensures IsSubsequence(Filter(s, keep), s)
    decreases |s|
  {
    if s != [] {
      FilterIsSubsequence(s[1..], keep);
      var rest := Filter(s[1..], keep);
      if keep(s[0]) {
        assert Filter(s, keep) == [s[0]] + rest;
        assert ([s[0]] + rest)[1..] == rest;
      } else {
        assert Filter(s, keep) == rest;
        if rest != [] {
          assert keep(rest[0]);
          assert rest[0] != s[0];
        }
      }
    }
  }

  /** The length of a filter is the number of rows its mask selects. */
  lemma {:induction false} FilterLength<T>(s: seq<T>, keep: T -> bool)
    ensures |Filter(s, keep)| == Count(s, keep)
    decreases |s|
  {
    if s != [] {
      FilterLength(s[1..], keep);
    }
  }

  /** Two successive masks are one mask with the conjunction. */
  lemma {:induction false} FilterFilter<T>(s: seq<T>, p: T -> bool, q: T -> bool, both: T -> bool)
    requires forall x :: both(x) == (p(x) && q(x))
    ensures Filter(Filter(s, p), q) == Filter(s, both)
    decreases |s|
  {
    if s != [] {
      FilterFilter(s[1..], p, q, both);
      if p(s[0]) {
        assert Filter(s, p) == [s[0]] + Filter(s[1..], p);
        assert Filter(Filter(s, p), q)
            == (if q(s[0]) then [s[0]] else []) + Filter(Filter(s[1..], p), q);
      } else {
        assert Filter(s, p) == Filter(s[1..], p);
      }
    }
  }

  /** A weaker mask keeps at least the rows of a stronger one, in order. */
  lemma {:induction false} FilterWeaker<T>(s: seq<T>, strong: T -> bool, weak: T -> bool)
    requires forall x :: strong(x) ==> weak(x)
    ensures IsSubsequence(Filter(s, strong), Filter(s, weak))
    ensures Count(s, strong) <= Count(s, weak)
    decreases |s|
  {
    if s != [] {
      FilterWeaker(s[1..], strong, weak);
      var a := Filter(s[1..], strong);
      var b := Filter(s[1..], weak);
      if strong(s[0]) {
        assert Filter(s, strong) == [s[0]] + a && Filter(s, weak) == [s[0]] + b;
        assert ([s[0]] + a)[1..] == a && ([s[0]] + b)[1..] == b;
      } else if weak(s[0]) {
        assert Filter(s, strong) == a && Filter(s, weak) == [s[0]] + b;
        SubsequenceOfTail(a, s[0], b);
      } else {
        assert Filter(s, strong) == a && Filter(s, weak) == b;
      }
    }
  }

  /** Prepending an element to the longer sequence keeps a subsequence one. */
  lemma {:induction false} SubsequenceOfTail<T>(a: seq<T>, x: T, b: seq<T>)
    requires IsSubsequence(a, b)
    ensures IsSubsequence(a, [x] + b)
    decreases |b|, 1
  {
    assert ([x] + b)[1..] == b;
    if a != [] && a[0] == x {
      SubsequenceDropHead(a, b);
    }
  }

  /** Dropping the first element of `a` keeps a subsequence. */
  lemma {:induction false} SubsequenceDropHead<T>(a: seq<T>, b: seq<T>)
    requires a != [] && IsSubsequence(a, b)
    ensures IsSubsequence(a[1..], b)
    decreases |b|, 0
  {
    if a[0] != b[0] {
      SubsequenceDropHead(a, b[1..]);
    }
    SubsequenceOfTail(a[1..], b[0], b[1..]);
    assert [b[0]] + b[1..] == b;
  }

  /** The first `n` rows (pandas `head(n)`). */
  function Head<T>(s: seq<T>, n: nat): (r: seq<T>)
    ensures |r| == if |s| < n then |s| else n
    ensures forall i :: 0 <= i < |r| ==> r[i] == s[i]
  {
    if |s| < n then s else s[..n]
  }

  /** A sequence is its three slices at `j` and `n`, end to end. */
  lemma ThreeSlices<T>(s: seq<T>, j: nat, n: nat)
    requires j <= n <= |s|
    ensures s == s[..j] + (s[j..n] + s[n..])
  {
    assert s[j..n] + s[n..] == s[j..];
  }

  /** Slicing a suffix is slicing the whole. */
  lemma SliceOfSuffix<T>(s: seq<T>, k: nat, m: nat)
    requires k + m <= |s|
    ensures s[k..][..m] == s[k..k + m] && s[k..][m..] == s[k + m..]
  {
  }

  /** Every row satisfies `p` exactly when the count is the length. */
  lemma {:induction false} CountAll<T>(s: seq<T>, p: T -> bool)
    ensures Count(s, p) == |s| <==> forall i :: 0 <= i < |s| ==> p(s[i])
    decreases |s|
  {
    if s != [] {
      CountAll(s[1..], p);
      if forall i :: 0 <= i < |s[1..]| ==> p(s[1..][i]) {
        if p(s[0]) {
          forall i | 0 <= i < |s| ensures p(s[i]) {
            if i > 0 {
              assert p(s[1..][i - 1]);
            }
          }
        }
      } else {
        var i :| 0 <= i < |s[1..]| && !p(s[1..][i]);
        assert !p(s[i + 1]);
      }
    }
  }

  /** `f` applied to every element, in order. */
  function Map<A, B>(s: seq<A>, f: A -> B): (r: seq<B>)
    ensures |r| == |s|
    ensures forall i :: 0 <= i < |s| ==> r[i] == f(s[i])
  {
    seq(|s|, i requires 0 <= i < |s| => f(s[i]))
  }

  /** Two permutations of each other stay so when the first element of one
      and a matching element of the other are removed. */
  lemma RemoveMatch<T>(a: seq<T>, b: seq<T>, j: nat)
    requires multiset(a) == multiset(b)
    requires a != [] && j < |b| && b[j] == a[0]
    ensures multiset(a[1..]) == multiset(b[..j] + b[j + 1..])
    ensures b == b[..j] + [b[j]] + b[j + 1..]
  {
    assert a == [a[0]] + a[1..];
    assert b == b[..j] + [b[j]] + b[j + 1..];
    var ma := multiset(a[1..]);
    var mb := multiset(b[..j] + b[j + 1..]);
    assert multiset(a) == ma + multiset{a[0]};
    assert multiset(b) == mb + multiset{a[0]};
    forall x ensures ma[x] == mb[x] {
      assert (ma + multiset{a[0]})[x] == (mb + multiset{a[0]})[x];
    }
  }

  /** Where each part of `a + b + c + d` sits in the whole. */
  lemma FourParts<T>(a: seq<T>, b: seq<T>, c: seq<T>, d: seq<T>)
    ensures var s := a + b + c + d;
      && |s| == |a| + |b| + |c| + |d|
      && s[..|a|] == a
      && (forall j :: 0 <= j < |b| ==> s[|a| + j] == b[j])
      && (forall j :: 0 <= j < |c| ==> s[|a| + |b| + j] == c[j])
      && (forall j :: 0 <= j < |d| ==> s[|a| + |b| + |c| + j] == d[j])
  {
  }

  lemma AppendAssoc<T>(a: seq<T>, b: seq<T>, c: seq<T>)
    ensures (a + b) + c == a + (b + c)
  {
  }

  /** Mapping two pieces is mapping them end to end. */
  lemma MapAppend<A, B>(x: seq<A>, y: seq<A>, f: A -> B)
    ensures Map(x + y, f) == Map(x, f) + Map(y, f)
  {
  }

  /** Taking one element out of the middle takes its image out of the
      image's multiset. */
  lemma MapWithout<A, B>(pre: seq<A>, x: A, post: seq<A>, f: A -> B)
    ensures multiset(Map(pre + [x] + post, f)) == multiset(Map(pre + post, f)) + multiset{f(x)}
  {
    MapAppend(pre + [x], post, f);
    MapAppend(pre, [x], f);
    MapAppend(pre, post, f);
  }

  /** Reordering the elements reorders their images: a permutation maps to
      a permutation. */
  lemma {:induction false} MapPermutation<A, B>(a: seq<A>, b: seq<A>, f: A -> B)
    requires multiset(a) == multiset(b)
    ensures multiset(Map(a, f)) == multiset(Map(b, f))
    decreases |a|
  {
    if a == [] {
      assert b == [];
    } else {
      assert a[0] in multiset(b);
      var j :| 0 <= j < |b| && b[j] == a[0];
      var pre, post := b[..j], b[j + 1..];
      RemoveMatch(a, b, j);
      MapPermutation(a[1..], pre + post, f);
      MapWithout([], a[0], a[1..], f);
      assert [] + [a[0]] + a[1..] == a && [] + a[1..] == a[1..];
      MapWithout(pre, b[j], post, f);
    }
  }
}
