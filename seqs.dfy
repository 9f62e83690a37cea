/**
 * Sequence operations the backend inherits from Python and pandas: slicing
 * with Python's bounds, order-preserving filters, first-occurrence
 * de-duplication, and a stable descending sort on a two-part key.
 */
module Seqs {

  // ---------------------------------------------------------------- slicing

  /** How Python normalises one slice bound for a sequence of length `n`. */
  function SliceBound(i: int, n: nat): (k: nat)
    ensures k <= n
    ensures 0 <= i <= n ==> k == i
  {
    if i < 0 then (if i + n < 0 then 0 else i + n) else if i > n then n else i
  }

  /**
   * `s[start:stop]` in Python; also pandas' `iloc[start:stop]`, and
   * `head(n)` is `PySlice(s, 0, n)`.
   */
  function PySlice<T>(s: seq<T>, start: int, stop: int): seq<T> {
    var a := SliceBound(start, |s|);
    var b := SliceBound(stop, |s|);
    if a < b then s[a..b] else []
  }

  /** `head(n)` / `[:n]` keeps the first `n` items for `n >= 0`, and drops the last `-n` for `n < 0`. */
  lemma HeadOf<T>(s: seq<T>, n: int)
    ensures n >= 0 ==> PySlice(s, 0, n) == s[..if n <= |s| then n else |s|]
    ensures n < 0 ==> PySlice(s, 0, n) == s[..if |s| + n < 0 then 0 else |s| + n]
  {
  }

  // ---------------------------------------------------------------- subsequences

  /** `a` is `b` with some elements deleted: `b`'s order is kept. */
  predicate IsSubseq<T(==)>(a: seq<T>, b: seq<T>)
    decreases |b|
  {
    a == [] || (b != [] && ((a[0] == b[0] && IsSubseq(a[1..], b[1..])) || IsSubseq(a, b[1..])))
  }

  lemma {:induction false} SubseqMembers<T>(a: seq<T>, b: seq<T>)
    requires IsSubseq(a, b)
    ensures |a| <= |b|
    ensures forall x :: x in a ==> x in b
    decreases |b|
  {
    if a != [] {
      if a[0] == b[0] && IsSubseq(a[1..], b[1..]) {
        SubseqMembers(a[1..], b[1..]);
        assert a == [a[0]] + a[1..];
      } else {
        SubseqMembers(a, b[1..]);
      }
    }
  }

  lemma {:induction false} SubseqRefl<T>(a: seq<T>)
    ensures IsSubseq(a, a)
  {
    if a != [] {
      SubseqRefl(a[1..]);
    }
  }

  lemma {:induction false} SubseqPrefix<T>(s: seq<T>, k: nat)
    requires k <= |s|
    ensures IsSubseq(s[..k], s)
  {
    if k > 0 {
      SubseqPrefix(s[1..], k - 1);
      assert s[..k][1..] == s[1..][..k - 1];
    }
  }

  lemma {:induction false} SubseqTransitive<T>(a: seq<T>, b: seq<T>, c: seq<T>)
    requires IsSubseq(a, b) && IsSubseq(b, c)
    ensures IsSubseq(a, c)
    decreases |c|
  {
    if a != [] {
      if b[0] == c[0] && IsSubseq(b[1..], c[1..]) {
        if a[0] == b[0] && IsSubseq(a[1..], b[1..]) {
          SubseqTransitive(a[1..], b[1..], c[1..]);
        } else {
          SubseqTransitive(a, b[1..], c[1..]);
        }
      } else {
        SubseqTransitive(a, b, c[1..]);
      }
    }
  }

  // ---------------------------------------------------------------- filter

  /** `[x for x in s if p(x)]`: exactly the elements that pass, in their order. */
  function Filter<T>(s: seq<T>, p: T -> bool): (r: seq<T>)
    ensures forall i :: 0 <= i < |r| ==> r[i] in s && p(r[i])
    ensures forall i :: 0 <= i < |s| && p(s[i]) ==> s[i] in r
    ensures IsSubseq(r, s)
  {
    if s == [] then []
    else if p(s[0]) then [s[0]] + Filter(s[1..], p)
    else
      var r := Filter(s[1..], p);
      assert r == [] || IsSubseq(r, s[1..]);
      r
  }

  lemma {:induction false} FilterConcat<T>(a: seq<T>, b: seq<T>, p: T -> bool)
    ensures Filter(a + b, p) == Filter(a, p) + Filter(b, p)
  {
    if a == [] {
      assert a + b == b;
    } else {
      assert (a + b)[0] == a[0] && (a + b)[1..] == a[1..] + b;
      FilterConcat(a[1..], b, p);
    }
  }

  // ---------------------------------------------------------------- distinctness

  predicate Distinct<T(==)>(s: seq<T>) {
    forall i, j :: 0 <= i < j < |s| ==> s[i] != s[j]
  }

  /** A distinct sequence holds each value at most once. */
  lemma {:induction false} DistinctCount<T>(s: seq<T>, x: T)
    requires Distinct(s)
    ensures multiset(s)[x] <= 1
    ensures x in s ==> multiset(s)[x] == 1
  {
    if s != [] {
      assert s == [s[0]] + s[1..];
      DistinctCount(s[1..], x);
      if s[0] == x {
        assert x !in s[1..];
      }
    }
  }

  lemma {:induction false} SubseqDistinct<T>(a: seq<T>, b: seq<T>)
    requires IsSubseq(a, b) && Distinct(b)
    ensures Distinct(a)
    decreases |b|
  {
    if a != [] {
      if a[0] == b[0] && IsSubseq(a[1..], b[1..]) {
        SubseqDistinct(a[1..], b[1..]);
        SubseqMembers(a[1..], b[1..]);
        assert a == [a[0]] + a[1..];
        forall j | 0 < j < |a| ensures a[0] != a[j] {
          assert a[j] in a[1..];
        }
      } else {
        SubseqDistinct(a, b[1..]);
      }
    }
  }

  /** The keys of the elements of `s`. */
  function KeySet<T, K>(s: seq<T>, key: T -> K): set<K> {
    set i | 0 <= i < |s| :: key(s[i])
  }

  /**
   * The loop `for x in s: if key(x) not in seen: seen.add(key(x)); out.append(x)`,
   * started from `seen`: it keeps the first element of each key not yet seen.
   */
  function DedupFrom<T, K>(s: seq<T>, key: T -> K, seen: set<K>): (r: seq<T>)
    ensures forall i, j :: 0 <= i < j < |r| ==> key(r[i]) != key(r[j])
    ensures forall i :: 0 <= i < |r| ==> key(r[i]) !in seen
    ensures KeySet(r, key) + seen == KeySet(s, key) + seen
    ensures IsSubseq(r, s)
  {
    if s == [] then []
    else
      var k := key(s[0]);
      if k in seen then
        var r := DedupFrom(s[1..], key, seen);
        assert KeySet(s, key) == {k} + KeySet(s[1..], key) by {
          forall i | 0 < i < |s| ensures key(s[i]) in KeySet(s[1..], key) {
            assert s[i] == s[1..][i - 1];
          }
          forall j | 0 <= j < |s| - 1 ensures key(s[1..][j]) in KeySet(s, key) {
            assert s[j + 1] == s[1..][j];
          }
        }
        assert r == [] || IsSubseq(r, s[1..]);
        r
      else
        var t := DedupFrom(s[1..], key, seen + {k});
        var r := [s[0]] + t;
        assert KeySet(s, key) == {k} + KeySet(s[1..], key) by {
          forall i | 0 < i < |s| ensures key(s[i]) in KeySet(s[1..], key) {
            assert s[i] == s[1..][i - 1];
          }
          forall j | 0 <= j < |s| - 1 ensures key(s[1..][j]) in KeySet(s, key) {
            assert s[j + 1] == s[1..][j];
          }
        }
        assert KeySet(r, key) == {k} + KeySet(t, key) by {
          assert r[0] == s[0] && key(r[0]) in KeySet(r, key);
          forall i | 0 < i < |r| ensures key(r[i]) in KeySet(t, key) {
            assert r[i] == t[i - 1];
          }
          forall j | 0 <= j < |t| ensures key(t[j]) in KeySet(r, key) {
            assert r[j + 1] == t[j];
          }
        }
        r
  }
  /** One step of the de-duplication loop. */
  lemma DedupStep<T, K>(s: seq<T>, key: T -> K, seen: set<K>)
    requires s != []
    ensures DedupFrom(s, key, seen)
         == if key(s[0]) in seen then DedupFrom(s[1..], key, seen) else [s[0]] + DedupFrom(s[1..], key, seen + {key(s[0])})
  {
  }

  // ---------------------------------------------------------------- sorting

  /** A sort key compared lexicographically: `major` first, then `minor`. */
  datatype Key = Key(major: int, minor: int)

  predicate KeyGe(a: Key, b: Key) {
    a.major > b.major || (a.major == b.major && a.minor >= b.minor)
  }

  predicate SortedDesc<T>(s: seq<T>, key: T -> Key) {
    forall i, j :: 0 <= i < j < |s| ==> KeyGe(key(s[i]), key(s[j]))
  }

  /** Inserts `x` before the first element whose key is not above `key(x)`. */
  function InsertDesc<T>(x: T, t: seq<T>, key: T -> Key): (r: seq<T>)
    requires SortedDesc(t, key)
    ensures SortedDesc(r, key)
    ensures multiset(r) == multiset(t) + multiset{x}
    ensures forall i :: 0 <= i < |r| ==> r[i] == x || r[i] in t
  {
    if t == [] || KeyGe(key(x), key(t[0])) then [x] + t
    else
      var rest := InsertDesc(x, t[1..], key);
      assert t == [t[0]] + t[1..];
      HeadAboveRest(x, t, rest, key);
      [t[0]] + rest
  }

  /** The head of `t` ranks at least as high as everything inserted after it. */
  lemma HeadAboveRest<T>(x: T, t: seq<T>, rest: seq<T>, key: T -> Key)
    requires SortedDesc(t, key) && t != [] && !KeyGe(key(x), key(t[0]))
    requires SortedDesc(rest, key)
    requires forall i :: 0 <= i < |rest| ==> rest[i] == x || rest[i] in t[1..]
    ensures SortedDesc([t[0]] + rest, key)
  {
    forall i | 0 <= i < |rest| ensures KeyGe(key(t[0]), key(rest[i])) {
      if rest[i] != x {
        var j :| 0 <= j < |t[1..]| && t[1..][j] == rest[i];
        assert t[j + 1] == rest[i];
      }
    }
    var r := [t[0]] + rest;
    forall a, b | 0 <= a < b < |r| ensures KeyGe(key(r[a]), key(r[b])) {
      assert r[b] == rest[b - 1];
      if a > 0 {
        assert r[a] == rest[a - 1];
      }
    }
  }

  /**
   * Orders `s` by descending key. Elements with equal keys keep their
   * relative order, as Python's `sorted(..., reverse=True)` does.
   */
  function SortDesc<T>(s: seq<T>, key: T -> Key): (r: seq<T>)
    ensures SortedDesc(r, key)
    ensures multiset(r) == multiset(s)
  {
    if s == [] then []
    else
      assert s == [s[0]] + s[1..];
      InsertDesc(s[0], SortDesc(s[1..], key), key)
  }

  lemma SortDescMembers<T>(s: seq<T>, key: T -> Key)
    ensures |SortDesc(s, key)| == |s|
    ensures forall x :: x in SortDesc(s, key) <==> x in s
  {
    var r := SortDesc(s, key);
    assert |r| == |multiset(r)| == |multiset(s)| == |s|;
    forall x ensures x in r <==> x in s {
      assert x in r <==> x in multiset(r);
      assert x in s <==> x in multiset(s);
    }
  }

  /**
   * `sort_values(ascending=False).head(n)`: the first `n` of the sorted
   * sequence are in order and come from `s`; when `n` covers `s` nothing is
   * left out.
   */
  lemma TopOfSorted<T>(s: seq<T>, key: T -> Key, n: int)
    ensures var top := PySlice(SortDesc(s, key), 0, n);
      && (n >= 0 ==> |top| <= n)
      && SortedDesc(top, key)
      && (forall i :: 0 <= i < |top| ==> top[i] in s)
      && (n >= |s| ==> multiset(top) == multiset(s))
  {
    var sorted := SortDesc(s, key);
    SortDescMembers(s, key);
    HeadOf(sorted, n);
    var top := PySlice(sorted, 0, n);
    assert top == sorted[..|top|];
    if n >= |s| {
      assert top == sorted;
    }
  }

  /** No element left out of the first `n` ranks above any element kept. */
  lemma TopOfSortedDominates<T>(s: seq<T>, key: T -> Key, n: int)
    ensures var top := PySlice(SortDesc(s, key), 0, n);
      forall j :: 0 <= j < |s| && s[j] !in top ==> forall i :: 0 <= i < |top| ==> KeyGe(key(top[i]), key(s[j]))
  {
    var sorted := SortDesc(s, key);
    SortDescMembers(s, key);
    HeadOf(sorted, n);
    var top := PySlice(sorted, 0, n);
    var k := |top|;
    assert top == sorted[..k];
    forall q | 0 <= q < k ensures sorted[q] in top {
      assert top[q] == sorted[q];
    }
    forall j | 0 <= j < |s| && s[j] !in top
      ensures forall i :: 0 <= i < |top| ==> KeyGe(key(top[i]), key(s[j]))
    {
      assert s[j] in sorted;
      var p :| 0 <= p < |sorted| && sorted[p] == s[j];
      assert k <= p;
      forall i | 0 <= i < k ensures KeyGe(key(top[i]), key(s[j])) {
        assert top[i] == sorted[i];
      }
    }
  }
}
