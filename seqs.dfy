/**
 * The Array built-ins the front end chains together: `filter`, `find`, a
 * stable descending `sort` by a numeric key, `slice(0, n)` and `map` over the
 * keyed pairs.
 */
module Seqs {
  import opened Wrappers

  // ---------------------------------------------------------------------------
  // filter
  // ---------------------------------------------------------------------------

  /** `s.filter(keep)`: the elements satisfying `keep`, in their order. */
  function Filter<T>(s: seq<T>, keep: T -> bool): (r: seq<T>)
    ensures |r| <= |s|
    ensures forall k :: 0 <= k < |r| ==> keep(r[k])
    decreases |s|
  {
    if s == [] then [] else (if keep(s[0]) then [s[0]] else []) + Filter(s[1..], keep)
  }

  /** `r` is `s` with some elements removed, the rest kept in order: each
      element of `r` is matched, in turn, with a later element of `s`. */
  ghost predicate IsSubsequence<T>(r: seq<T>, s: seq<T>)
    decreases |s|
  {
    if r == [] then true
    else if s == [] then false
    else (r[0] == s[0] && IsSubsequence(r[1..], s[1..])) || IsSubsequence(r, s[1..])
  }

  lemma {:induction false} FilterMembership<T>(s: seq<T>, keep: T -> bool, x: T)
    ensures x in Filter(s, keep) <==> x in s && keep(x)
    decreases |s|
  {
    if s != [] {
      FilterMembership(s[1..], keep, x);
      assert s == [s[0]] + s[1..];
    }
  }

  lemma {:induction false} FilterIsSubsequence<T>(s: seq<T>, keep: T -> bool)
    ensures IsSubsequence(Filter(s, keep), s)
    decreases |s|
  {
    if s != [] {
      FilterIsSubsequence(s[1..], keep);
      var r := Filter(s, keep);
      if keep(s[0]) {
        assert r[0] == s[0] && r[1..] == Filter(s[1..], keep);
      } else {
        assert r == Filter(s[1..], keep);
      }
    }
  }

  lemma FilterCons<T>(x: T, s: seq<T>, keep: T -> bool)
    ensures Filter([x] + s, keep) == (if keep(x) then [x] else []) + Filter(s, keep)
  {
    assert ([x] + s)[1..] == s;
  }

  /** A list of five elements given one by one. */
  lemma FiveElements<T>(s: seq<T>, a: T, b: T, c: T, d: T, e: T)
    requires |s| == 5 && s[0] == a && s[1] == b && s[2] == c && s[3] == d && s[4] == e
    ensures s == [a, b, c, d, e]
  {
  }

  /** What a filter keeps of five elements. */
  lemma FilterOfFive<T>(s: seq<T>, keep: T -> bool)
    requires |s| == 5
    ensures Filter(s, keep) ==
      (if keep(s[0]) then [s[0]] else []) + ((if keep(s[1]) then [s[1]] else [])
      + ((if keep(s[2]) then [s[2]] else []) + ((if keep(s[3]) then [s[3]] else [])
      + (if keep(s[4]) then [s[4]] else []))))
  {
    var t1 := s[1..];
    var t2 := t1[1..];
    var t3 := t2[1..];
    var t4 := t3[1..];
    assert t4 == [s[4]];
    assert Filter(t4, keep) == (if keep(s[4]) then [s[4]] else []);
    assert Filter(t3, keep) == (if keep(s[3]) then [s[3]] else []) + Filter(t4, keep);
    assert Filter(t2, keep) == (if keep(s[2]) then [s[2]] else []) + Filter(t3, keep);
    assert Filter(t1, keep) == (if keep(s[1]) then [s[1]] else []) + Filter(t2, keep);
  }

  /** How many of four elements a filter keeps. */
  lemma FilterOfFour<T>(s: seq<T>, keep: T -> bool)
    requires |s| == 4
    ensures |Filter(s, keep)| == (if keep(s[0]) then 1 else 0) + (if keep(s[1]) then 1 else 0)
      + (if keep(s[2]) then 1 else 0) + (if keep(s[3]) then 1 else 0)
  {
    var t1 := s[1..];
    var t2 := t1[1..];
    var t3 := t2[1..];
    assert t3 == [s[3]];
    assert |Filter(t3, keep)| == (if keep(s[3]) then 1 else 0);
    assert |Filter(t2, keep)| == (if keep(s[2]) then 1 else 0) + |Filter(t3, keep)|;
    assert |Filter(t1, keep)| == (if keep(s[1]) then 1 else 0) + |Filter(t2, keep)|;
  }

  /** Filtering six elements, written out one by one. */
  lemma FilterOfSix<T>(s: seq<T>, keep: T -> bool)
    requires |s| == 6
    ensures Filter(s, keep) ==
      (if keep(s[0]) then [s[0]] else []) + ((if keep(s[1]) then [s[1]] else [])
      + ((if keep(s[2]) then [s[2]] else []) + ((if keep(s[3]) then [s[3]] else [])
      + ((if keep(s[4]) then [s[4]] else []) + (if keep(s[5]) then [s[5]] else [])))))
  {
    var t1 := s[1..];
    var t2 := t1[1..];
    var t3 := t2[1..];
    var t4 := t3[1..];
    var t5 := t4[1..];
    assert t5 == [s[5]];
    assert Filter(t5, keep) == (if keep(s[5]) then [s[5]] else []);
    assert Filter(t4, keep) == (if keep(s[4]) then [s[4]] else []) + Filter(t5, keep);
    assert Filter(t3, keep) == (if keep(s[3]) then [s[3]] else []) + Filter(t4, keep);
    assert Filter(t2, keep) == (if keep(s[2]) then [s[2]] else []) + Filter(t3, keep);
    assert Filter(t1, keep) == (if keep(s[1]) then [s[1]] else []) + Filter(t2, keep);
  }

  /** A test that holds of no element filters everything out. */
  lemma {:induction false} FilterNone<T>(s: seq<T>, keep: T -> bool)
    requires forall k :: 0 <= k < |s| ==> !keep(s[k])
    ensures Filter(s, keep) == []
    decreases |s|
  {
    if s != [] {
      FilterNone(s[1..], keep);
    }
  }

  /** A filter over a list keeps nothing exactly when no element passes. */
  lemma {:induction false} FilterEmptyIff<T>(s: seq<T>, keep: T -> bool)
    ensures Filter(s, keep) == [] <==> forall k :: 0 <= k < |s| ==> !keep(s[k])
    decreases |s|
  {
    if s != [] {
      FilterEmptyIff(s[1..], keep);
      if !keep(s[0]) {
        assert forall k :: 1 <= k < |s| ==> s[k] == s[1..][k - 1];
      }
    }
  }

  /** Filtering with a test every element passes changes nothing. */
  lemma {:induction false} FilterAll<T>(s: seq<T>, keep: T -> bool)
    requires forall k :: 0 <= k < |s| ==> keep(s[k])
    ensures Filter(s, keep) == s
    decreases |s|
  {
    if s != [] {
      FilterAll(s[1..], keep);
    }
  }

  /** Two tests that agree on every element filter alike. */
  lemma {:induction false} FilterExt<T>(s: seq<T>, f: T -> bool, g: T -> bool)
    requires forall k :: 0 <= k < |s| ==> f(s[k]) == g(s[k])
    ensures Filter(s, f) == Filter(s, g)
    decreases |s|
  {
    if s != [] {
      FilterExt(s[1..], f, g);
    }
  }

  /** Filtering twice is filtering once with the conjunction. */
  lemma {:induction false} FilterFilter<T>(s: seq<T>, f: T -> bool, g: T -> bool, fg: T -> bool)
    requires forall x :: fg(x) == (f(x) && g(x))
    ensures Filter(Filter(s, f), g) == Filter(s, fg)
    decreases |s|
  {
    if s != [] {
      FilterFilter(s[1..], f, g, fg);
      assert Filter(s, f) == (if f(s[0]) then [s[0]] else []) + Filter(s[1..], f);
      FilterAppend(if f(s[0]) then [s[0]] else [], Filter(s[1..], f), g);
    }
  }

  lemma {:induction false} FilterAppend<T>(a: seq<T>, b: seq<T>, keep: T -> bool)
    ensures Filter(a + b, keep) == Filter(a, keep) + Filter(b, keep)
    decreases |a|
  {
    if a == [] {
      assert a + b == b;
    } else {
      FilterAppend(a[1..], b, keep);
      assert (a + b)[0] == a[0];
      assert (a + b)[1..] == a[1..] + b;
    }
  }

  /** A stronger test keeps a subsequence of what a weaker test keeps. */
  lemma {:induction false} FilterMonotone<T>(s: seq<T>, f: T -> bool, g: T -> bool)
    requires forall x :: f(x) ==> g(x)
    ensures IsSubsequence(Filter(s, f), Filter(s, g))
    decreases |s|
  {
    if s != [] {
      FilterMonotone(s[1..], f, g);
      var fs, gs := Filter(s[1..], f), Filter(s[1..], g);
      if f(s[0]) {
        assert Filter(s, f) == [s[0]] + fs && Filter(s, g) == [s[0]] + gs;
        assert Filter(s, f)[0] == Filter(s, g)[0];
        assert Filter(s, f)[1..] == fs && Filter(s, g)[1..] == gs;
      } else if g(s[0]) {
        assert Filter(s, f) == fs;
        assert Filter(s, g) == [s[0]] + gs;
        assert Filter(s, g)[1..] == gs;
      } else {
        assert Filter(s, f) == fs && Filter(s, g) == gs;
      }
    }
  }

  // ---------------------------------------------------------------------------
  // find
  // ---------------------------------------------------------------------------

  /** `s.find(p)`: the first element satisfying `p`, if any. */
  function Find<T>(s: seq<T>, p: T -> bool): (r: Option<T>)
    ensures r.Some? ==> p(r.value) && exists k :: 0 <= k < |s| && s[k] == r.value && forall j :: 0 <= j < k ==> !p(s[j])
    ensures r.None? ==> forall k :: 0 <= k < |s| ==> !p(s[k])
    decreases |s|
  {
    if s == [] then None
    else if p(s[0]) then Some(s[0])
    else
      var r := Find(s[1..], p);
      assert r.Some? ==> exists k :: 1 <= k < |s| && s[k] == r.value && forall j :: 0 <= j < k ==> !p(s[j]) by {
        if r.Some? {
          var k :| 0 <= k < |s[1..]| && s[1..][k] == r.value && forall j :: 0 <= j < k ==> !p(s[1..][j]);
          assert s[k + 1] == r.value;
          assert forall j :: 0 <= j < k + 1 ==> !p(s[j]) by {
            forall j | 0 <= j < k + 1 ensures !p(s[j]) {
              if j > 0 { assert s[j] == s[1..][j - 1]; }
            }
          }
        }
      }
      r
  }

  /** `find` returns the head of what `filter` keeps. */
  lemma {:induction false} FindIsFirstOfFilter<T>(s: seq<T>, p: T -> bool)
    ensures Find(s, p) == if Filter(s, p) == [] then None else Some(Filter(s, p)[0])
    decreases |s|
  {
    if s != [] && !p(s[0]) {
      FindIsFirstOfFilter(s[1..], p);
    }
  }

  // ---------------------------------------------------------------------------
  // Stable descending sort by an integer key, slice(0, n), and map
  // ---------------------------------------------------------------------------

  /** An element paired with the number a comparator `(a, b) => b.key - a.key` reads. */
  datatype Keyed<T> = Keyed(item: T, key: int)

  predicate SortedDesc<T>(s: seq<Keyed<T>>)
  {
    forall i, j :: 0 <= i < j < |s| ==> s[i].key >= s[j].key
  }

  /** The elements of `s` with key `k`, in order. */
  function WithKey<T>(s: seq<Keyed<T>>, k: int): seq<Keyed<T>>
    decreases |s|
  {
    if s == [] then [] else (if s[0].key == k then [s[0]] else []) + WithKey(s[1..], k)
  }

  /** Inserts `x` before the first element whose key is not larger, so that `x`
      precedes the elements of `s` that tie with it. */
  function InsertDesc<T>(x: Keyed<T>, s: seq<Keyed<T>>): seq<Keyed<T>>
    decreases |s|
  {
    if s == [] || s[0].key <= x.key then [x] + s else [s[0]] + InsertDesc(x, s[1..])
  }

  /** `s.sort((a, b) => b.key - a.key)` with ECMAScript's stable sort. */
  function SortDesc<T>(s: seq<Keyed<T>>): seq<Keyed<T>>
    decreases |s|
  {
    if s == [] then [] else InsertDesc(s[0], SortDesc(s[1..]))
  }

  lemma {:induction false} InsertDescPermutation<T>(x: Keyed<T>, s: seq<Keyed<T>>)
    ensures multiset(InsertDesc(x, s)) == multiset([x] + s)
    decreases |s|
  {
    if s != [] && s[0].key > x.key {
      InsertDescPermutation(x, s[1..]);
      assert s == [s[0]] + s[1..];
    }
  }

  lemma {:induction false} InsertDescSorted<T>(x: Keyed<T>, s: seq<Keyed<T>>)
    requires SortedDesc(s)
    ensures SortedDesc(InsertDesc(x, s))
    decreases |s|
  {
    if s != [] && s[0].key > x.key {
      InsertDescSorted(x, s[1..]);
      var t := InsertDesc(x, s[1..]);
      InsertDescPermutation(x, s[1..]);
      forall j | 0 <= j < |t| ensures s[0].key >= t[j].key {
        assert t[j] in multiset([x] + s[1..]);
        if t[j] != x {
          var m :| 0 <= m < |s[1..]| && s[1..][m] == t[j];
          assert s[m + 1] == t[j];
        }
      }
    }
  }

  /** The sort yields a descending permutation of its input. */
  lemma {:induction false} SortDescSortedPermutation<T>(s: seq<Keyed<T>>)
    ensures SortedDesc(SortDesc(s))
    ensures multiset(SortDesc(s)) == multiset(s)
    ensures |SortDesc(s)| == |s|
    decreases |s|
  {
    if s != [] {
      SortDescSortedPermutation(s[1..]);
      InsertDescSorted(s[0], SortDesc(s[1..]));
      InsertDescPermutation(s[0], SortDesc(s[1..]));
      assert s == [s[0]] + s[1..];
      assert |SortDesc(s)| == |multiset(SortDesc(s))|;
    }
  }

  lemma WithKeyCons<T>(a: Keyed<T>, t: seq<Keyed<T>>, k: int)
    ensures WithKey([a] + t, k) == (if a.key == k then [a] else []) + WithKey(t, k)
  {
    assert ([a] + t)[1..] == t;
  }

  lemma {:induction false} InsertDescWithKey<T>(x: Keyed<T>, s: seq<Keyed<T>>, k: int)
    ensures WithKey(InsertDesc(x, s), k) == (if x.key == k then [x] else []) + WithKey(s, k)
    decreases |s|
  {
    if s == [] || s[0].key <= x.key {
      WithKeyCons(x, s, k);
    } else {
      InsertDescWithKey(x, s[1..], k);
      WithKeyCons(s[0], InsertDesc(x, s[1..]), k);
      assert s == [s[0]] + s[1..];
      WithKeyCons(s[0], s[1..], k);
    }
  }


  /** Stability: among elements with equal keys the sort keeps the input order. */
  lemma {:induction false} SortDescStable<T>(s: seq<Keyed<T>>, k: int)
    ensures WithKey(SortDesc(s), k) == WithKey(s, k)
    decreases |s|
  {
    if s != [] {
      SortDescStable(s[1..], k);
      InsertDescWithKey(s[0], SortDesc(s[1..]), k);
    }
  }

  /** Sorting an already descending sequence changes nothing. */
  lemma {:induction false} SortDescOfSorted<T>(s: seq<Keyed<T>>)
    requires SortedDesc(s)
    ensures SortDesc(s) == s
    decreases |s|
  {
    if s != [] {
      assert SortedDesc(s[1..]);
      SortDescOfSorted(s[1..]);
    }
  }

  /** `s.slice(0, n)`. */
  function Take<T>(s: seq<T>, n: nat): (r: seq<T>)
    ensures |r| == if |s| < n then |s| else n
    ensures r == s[..|r|]
  {
    if |s| < n then s else s[..n]
  }

  /** `s.map(x => x.item)`. */
  function Items<T>(s: seq<Keyed<T>>): (r: seq<T>)
    ensures |r| == |s|
    ensures forall i :: 0 <= i < |s| ==> r[i] == s[i].item
  {
    seq(|s|, i requires 0 <= i < |s| => s[i].item)
  }
}
