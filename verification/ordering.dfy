/**
  Ordering of query results. The browser client's
  `sort((a, b) => key(b) - key(a))` is a stable sort, descending by an
  integer key. The record store's `orderBy(field, 'desc')` is modelled by the
  same sort. This is a modelling choice for ties: the store itself orders
  records of equal key by document id, descending, while this sort keeps the
  earlier element of the input (the earlier write) first. `Filter` is a
  `where field == value` clause or an `Array.filter`.
 */
module Ordering {

  predicate SortedDesc<T>(s: seq<T>, key: T -> int) {
    forall i, j :: 0 <= i < j < |s| ==> key(s[i]) >= key(s[j])
  }

  /** Places `x` in front of the first element whose key is not larger than its own. */
  function Insert<T>(x: T, s: seq<T>, key: T -> int): (r: seq<T>)
    ensures multiset(r) == multiset(s) + multiset{x}
    ensures |r| > 0 && r[0] == (if |s| == 0 || key(s[0]) <= key(x) then x else s[0])
  {
    if |s| == 0 || key(s[0]) <= key(x) then [x] + s
    else
      assert s == [s[0]] + s[1..];
      [s[0]] + Insert(x, s[1..], key)
  }

  /** The number of leading elements of `s` whose key is larger than `x`'s. */
  function InsertPos<T>(x: T, s: seq<T>, key: T -> int): (p: nat)
    ensures p <= |s|
    ensures forall i :: 0 <= i < p ==> key(s[i]) > key(x)
    ensures p < |s| ==> key(s[p]) <= key(x)
  {
    if |s| == 0 || key(s[0]) <= key(x) then 0
    else
      var p' := InsertPos(x, s[1..], key);
      assert forall i :: 1 <= i < 1 + p' ==> s[i] == s[1..][i - 1];
      1 + p'
  }

  /** `Insert` splices `x` in just before the first element whose key is not larger than its own. */
  lemma {:induction false} InsertPlacement<T>(x: T, s: seq<T>, key: T -> int)
    ensures var p := InsertPos(x, s, key);
      Insert(x, s, key) == s[..p] + [x] + s[p..]
  {
    if |s| > 0 && key(s[0]) > key(x) {
      var t := s[1..];
      var p' := InsertPos(x, t, key);
      assert InsertPos(x, s, key) == 1 + p';
      assert Insert(x, s, key) == [s[0]] + Insert(x, t, key);
      InsertPlacement(x, t, key);
      SpliceCons(s[0], t, x, p');
      assert s == [s[0]] + t;
    } else {
      assert Insert(x, s, key) == [x] + s;
      assert InsertPos(x, s, key) == 0;
      assert s[..0] == [] && s[0..] == s;
    }
  }

  /** Splicing into a sequence with a known first element. */
  lemma SpliceCons<T>(y: T, t: seq<T>, x: T, p: nat)
    requires p <= |t|
    ensures [y] + (t[..p] + [x] + t[p..]) == ([y] + t)[..p + 1] + [x] + ([y] + t)[p + 1..]
  {
    var s := [y] + t;
    assert s[..p + 1] == [y] + t[..p];
    assert s[p + 1..] == t[p..];
  }

  lemma {:induction false} InsertKeepsSorted<T>(x: T, s: seq<T>, key: T -> int)
    requires SortedDesc(s, key)
    ensures SortedDesc(Insert(x, s, key), key)
  {
    if |s| > 0 && key(s[0]) > key(x) {
      var rest := Insert(x, s[1..], key);
      assert SortedDesc(s[1..], key);
      InsertKeepsSorted(x, s[1..], key);
      forall i | 0 <= i < |s[1..]| ensures key(s[1..][i]) <= key(s[0]) {
        assert s[1..][i] == s[i + 1];
      }
      InsertBounded(x, s[1..], key, key(s[0]));
      ConsSorted(s[0], rest, key);
    } else {
      ConsSorted(x, s, key);
    }
  }

  /** Inserting an element no larger than a bound keeps every key within the bound. */
  lemma {:induction false} InsertBounded<T>(x: T, s: seq<T>, key: T -> int, b: int)
    requires forall i :: 0 <= i < |s| ==> key(s[i]) <= b
    requires key(x) <= b
    ensures forall i :: 0 <= i < |Insert(x, s, key)| ==> key(Insert(x, s, key)[i]) <= b
  {
    var r := Insert(x, s, key);
    if |s| > 0 && key(s[0]) > key(x) {
      forall i | 0 <= i < |s[1..]| ensures key(s[1..][i]) <= b {
        assert s[1..][i] == s[i + 1];
      }
      InsertBounded(x, s[1..], key, b);
      var rest := Insert(x, s[1..], key);
      assert r == [s[0]] + rest;
      forall i | 0 <= i < |r| ensures key(r[i]) <= b {
        if i > 0 {
          assert r[i] == rest[i - 1];
        }
      }
    } else {
      assert r == [x] + s;
      forall i | 0 <= i < |r| ensures key(r[i]) <= b {
        if i > 0 {
          assert r[i] == s[i - 1];
        }
      }
    }
  }

  /** A sorted sequence stays sorted under a new head at least as large as all of it. */
  lemma ConsSorted<T>(y: T, t: seq<T>, key: T -> int)
    requires SortedDesc(t, key)
    requires |t| > 0 ==> key(t[0]) <= key(y)
    ensures SortedDesc([y] + t, key)
  {
    var r := [y] + t;
    forall i, j | 0 <= i < j < |r| ensures key(r[i]) >= key(r[j]) {
      assert r[j] == t[j - 1];
      if i > 0 {
        assert r[i] == t[i - 1];
      } else if j > 1 {
        assert key(t[0]) >= key(t[j - 1]);
      }
    }
  }

  /** A stable sort, descending by `key`. */
  function SortDesc<T>(s: seq<T>, key: T -> int): (r: seq<T>)
    ensures multiset(r) == multiset(s)
    ensures SortedDesc(r, key)
    ensures |r| == |s|
  {
    if |s| == 0 then []
    else
      assert s == [s[0]] + s[1..];
      InsertKeepsSorted(s[0], SortDesc(s[1..], key), key);
      Insert(s[0], SortDesc(s[1..], key), key)
  }

  /** The elements of `s` that `keep` accepts, in their original order. */
  function Filter<T>(s: seq<T>, keep: T -> bool): (r: seq<T>)
    ensures |r| <= |s|
  {
    if |s| == 0 then []
    else
      assert s == [s[0]] + s[1..];
      (if keep(s[0]) then [s[0]] else []) + Filter(s[1..], keep)
  }

  /** `Filter` keeps exactly the elements `keep` accepts. */
  lemma {:induction false} FilterMembers<T>(s: seq<T>, keep: T -> bool)
    ensures forall i :: 0 <= i < |Filter(s, keep)| ==> Filter(s, keep)[i] in s && keep(Filter(s, keep)[i])
    ensures forall i :: 0 <= i < |s| && keep(s[i]) ==> s[i] in Filter(s, keep)
  {
    if |s| > 0 {
      FilterMembers(s[1..], keep);
      assert s == [s[0]] + s[1..];
    }
  }

  /** Sorting an already sorted sequence changes nothing. */
  lemma {:induction false} SortSortedIsIdentity<T>(s: seq<T>, key: T -> int)
    requires SortedDesc(s, key)
    ensures SortDesc(s, key) == s
  {
    if |s| > 0 {
      assert SortedDesc(s[1..], key);
      SortSortedIsIdentity(s[1..], key);
      assert s == [s[0]] + s[1..];
    }
  }

  /** `Filter` on a sequence with a known first element. */
  lemma FilterCons<T>(x: T, t: seq<T>, keep: T -> bool)
    ensures Filter([x] + t, keep) == (if keep(x) then [x] else []) + Filter(t, keep)
  {
    assert ([x] + t)[0] == x;
    assert ([x] + t)[1..] == t;
  }

  /** `Insert` in front of a sequence with a known first element. */
  lemma InsertCons<T>(x: T, y: T, t: seq<T>, key: T -> int)
    ensures Insert(x, [y] + t, key) == if key(y) <= key(x) then [x, y] + t else [y] + Insert(x, t, key)
  {
    assert ([y] + t)[0] == y;
    assert ([y] + t)[1..] == t;
  }

  lemma FilterInsertFront<T>(x: T, s: seq<T>, key: T -> int, keep: T -> bool)
    requires SortedDesc(s, key) && |s| > 0 && key(s[0]) <= key(x)
    ensures Filter(Insert(x, s, key), keep)
         == if keep(x) then Insert(x, Filter(s, keep), key) else Filter(s, keep)
  {
    InsertFront(x, s, key);
    FilterCons(x, s, keep);
    var fs := Filter(s, keep);
    if keep(x) {
      if |fs| > 0 {
        SortedBelowHead(s, key, key(x));
        FilterBounded(s, keep, key, key(x));
      }
      InsertFront(x, fs, key);
    }
  }

  /** An element at least as large as the head goes in front. */
  lemma InsertFront<T>(x: T, s: seq<T>, key: T -> int)
    requires |s| == 0 || key(s[0]) <= key(x)
    ensures Insert(x, s, key) == [x] + s
  {
  }

  /** In a sequence sorted descending, a bound on the head bounds every element. */
  lemma SortedBelowHead<T>(s: seq<T>, key: T -> int, b: int)
    requires SortedDesc(s, key) && |s| > 0 && key(s[0]) <= b
    ensures forall i :: 0 <= i < |s| ==> key(s[i]) <= b
  {
    forall i | 0 < i < |s| ensures key(s[i]) <= b {
      assert key(s[0]) >= key(s[i]);
    }
  }

  /** Filtering keeps every key within a bound that all of the input respects. */
  lemma {:induction false} FilterBounded<T>(s: seq<T>, keep: T -> bool, key: T -> int, b: int)
    requires forall i :: 0 <= i < |s| ==> key(s[i]) <= b
    ensures forall i :: 0 <= i < |Filter(s, keep)| ==> key(Filter(s, keep)[i]) <= b
  {
    if |s| > 0 {
      forall i | 0 <= i < |s[1..]| ensures key(s[1..][i]) <= b {
        assert s[1..][i] == s[i + 1];
      }
      FilterBounded(s[1..], keep, key, b);
      FilterCons(s[0], s[1..], keep);
      assert s == [s[0]] + s[1..];
    }
  }

  /** Filtering a sequence into which `x` was inserted is inserting `x` (if kept) into the filtered sequence. */
  lemma {:induction false} FilterInsert<T>(x: T, s: seq<T>, key: T -> int, keep: T -> bool)
    requires SortedDesc(s, key)
    ensures Filter(Insert(x, s, key), keep)
         == if keep(x) then Insert(x, Filter(s, keep), key) else Filter(s, keep)
  {
    if |s| == 0 {
      FilterCons(x, [], keep);
    } else if key(s[0]) <= key(x) {
      FilterInsertFront(x, s, key, keep);
    } else {
      var s0, s1 := s[0], s[1..];
      assert s == [s0] + s1;
      var rest := Insert(x, s1, key);
      assert Insert(x, s, key) == [s0] + rest;
      FilterCons(s0, s1, keep);
      FilterCons(s0, rest, keep);
      assert SortedDesc(s1, key);
      FilterInsert(x, s1, key, keep);
      var f1 := Filter(s1, keep);
      if keep(s0) {
        assert Filter(s, keep) == [s0] + f1;
        if keep(x) {
          InsertCons(x, s0, f1, key);
          assert Insert(x, [s0] + f1, key) == [s0] + Insert(x, f1, key);
        }
      } else {
        assert Filter(s, keep) == f1;
        assert Filter([s0] + rest, keep) == Filter(rest, keep);
      }
    }
  }

  /** Because the sort is stable, filtering commutes with sorting. */
  lemma {:induction false} FilterSortCommute<T>(s: seq<T>, key: T -> int, keep: T -> bool)
    ensures Filter(SortDesc(s, key), keep) == SortDesc(Filter(s, keep), key)
  {
    if |s| > 0 {
      var s0, s1 := s[0], s[1..];
      assert s == [s0] + s1;
      FilterSortCommute(s1, key, keep);
      FilterInsert(s0, SortDesc(s1, key), key, keep);
      FilterCons(s0, s1, keep);
      if keep(s0) {
        var f := [s0] + Filter(s1, keep);
        assert f[0] == s0 && f[1..] == Filter(s1, keep);
      } else {
        assert Filter(s, keep) == Filter(s1, keep);
      }
    }
  }

  /** Filtering twice by the same condition is filtering once. */
  lemma {:induction false} FilterIdempotent<T>(s: seq<T>, keep: T -> bool)
    ensures Filter(Filter(s, keep), keep) == Filter(s, keep)
  {
    if |s| > 0 {
      var s0, s1 := s[0], s[1..];
      assert s == [s0] + s1;
      FilterCons(s0, s1, keep);
      FilterIdempotent(s1, keep);
      if keep(s0) {
        FilterCons(s0, Filter(s1, keep), keep);
      } else {
        assert Filter(s, keep) == Filter(s1, keep);
      }
    }
  }

  /** Filtering distributes over concatenation. */
  lemma {:induction false} FilterConcat<T>(a: seq<T>, b: seq<T>, keep: T -> bool)
    ensures Filter(a + b, keep) == Filter(a, keep) + Filter(b, keep)
  {
    if |a| == 0 {
      assert a + b == b;
    } else {
      FilterConcat(a[1..], b, keep);
      assert a + b == [a[0]] + (a[1..] + b);
      FilterCons(a[0], a[1..] + b, keep);
      FilterCons(a[0], a[1..], keep);
      assert a == [a[0]] + a[1..];
    }
  }

  /** A sequence whose every element is kept is its own filtering. */
  lemma {:induction false} FilterAllKept<T>(s: seq<T>, keep: T -> bool)
    requires forall i :: 0 <= i < |s| ==> keep(s[i])
    ensures Filter(s, keep) == s
  {
    if |s| > 0 {
      forall i | 0 <= i < |s[1..]| ensures keep(s[1..][i]) {
        assert s[1..][i] == s[i + 1];
      }
      FilterAllKept(s[1..], keep);
      FilterCons(s[0], s[1..], keep);
      assert s == [s[0]] + s[1..];
    }
  }

  /** The entries of a map in some order: a listing of a keyed collection. */
  ghost function Entries<K(!new), V(!new)>(m: map<K, V>): (r: seq<(K, V)>)
    ensures |r| == |m|
    ensures forall e :: e in r <==> e.0 in m && m[e.0] == e.1
    decreases |m|
  {
    if |m| == 0 then []
    else
      var k :| k in m;
      var m' := m - {k};
      assert m'.Keys == m.Keys - {k};
      [(k, m[k])] + Entries(m')
  }
}
