/**
 Ranking rows by a key, largest first, with Rust's stable `sort_by`:
 rows with equal keys keep their relative order. The rankings of the process
 tables are this sort followed by `take(k)`.
 */
module Ranking {
  import opened Seqs

  predicate SortedDesc<T>(xs: seq<T>, key: T -> real) {
    forall i, j :: 0 <= i < j < |xs| ==> key(xs[i]) >= key(xs[j])
  }

  /** Inserts `x` before the first row whose key is not larger than its own. */
  function Insert<T>(x: T, ys: seq<T>, key: T -> real): (r: seq<T>)
    ensures |r| == |ys| + 1
    ensures multiset(r) == multiset(ys) + multiset{x}
  {
    if |ys| == 0 || key(ys[0]) <= key(x) then [x] + ys
    else
      assert ys == [ys[0]] + ys[1..];
      [ys[0]] + Insert(x, ys[1..], key)
  }

  lemma {:induction false} InsertSorted<T>(x: T, ys: seq<T>, key: T -> real)
    requires SortedDesc(ys, key)
    ensures SortedDesc(Insert(x, ys, key), key)
  {
    if |ys| > 0 && key(ys[0]) > key(x) {
      InsertSorted(x, ys[1..], key);
      var r := Insert(x, ys, key);
      var tail := Insert(x, ys[1..], key);
      assert r == [ys[0]] + tail;
      forall j | 0 < j < |r|
        ensures key(r[0]) >= key(r[j])
      {
        assert r[j] in multiset(tail);
        assert r[j] in multiset(ys[1..]) || r[j] == x;
        if r[j] != x {
          var m :| 0 <= m < |ys[1..]| && ys[1..][m] == r[j];
          assert ys[1..][m] == ys[m + 1];
        }
      }
    }
  }

  /** `sort_by` with the key compared largest first; stable. */
  function SortDesc<T>(xs: seq<T>, key: T -> real): (r: seq<T>)
    ensures |r| == |xs|
    ensures multiset(r) == multiset(xs)
  {
    if |xs| == 0 then []
    else
      assert xs == [xs[0]] + xs[1..];
      Insert(xs[0], SortDesc(xs[1..], key), key)
  }

  /** The sort orders by key. */
  lemma {:induction false} SortDescSorted<T>(xs: seq<T>, key: T -> real)
    ensures SortedDesc(SortDesc(xs, key), key)
  {
    if |xs| > 0 {
      SortDescSorted(xs[1..], key);
      InsertSorted(xs[0], SortDesc(xs[1..], key), key);
    }
  }

  /** `Filter` of a sequence whose first element is `a`. */
  lemma FilterCons<T>(a: T, s: seq<T>, p: T -> bool)
    ensures Filter([a] + s, p) == (if p(a) then [a] else []) + Filter(s, p)
  {
    assert ([a] + s)[1..] == s;
  }

  /** A tied element cannot sit behind a row with a larger key. */
  lemma TieNotAhead<T>(x: T, y: T, key: T -> real, p: T -> bool)
    requires p(x) ==> forall z :: p(z) ==> key(z) == key(x)
    requires key(y) > key(x)
    ensures p(x) ==> !p(y)
  {
  }

  lemma {:induction false} InsertFilter<T>(x: T, ys: seq<T>, key: T -> real, p: T -> bool)
    requires SortedDesc(ys, key)
    requires p(x) ==> forall y :: p(y) ==> key(y) == key(x)
    ensures Filter(Insert(x, ys, key), p) == (if p(x) then [x] else []) + Filter(ys, p)
  {
    if |ys| == 0 || key(ys[0]) <= key(x) {
      FilterCons(x, ys, p);
    } else {
      var head, rest := ys[0], ys[1..];
      var tail := Insert(x, rest, key);
      assert ys == [head] + rest;
      assert Insert(x, ys, key) == [head] + tail;
      InsertFilter(x, rest, key, p);
      TieNotAhead(x, head, key, p);
      FilterCons(head, tail, p);
      FilterCons(head, rest, p);
      if p(x) {
        assert Filter(tail, p) == [x] + Filter(rest, p);
        assert Filter(ys, p) == Filter(rest, p);
      } else if p(head) {
        assert Filter(tail, p) == Filter(rest, p);
        assert Filter(ys, p) == [head] + Filter(rest, p);
      } else {
        assert Filter(tail, p) == Filter(rest, p);
        assert Filter(ys, p) == Filter(rest, p);
      }
    }
  }

  /** Stability: the rows sharing any one key value come out in their input order. */
  lemma {:induction false} SortDescStable<T>(xs: seq<T>, key: T -> real, tie: T -> bool)
    requires forall y, z :: tie(y) && tie(z) ==> key(y) == key(z)
    ensures Filter(SortDesc(xs, key), tie) == Filter(xs, tie)
  {
    if |xs| > 0 {
      SortDescStable(xs[1..], key, tie);
      SortDescSorted(xs[1..], key);
      InsertFilter(xs[0], SortDesc(xs[1..], key), key, tie);
    }
  }

  /** The top `k` rows by key. */
  function TopK<T>(xs: seq<T>, key: T -> real, k: nat): (r: seq<T>)
    ensures |r| == Min(k, |xs|)
  {
    Take(SortDesc(xs, key), k)
  }

  /**
   What a ranking shows: `min(k, |xs|)` rows of the input, in order of key,
   none of them with a smaller key than a row left out.
   */
  lemma TopKSpec<T>(xs: seq<T>, key: T -> real, k: nat)
    ensures var r := TopK(xs, key, k);
      var sorted := SortDesc(xs, key);
      && r == sorted[..|r|]
      && multiset(sorted) == multiset(xs)
      && SortedDesc(r, key)
      && forall i, j :: 0 <= i < |r| <= j < |sorted| ==> key(r[i]) >= key(sorted[j])
  {
    SortDescSorted(xs, key);
  }

  lemma {:induction false} FilterSorted<T>(xs: seq<T>, key: T -> real, p: T -> bool)
    requires SortedDesc(xs, key)
    ensures SortedDesc(Filter(xs, p), key)
  {
    if |xs| > 0 {
      FilterSorted(xs[1..], key, p);
      var rest := Filter(xs[1..], p);
      if p(xs[0]) {
        var r := [xs[0]] + rest;
        forall j | 0 < j < |r|
          ensures key(r[0]) >= key(r[j])
        {
          assert r[j] == rest[j - 1];
          var m :| 0 <= m < |xs[1..]| && xs[1..][m] == r[j];
          assert xs[1..][m] == xs[m + 1];
        }
      }
    }
  }

  /**
   Sorting by a second key after a first: among rows with equal second key,
   the first key still decreases.
   */
  lemma ResortKeepsTies<T>(xs: seq<T>, first: T -> real, second: T -> real, tie: T -> bool)
    requires forall y, z :: tie(y) && tie(z) ==> second(y) == second(z)
    ensures SortedDesc(Filter(SortDesc(SortDesc(xs, first), second), tie), first)
  {
    var byFirst := SortDesc(xs, first);
    SortDescStable(byFirst, second, tie);
    SortDescSorted(xs, first);
    FilterSorted(byFirst, first, tie);
  }

  lemma SortedPrefixBeatsRest<T>(sorted: seq<T>, key: T -> real, n: nat)
    requires SortedDesc(sorted, key) && n <= |sorted|
    ensures forall q, i :: q in multiset(sorted) - multiset(sorted[..n]) && 0 <= i < n ==> key(sorted[i]) >= key(q)
  {
    var rest := sorted[n..];
    assert sorted == sorted[..n] + rest;
    forall q, i | q in multiset(sorted) - multiset(sorted[..n]) && 0 <= i < n
      ensures key(sorted[i]) >= key(q)
    {
      assert q in multiset(rest);
      var j :| 0 <= j < |rest| && rest[j] == q;
      assert sorted[n + j] == q;
    }
  }

  /**
   The ranking in terms of its input alone: every row left out of the top
   `k` has a key no larger than any row shown.
   */
  lemma TopKBeatsRest<T>(xs: seq<T>, key: T -> real, k: nat)
    ensures var r := TopK(xs, key, k);
      && multiset(r) <= multiset(xs)
      && forall q, i :: q in multiset(xs) - multiset(r) && 0 <= i < |r| ==> key(r[i]) >= key(q)
  {
    var sorted := SortDesc(xs, key);
    var n := Min(k, |xs|);
    var r := TopK(xs, key, k);
    assert r == sorted[..n];
    assert multiset(sorted) == multiset(xs);
    assert multiset(sorted) == multiset(sorted[..n]) + multiset(sorted[n..]) by {
      assert sorted == sorted[..n] + sorted[n..];
    }
    SortDescSorted(xs, key);
    SortedPrefixBeatsRest(sorted, key, n);
  }
}
