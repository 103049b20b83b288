/**
 * `Array.prototype.sort` with the comparator `(a, b) => b.score - a.score`: since
 * ES2019 the sort is stable, so the result is ordered by score, highest first, and
 * elements with equal scores keep their original relative order. Written as a stable
 * insertion sort over an integer score.
 */
module StableSort {
  import opened Seqs

  /** Non-increasing by score. */
  predicate SortedDesc<T>(s: seq<T>, score: T -> int) {
    forall i, j :: 0 <= i < j < |s| ==> score(s[i]) >= score(s[j])
  }

  /** Places `x` in front of the first element whose score is at most its own. */
  function Insert<T(==)>(x: T, s: seq<T>, score: T -> int): (r: seq<T>)
    requires SortedDesc(s, score)
    ensures SortedDesc(r, score)
    ensures multiset(r) == multiset(s) + multiset{x}
    ensures |r| == |s| + 1
  {
    if s == [] then [x]
    else if score(s[0]) > score(x) then
      SortedTail(s, score);
      var rest := Insert(x, s[1..], score);
      assert s == [s[0]] + s[1..];
      PrependSorted(s, x, rest, score);
      [s[0]] + rest
    else
      PrependSorted([x] + s, x, s, score);
      [x] + s
  }

  lemma SortedTail<T>(s: seq<T>, score: T -> int)
    requires s != [] && SortedDesc(s, score)
    ensures SortedDesc(s[1..], score)
  {
    forall i, j | 0 <= i < j < |s| - 1 ensures score(s[1..][i]) >= score(s[1..][j]) {
      assert s[1..][i] == s[i + 1] && s[1..][j] == s[j + 1];
    }
  }

  /** Putting `s[0]` in front of a sorted sequence whose elements come from `s[1..]` and `x` keeps it sorted. */
  lemma PrependSorted<T>(s: seq<T>, x: T, rest: seq<T>, score: T -> int)
    requires s != [] && SortedDesc(s, score) && score(x) <= score(s[0])
    requires SortedDesc(rest, score)
    requires multiset(rest) <= multiset(s[1..]) + multiset{x}
    ensures SortedDesc([s[0]] + rest, score)
    ensures multiset([s[0]] + rest) == multiset{s[0]} + multiset(rest)
  {
    forall k | 0 <= k < |rest| ensures score(rest[k]) <= score(s[0]) {
      var y := rest[k];
      assert y in multiset(rest);
      if y != x {
        assert y in multiset(s[1..]);
        assert y in s[1..];
        var j :| 0 <= j < |s[1..]| && s[1..][j] == y;
        assert s[1 + j] == y;
      }
    }
    var r := [s[0]] + rest;
    forall i, j | 0 <= i < j < |r| ensures score(r[i]) >= score(r[j]) {
      if i > 0 { assert r[i] == rest[i - 1] && r[j] == rest[j - 1]; }
      else { assert r[j] == rest[j - 1]; }
    }
  }

  /** The stable sort, highest score first: sorted, and a permutation of the input. */
  function Sort<T(==)>(s: seq<T>, score: T -> int): (r: seq<T>)
    ensures SortedDesc(r, score)
    ensures multiset(r) == multiset(s)
    ensures |r| == |s|
  {
    if s == [] then []
    else
      assert s == [s[0]] + s[1..];
      Insert(s[0], Sort(s[1..], score), score)
  }

  /** The elements of `s` with score `v`, in their order in `s`. */
  function WithScore<T>(s: seq<T>, score: T -> int, v: int): seq<T> {
    if s == [] then []
    else (if score(s[0]) == v then [s[0]] else []) + WithScore(s[1..], score, v)
  }

  /** The elements with score `v` of a sequence with `y` in front. */
  lemma WithScoreCons<T>(y: T, t: seq<T>, score: T -> int, v: int)
    ensures WithScore([y] + t, score, v) == (if score(y) == v then [y] else []) + WithScore(t, score, v)
  {
    assert ([y] + t)[1..] == t;
  }

  /** Inserting behind a higher-scored first element. */
  lemma InsertBehind<T>(x: T, s: seq<T>, score: T -> int)
    requires SortedDesc(s, score) && s != [] && score(s[0]) > score(x)
    ensures SortedDesc(s[1..], score)
    ensures Insert(x, s, score) == [s[0]] + Insert(x, s[1..], score)
  {
    SortedTail(s, score);
  }

  /** Inserting in front: `x` goes first, so its own entry comes first. */
  lemma InsertInFrontWithScore<T>(x: T, s: seq<T>, score: T -> int, v: int)
    requires SortedDesc(s, score) && (s == [] || score(s[0]) <= score(x))
    ensures WithScore(Insert(x, s, score), score, v)
         == (if score(x) == v then [x] else []) + WithScore(s, score, v)
  {
    assert Insert(x, s, score) == [x] + s;
    WithScoreCons(x, s, score, v);
  }

  /**
   * Inserting behind `s[0]`, which scores above `x`: `s[0]` and `x` cannot both carry the
   * score `v`, so their order among the elements scoring `v` is unaffected.
   */
  lemma InsertBehindWithScore<T>(x: T, s: seq<T>, score: T -> int, v: int, rest: seq<T>, ins: seq<T>)
    requires s != [] && score(s[0]) > score(x)
    requires ins == [s[0]] + rest
    requires WithScore(rest, score, v) == (if score(x) == v then [x] else []) + WithScore(s[1..], score, v)
    ensures WithScore(ins, score, v) == (if score(x) == v then [x] else []) + WithScore(s, score, v)
  {
    WithScoreCons(s[0], rest, score, v);
    WithScoreCons(s[0], s[1..], score, v);
    assert s == [s[0]] + s[1..];
    var w := WithScore(s[1..], score, v);
    var head := if score(s[0]) == v then [s[0]] else [];
    assert WithScore(s, score, v) == head + w;
    assert WithScore(ins, score, v) == head + WithScore(rest, score, v);
    if score(x) == v {
      assert head == [];
      assert WithScore(rest, score, v) == [x] + w;
      assert WithScore(ins, score, v) == [x] + w;
      assert WithScore(s, score, v) == w;
    } else {
      assert WithScore(rest, score, v) == w;
      assert WithScore(ins, score, v) == WithScore(s, score, v);
      assert [] + WithScore(s, score, v) == WithScore(s, score, v);
    }
  }

  /** Insertion puts `x` among the elements of its score after none of them: only in front of the rest. */
  lemma {:induction false} InsertWithScore<T>(x: T, s: seq<T>, score: T -> int, v: int)
    requires SortedDesc(s, score)
    ensures WithScore(Insert(x, s, score), score, v)
         == (if score(x) == v then [x] else []) + WithScore(s, score, v)
  {
    if s != [] && score(s[0]) > score(x) {
      SortedTail(s, score);
      InsertWithScore(x, s[1..], score, v);
      InsertBehind(x, s, score);
      InsertBehindWithScore(x, s, score, v, Insert(x, s[1..], score), Insert(x, s, score));
    } else {
      InsertInFrontWithScore(x, s, score, v);
    }
  }

  /**
   * Stability: for every score, the elements carrying it appear in the sorted output
   * in exactly the order they had in the input.
   */
  lemma {:induction false} SortIsStable<T>(s: seq<T>, score: T -> int, v: int)
    ensures WithScore(Sort(s, score), score, v) == WithScore(s, score, v)
  {
    if s != [] {
      SortIsStable(s[1..], score, v);
      InsertWithScore(s[0], Sort(s[1..], score), score, v);
    }
  }

  /** Sorting neither adds nor removes keys, so keys that were distinct stay distinct. */
  lemma {:induction false} SortKeepsDistinct<T, K>(s: seq<T>, score: T -> int, key: T -> K)
    requires Distinct(s, key)
    ensures Distinct(Sort(s, score), key)
  {
    if s != [] {
      var t := Sort(s[1..], score);
      SortKeepsDistinct(s[1..], score, key);
      forall y | y in t ensures key(y) != key(s[0]) {
        assert y in multiset(s[1..]);
        var j :| 0 <= j < |s[1..]| && s[1..][j] == y;
        assert s[1 + j] == y;
      }
      InsertKeepsDistinct(s[0], t, score, key);
    }
  }

  lemma {:induction false} InsertKeepsDistinct<T, K>(x: T, s: seq<T>, score: T -> int, key: T -> K)
    requires SortedDesc(s, score) && Distinct(s, key)
    requires forall y :: y in s ==> key(y) != key(x)
    ensures Distinct(Insert(x, s, score), key)
  {
    if s == [] {
      assert Insert(x, s, score) == [x];
    } else if score(s[0]) > score(x) {
      SortedTail(s, score);
      DistinctTail(s, key);
      var rest := Insert(x, s[1..], score);
      InsertKeepsDistinct(x, s[1..], score, key);
      forall y | y in rest ensures key(y) != key(s[0]) {
        assert y in multiset(rest);
        if y != x {
          assert y in multiset(s[1..]);
          var j :| 0 <= j < |s[1..]| && s[1..][j] == y;
          assert s[1 + j] == y;
        }
      }
      DistinctCons(s[0], rest, key);
      assert Insert(x, s, score) == [s[0]] + rest;
    } else {
      DistinctCons(x, s, key);
      assert Insert(x, s, score) == [x] + s;
    }
  }

  lemma DistinctTail<T, K>(s: seq<T>, key: T -> K)
    requires s != [] && Distinct(s, key)
    ensures Distinct(s[1..], key)
  {
    forall i, j | 0 <= i < j < |s| - 1 ensures key(s[1..][i]) != key(s[1..][j]) {
      assert s[1..][i] == s[i + 1] && s[1..][j] == s[j + 1];
    }
  }

  lemma DistinctCons<T, K>(h: T, t: seq<T>, key: T -> K)
    requires Distinct(t, key)
    requires forall y :: y in t ==> key(y) != key(h)
    ensures Distinct([h] + t, key)
  {
    var r := [h] + t;
    forall i, j | 0 <= i < j < |r| ensures key(r[i]) != key(r[j]) {
      assert r[j] == t[j - 1];
      if i > 0 { assert r[i] == t[i - 1]; }
    }
  }
}
