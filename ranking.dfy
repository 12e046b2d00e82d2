/**
 * `xs.slice().sort((a, b) => key(b) - key(a))`: a stable ranking by a
 * numeric key, highest key first. `Array.prototype.sort` is stable, so
 * elements with equal keys keep their input order; the ranking is that
 * stable order, built here by insertion. Sorting a copy leaves the input
 * untouched, which value semantics gives for free.
 */
module Ranking {
  import opened Seqs

  /** Non-increasing key from front to back. */
  predicate Sorted<T>(s: seq<T>, key: T -> int)
  {
    forall i, j :: 0 <= i < j < |s| ==> key(s[i]) >= key(s[j])
  }

  /** Selects the elements whose key is `k`. */
  function KeyIs<T>(key: T -> int, k: int): T -> bool
  {
    x => key(x) == k
  }

  /** An element that no element of a ranking outranks can be put in front of it. */
  lemma SortedCons<T>(x: T, s: seq<T>, key: T -> int)
    requires Sorted(s, key)
    requires s != [] ==> key(x) >= key(s[0])
    ensures Sorted([x] + s, key)
  {
    var r := [x] + s;
    forall i, j | 0 <= i < j < |r| ensures key(r[i]) >= key(r[j]) {
      assert r[j] == s[j - 1];
      if i > 0 {
        assert r[i] == s[i - 1];
      }
    }
  }

  /**
   * Places `x` in front of the first element of the ranked `s` whose key
   * does not exceed its own, so that `x` stays ahead of every element with
   * its key.
   */
  function Insert<T>(x: T, s: seq<T>, key: T -> int): (r: seq<T>)
    requires Sorted(s, key)
    ensures |r| == |s| + 1
    ensures r[0] == x || (s != [] && r[0] == s[0])
    ensures Sorted(r, key)
    ensures multiset(r) == multiset(s) + multiset{x}
  {
    if s == [] || key(x) >= key(s[0]) then
      SortedCons(x, s, key);
      [x] + s
    else
      var rest := Insert(x, s[1..], key);
      assert s == [s[0]] + s[1..];
      SortedCons(s[0], rest, key);
      [s[0]] + rest
  }

  /** The ranking: sorted by key and a permutation of the input. */
  function Rank<T>(xs: seq<T>, key: T -> int): (r: seq<T>)
    ensures Sorted(r, key)
    ensures multiset(r) == multiset(xs)
    ensures |r| == |xs|
  {
    if xs == [] then []
    else
      assert xs == [xs[0]] + xs[1..];
      Insert(xs[0], Rank(xs[1..], key), key)
  }

  /**
   * Insertion lands exactly behind the elements of strictly larger key: if
   * the first `k` elements outrank `x` and the `k`-th does not, `x` goes at
   * index `k`.
   */
  lemma {:induction false} InsertPosition<T>(x: T, s: seq<T>, key: T -> int, k: int)
    requires Sorted(s, key)
    requires 0 <= k <= |s|
    requires forall i :: 0 <= i < k ==> key(s[i]) > key(x)
    requires k < |s| ==> key(x) >= key(s[k])
    ensures Insert(x, s, key) == s[..k] + [x] + s[k..]
  {
    if k == 0 {
      assert s[..k] == [] && s[k..] == s;
    } else {
      var rest := s[1..];
      assert forall i :: 0 <= i < k - 1 ==> key(rest[i]) > key(x) by {
        forall i | 0 <= i < k - 1 ensures key(rest[i]) > key(x) {
          assert rest[i] == s[i + 1];
        }
      }
      assert k - 1 < |rest| ==> rest[k - 1] == s[k];
      InsertPosition(x, rest, key, k - 1);
      assert key(s[0]) > key(x);
      SplitBehindHead(s, x, k);
    }
  }

  /** Splitting at `k` is taking the head and splitting the rest at `k - 1`. */
  lemma SplitBehindHead<T>(s: seq<T>, x: T, k: int)
    requires 0 < k <= |s|
    ensures s[..k] + [x] + s[k..] == [s[0]] + (s[1..][..k - 1] + [x] + s[1..][k - 1..])
  {
    assert s[..k] == [s[0]] + s[1..][..k - 1];
    assert s[k..] == s[1..][k - 1..];
  }

  lemma {:induction false} InsertKeepsKeyGroups<T>(x: T, s: seq<T>, key: T -> int, k: int)
    requires Sorted(s, key)
    ensures Filter(Insert(x, s, key), KeyIs(key, k))
            == if key(x) == k then [x] + Filter(s, KeyIs(key, k)) else Filter(s, KeyIs(key, k))
  {
    if s == [] || key(x) >= key(s[0]) {
      assert ([x] + s)[1..] == s;
    } else {
      var rest := Insert(x, s[1..], key);
      assert ([s[0]] + rest)[1..] == rest;
      InsertKeepsKeyGroups(x, s[1..], key, k);
    }
  }

  /**
   * Stability: the elements of any one key appear in the ranking exactly in
   * their input order.
   */
  lemma {:induction false} RankIsStable<T>(xs: seq<T>, key: T -> int, k: int)
    ensures Filter(Rank(xs, key), KeyIs(key, k)) == Filter(xs, KeyIs(key, k))
  {
    if xs != [] {
      RankIsStable(xs[1..], key, k);
      InsertKeepsKeyGroups(xs[0], Rank(xs[1..], key), key, k);
    }
  }

  /** Every key group lists the same elements in the same order in `r` and `r'`. */
  ghost predicate SameKeyGroups<T>(r: seq<T>, r': seq<T>, key: T -> int)
  {
    forall k :: Filter(r, KeyIs(key, k)) == Filter(r', KeyIs(key, k))
  }

  /**
   * Two rankings that are both sorted by key and agree on the order within
   * every key group are the same sequence: the three properties of Rank
   * (sorted, permutation, stable) determine its result.
   */
  lemma {:induction false} RankingIsUnique<T>(r: seq<T>, r': seq<T>, key: T -> int)
    requires Sorted(r, key) && Sorted(r', key)
    requires SameKeyGroups(r, r', key)
    ensures r == r'
    decreases |r|
  {
    if r == [] {
      EmptyRankingAgrees(r, r', key);
    } else if r' == [] {
      EmptyRankingAgrees(r', r, key);
    } else {
      TopKeysAgree(r, r', key);
      var p := KeyIs(key, key(r[0]));
      assert Filter(r, p) == Filter(r', p);
      assert Filter(r, p) == [r[0]] + Filter(r[1..], p);
      assert Filter(r', p) == [r'[0]] + Filter(r'[1..], p);
      assert r[0] == Filter(r, p)[0] == Filter(r', p)[0] == r'[0];
      TailsKeepKeyGroups(r, r', key);
      RankingIsUnique(r[1..], r'[1..], key);
      assert r == [r[0]] + r[1..];
      assert r' == [r'[0]] + r'[1..];
    }
  }

  /** Only the empty ranking has the key groups of the empty ranking. */
  lemma EmptyRankingAgrees<T>(r: seq<T>, r': seq<T>, key: T -> int)
    requires r == [] && SameKeyGroups(r', r, key)
    ensures r' == []
  {
    if r' != [] {
      var p := KeyIs(key, key(r'[0]));
      assert false;
    }
  }

  /** Rankings with the same key groups start with the same top key. */
  lemma TopKeysAgree<T>(r: seq<T>, r': seq<T>, key: T -> int)
    requires r != [] && r' != []
    requires Sorted(r, key) && Sorted(r', key)
    requires SameKeyGroups(r, r', key)
    ensures key(r[0]) == key(r'[0])
  {
    var m, m' := key(r[0]), key(r'[0]);
    var p, p' := KeyIs(key, m), KeyIs(key, m');
    FilterMembers(r, p);
    FilterMembers(r', p);
    FilterMembers(r, p');
    FilterMembers(r', p');
    assert r'[0] in Filter(r', p');
    assert r'[0] in Filter(r, p');
    var i :| 0 <= i < |r| && r[i] == r'[0];
    assert m >= m' by { assert i == 0 || key(r[0]) >= key(r[i]); }
    assert r[0] in Filter(r, p);
    assert r[0] in Filter(r', p);
    var j :| 0 <= j < |r'| && r'[j] == r[0];
    assert m' >= m by { assert j == 0 || key(r'[0]) >= key(r'[j]); }
  }

  /** Removing an equal head from two rankings keeps their key groups equal. */
  lemma TailsKeepKeyGroups<T>(r: seq<T>, r': seq<T>, key: T -> int)
    requires r != [] && r' != [] && r[0] == r'[0]
    requires SameKeyGroups(r, r', key)
    ensures SameKeyGroups(r[1..], r'[1..], key)
  {
    forall k ensures Filter(r[1..], KeyIs(key, k)) == Filter(r'[1..], KeyIs(key, k)) {
      var q := KeyIs(key, k);
      assert Filter(r, q) == Filter(r', q);
      if q(r[0]) {
        assert Filter(r[1..], q) == Filter(r, q)[1..];
        assert Filter(r'[1..], q) == Filter(r', q)[1..];
      }
    }
  }

  /** Ranking an already ranked sequence changes nothing. */
  lemma RankOfSortedIsIdentity<T>(xs: seq<T>, key: T -> int)
    requires Sorted(xs, key)
    ensures Rank(xs, key) == xs
  {
    forall k ensures Filter(Rank(xs, key), KeyIs(key, k)) == Filter(xs, KeyIs(key, k)) {
      RankIsStable(xs, key, k);
    }
    assert SameKeyGroups(Rank(xs, key), xs, key);
    RankingIsUnique(Rank(xs, key), xs, key);
  }

  /** Ranking twice is ranking once. */
  lemma RankIsIdempotent<T>(xs: seq<T>, key: T -> int)
    ensures Rank(Rank(xs, key), key) == Rank(xs, key)
  {
    RankOfSortedIsIdentity(Rank(xs, key), key);
  }

  /** In a sorted sequence, and so in a ranking, a strictly larger key always comes first. */
  lemma LargerKeyComesFirst<T>(r: seq<T>, key: T -> int, i: int, j: int)
    requires Sorted(r, key)
    requires 0 <= i < |r| && 0 <= j < |r|
    requires key(r[i]) > key(r[j])
    ensures i < j
  {
  }

  /**
   * The first element of a non-empty ranking has the top key, and among the
   * elements with that key it is the one listed first in the input.
   */
  lemma {:induction false} HeadIsFirstOfTopKey<T>(xs: seq<T>, key: T -> int)
    requires xs != []
    ensures forall x :: x in xs ==> key(x) <= key(Rank(xs, key)[0])
    ensures exists i :: 0 <= i < |xs| && xs[i] == Rank(xs, key)[0] &&
              forall j :: 0 <= j < i ==> key(xs[j]) < key(xs[i])
  {
    var r := Rank(xs, key);
    var v := r[0];
    assert forall x :: x in xs ==> key(x) <= key(v) by {
      forall x | x in xs ensures key(x) <= key(v) {
        assert x in multiset(r);
        var i :| 0 <= i < |r| && r[i] == x;
        assert i == 0 || key(r[0]) >= key(r[i]);
      }
    }
    var p := KeyIs(key, key(v));
    RankIsStable(xs, key, key(v));
    assert Filter(r, p) == [v] + Filter(r[1..], p);
    FilterHead(xs, p);
    var i :| 0 <= i < |xs| && xs[i] == Filter(xs, p)[0] && FirstPassing(xs, p, i);
    forall j | 0 <= j < i ensures key(xs[j]) < key(xs[i]) {
      assert !p(xs[j]);
      assert xs[j] in xs;
    }
  }
}
