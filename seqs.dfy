/**
 * The array operations the task pipeline is built from: `Array.prototype.filter`
 * and the first-occurrence de-duplication of `Array.from(new Set(xs))`, with
 * the facts about them that the pipeline's properties rest on.
 */
module Seqs {

  /** `a` is obtained from `b` by deleting elements, keeping the rest in order. */
  predicate IsSubsequence<T(==)>(a: seq<T>, b: seq<T>)
    decreases |b|
  {
    if a == [] then true
    else if b == [] then false
    else (a[0] == b[0] && IsSubsequence(a[1..], b[1..])) || IsSubsequence(a, b[1..])
  }

  /** No element occurs twice. */
  predicate NoDuplicates<T(==)>(s: seq<T>)
  {
    forall i, j :: 0 <= i < j < |s| ==> s[i] != s[j]
  }

  /**
   * `s.filter(p)`: the elements of `s` on which `p` holds, in their order,
   * each kept as often as it occurs in `s`.
   */
  function Filter<T(==)>(s: seq<T>, p: T -> bool): (r: seq<T>)
    ensures |r| <= |s|
  {
    if s == [] then []
    else
      var rest := Filter(s[1..], p);
      if p(s[0]) then [s[0]] + rest else rest
  }

  /** The filter keeps exactly the elements of `s` that pass `p`. */
  lemma {:induction false} FilterMembers<T>(s: seq<T>, p: T -> bool)
    ensures forall x :: x in Filter(s, p) <==> x in s && p(x)
  {
    if s != [] {
      FilterMembers(s[1..], p);
      assert s == [s[0]] + s[1..];
    }
  }

  /** The filter deletes elements and keeps the rest in their order. */
  lemma {:induction false} FilterSubsequence<T>(s: seq<T>, p: T -> bool)
    ensures IsSubsequence(Filter(s, p), s)
  {
    if s != [] {
      FilterSubsequence(s[1..], p);
      var r := Filter(s, p);
      if p(s[0]) {
        assert r[0] == s[0] && r[1..] == Filter(s[1..], p);
      }
    }
  }

  /** A passing element is kept as often as it occurs; a failing one not at all. */
  lemma {:induction false} FilterMultiplicity<T>(s: seq<T>, p: T -> bool)
    ensures forall x :: multiset(Filter(s, p))[x] == if p(x) then multiset(s)[x] else 0
  {
    if s != [] {
      FilterMultiplicity(s[1..], p);
      assert s == [s[0]] + s[1..];
    }
  }

  /** Filtering distributes over concatenation. */
  lemma {:induction false} FilterAppend<T>(a: seq<T>, b: seq<T>, p: T -> bool)
    ensures Filter(a + b, p) == Filter(a, p) + Filter(b, p)
  {
    if a == [] {
      assert a + b == b;
    } else {
      assert (a + b)[1..] == a[1..] + b;
      FilterAppend(a[1..], b, p);
    }
  }

  /** A filter that every element passes returns its input unchanged. */
  lemma {:induction false} FilterKeepsAll<T>(s: seq<T>, p: T -> bool)
    requires forall i :: 0 <= i < |s| ==> p(s[i])
    ensures Filter(s, p) == s
  {
    if s != [] {
      FilterKeepsAll(s[1..], p);
    }
  }

  /** Every element is counted either by `p` or by its negation, never both. */
  lemma {:induction false} FilterComplement<T>(s: seq<T>, p: T -> bool)
    ensures |Filter(s, p)| + |Filter(s, Not(p))| == |s|
  {
    if s != [] {
      FilterComplement(s[1..], p);
    }
  }

  /** The negation of a predicate. */
  function Not<T>(p: T -> bool): T -> bool
  {
    x => !p(x)
  }

  /** How many elements pass a filter depends only on the multiset filtered. */
  lemma FilterCountPermutation<T>(s: seq<T>, s': seq<T>, p: T -> bool)
    requires multiset(s) == multiset(s')
    ensures |Filter(s, p)| == |Filter(s', p)|
  {
    var r, r' := Filter(s, p), Filter(s', p);
    FilterMultiplicity(s, p);
    FilterMultiplicity(s', p);
    MultisetsAgree(multiset(r), multiset(r'));
    assert |r| == |multiset(r)| == |multiset(r')| == |r'|;
  }

  /** Multisets with the same multiplicities are equal. */
  lemma MultisetsAgree<T>(a: multiset<T>, b: multiset<T>)
    requires forall x: T :: a[x] == b[x]
    ensures a == b
  {
  }

  /**
   * The first element kept by a filter is the first element of `s` that
   * passes it.
   */
  lemma {:induction false} FilterHead<T>(s: seq<T>, p: T -> bool)
    requires Filter(s, p) != []
    ensures exists i :: 0 <= i < |s| && s[i] == Filter(s, p)[0] && FirstPassing(s, p, i)
  {
    if p(s[0]) {
      assert FirstPassing(s, p, 0);
    } else {
      FilterHead(s[1..], p);
      var i :| 0 <= i < |s[1..]| && s[1..][i] == Filter(s[1..], p)[0] && FirstPassing(s[1..], p, i);
      assert s[i + 1] == Filter(s, p)[0];
      assert FirstPassing(s, p, i + 1) by {
        forall j | 0 <= j < i + 1 ensures !p(s[j]) {
          if j > 0 { assert s[j] == s[1..][j - 1]; }
        }
      }
    }
  }

  /** `s[i]` passes `p` and no earlier element does. */
  predicate FirstPassing<T>(s: seq<T>, p: T -> bool, i: int)
    requires 0 <= i < |s|
  {
    p(s[i]) && forall j :: 0 <= j < i ==> !p(s[j])
  }

  /**
   * The elements of `s` not in `seen`, each once, in the order of their first
   * occurrence; `Distinct(s, {})` is `Array.from(new Set(s))`: a `Set`
   * inserts each value the first time it is met and keeps insertion order.
   */
  function Distinct<T(==)>(s: seq<T>, seen: set<T>): (r: seq<T>)
    ensures NoDuplicates(r)
    ensures forall x :: x in r ==> x in s && x !in seen
    ensures forall x :: x in s && x !in seen ==> x in r
    ensures IsSubsequence(r, s)
  {
    if s == [] then []
    else if s[0] in seen then Distinct(s[1..], seen)
    else [s[0]] + Distinct(s[1..], seen + {s[0]})
  }

  /**
   * The insertion rule of a `Set`: appending a value adds it at the end
   * exactly when it has not been met before, so each value stays where it
   * first occurred.
   */
  lemma {:induction false} DistinctSnoc<T>(s: seq<T>, x: T, seen: set<T>)
    ensures Distinct(s + [x], seen) == Distinct(s, seen) + (if x in s || x in seen then [] else [x])
  {
    var t := s + [x];
    if s == [] {
      assert t == [x];
    } else {
      assert t[0] == s[0] && t[1..] == s[1..] + [x];
      var seen' := if s[0] in seen then seen else seen + {s[0]};
      DistinctSnoc(s[1..], x, seen');
      assert (x in s[1..] || x in seen') <==> (x in s || x in seen) by {
        assert x in s <==> x == s[0] || x in s[1..];
      }
    }
  }

  /** De-duplicating a list without repeats, none of them seen before, changes nothing. */
  lemma {:induction false} DistinctKeepsFresh<T>(s: seq<T>, seen: set<T>)
    requires NoDuplicates(s)
    requires forall i :: 0 <= i < |s| ==> s[i] !in seen
    ensures Distinct(s, seen) == s
  {
    if s != [] {
      FreshTail(s, seen);
      DistinctKeepsFresh(s[1..], seen + {s[0]});
      assert s == [s[0]] + s[1..];
    }
  }

  /** The tail of a fresh list without repeats is fresh once its head is seen. */
  lemma FreshTail<T>(s: seq<T>, seen: set<T>)
    requires s != [] && NoDuplicates(s)
    requires forall i :: 0 <= i < |s| ==> s[i] !in seen
    ensures NoDuplicates(s[1..])
    ensures forall i :: 0 <= i < |s[1..]| ==> s[1..][i] !in seen + {s[0]}
  {
    forall i | 0 <= i < |s[1..]| ensures s[1..][i] !in seen + {s[0]} {
      assert s[1..][i] == s[i + 1] != s[0];
    }
    forall i, j | 0 <= i < j < |s[1..]| ensures s[1..][i] != s[1..][j] {
      assert s[1..][i] == s[i + 1] && s[1..][j] == s[j + 1];
    }
  }
}
