/** Order-preserving filtering and stable sorting of sequences: the two list
    operations the client borrows from JavaScript arrays (`filter` and the
    stable `sort` with a numeric comparator). */
module Seqs {

  /** `xs.filter(p)`: the elements satisfying `p`, in their original order. */
  function Filter<T(==,!new)>(xs: seq<T>, p: T -> bool): (r: seq<T>)
    ensures |r| <= |xs|
    ensures forall y :: multiset(r)[y] == if p(y) then multiset(xs)[y] else 0
    ensures forall y :: y in r ==> y in xs && p(y)
  {
    if xs == [] then []
    else
      assert xs == [xs[0]] + xs[1..];
      if p(xs[0]) then [xs[0]] + Filter(xs[1..], p) else Filter(xs[1..], p)
  }

  /** Filtering distributes over concatenation, which is what "keeps the
      survivors in their original order" means for a filter. */
  lemma {:induction false} FilterConcat<T(!new)>(a: seq<T>, b: seq<T>, p: T -> bool)
    ensures Filter(a + b, p) == Filter(a, p) + Filter(b, p)
  {
    if a == [] {
      assert a + b == b;
    } else {
      assert (a + b)[0] == a[0];
      assert (a + b)[1..] == a[1..] + b;
      FilterConcat(a[1..], b, p);
    }
  }

  /** Two filters in a row are one filter by the conjunction. */
  lemma {:induction false} FilterFuse<T(!new)>(xs: seq<T>, p: T -> bool, q: T -> bool, pq: T -> bool)
    requires forall y :: pq(y) == (p(y) && q(y))
    ensures Filter(Filter(xs, p), q) == Filter(xs, pq)
  {
    if xs != [] {
      FilterFuse(xs[1..], p, q, pq);
    }
  }

  /** A filter every element passes changes nothing. */
  lemma {:induction false} FilterKeepsAll<T(!new)>(xs: seq<T>, p: T -> bool)
    requires forall i :: 0 <= i < |xs| ==> p(xs[i])
    ensures Filter(xs, p) == xs
  {
    if xs != [] {
      FilterKeepsAll(xs[1..], p);
      assert xs == [xs[0]] + xs[1..];
    }
  }

  /** Filters by predicates that agree everywhere agree. */
  lemma {:induction false} FilterCongruent<T(!new)>(xs: seq<T>, p: T -> bool, q: T -> bool)
    requires forall y :: p(y) == q(y)
    ensures Filter(xs, p) == Filter(xs, q)
  {
    if xs != [] {
      FilterCongruent(xs[1..], p, q);
    }
  }

  /** Filtering with the same predicate twice is filtering once. */
  lemma {:induction false} FilterIdempotent<T(!new)>(xs: seq<T>, p: T -> bool)
    ensures Filter(Filter(xs, p), p) == Filter(xs, p)
  {
    FilterFuse(xs, p, p, p);
  }

  /** Rearrangements of each other have the same members. */
  lemma SameMembers<T>(a: seq<T>, b: seq<T>)
    requires multiset(a) == multiset(b)
    ensures forall y :: y in a <==> y in b
  {
    forall y ensures y in a <==> y in b {
      assert y in a <==> y in multiset(a);
      assert y in b <==> y in multiset(b);
    }
  }

  /** Non-decreasing by `key`. */
  ghost predicate SortedBy<T>(xs: seq<T>, key: T -> real) {
    forall i, j :: 0 <= i < j < |xs| ==> key(xs[i]) <= key(xs[j])
  }

  /** Puts `x` after every element whose key is at most its own, so equal
      keys keep their arrival order. */
  function Insert<T(==,!new)>(sorted: seq<T>, x: T, key: T -> real): (r: seq<T>)
    requires SortedBy(sorted, key)
    ensures SortedBy(r, key)
    ensures multiset(r) == multiset(sorted) + multiset{x}
  {
    if sorted == [] then [x]
    else if key(x) < key(sorted[0]) then [x] + sorted
    else
      var rest := Insert(sorted[1..], x, key);
      assert sorted == [sorted[0]] + sorted[1..];
      assert forall y :: y in rest ==> y == x || y in sorted[1..] by {
        forall y | y in rest ensures y == x || y in sorted[1..] {
          assert y in multiset(rest);
        }
      }
      assert forall k :: 0 <= k < |rest| ==> key(sorted[0]) <= key(rest[k]) by {
        forall k | 0 <= k < |rest| ensures key(sorted[0]) <= key(rest[k]) {
          assert rest[k] in rest;
        }
      }
      [sorted[0]] + rest
  }

  /** A stable ascending sort by `key`: insertion sort over the input taken
      left to right, as JavaScript's stable `Array.prototype.sort` orders
      elements with a numeric comparator. */
  function SortBy<T(==,!new)>(xs: seq<T>, key: T -> real): (r: seq<T>)
    ensures SortedBy(r, key)
    ensures multiset(r) == multiset(xs)
  {
    if xs == [] then []
    else
      assert xs == xs[..|xs| - 1] + [xs[|xs| - 1]];
      Insert(SortBy(xs[..|xs| - 1], key), xs[|xs| - 1], key)
  }

  /** The elements whose key is `k`, in their order: one key class. */
  function OfKey<T>(xs: seq<T>, key: T -> real, k: real): seq<T> {
    if xs == [] then []
    else (if key(xs[0]) == k then [xs[0]] else []) + OfKey(xs[1..], key, k)
  }

  lemma {:induction false} OfKeyConcat<T>(a: seq<T>, b: seq<T>, key: T -> real, k: real)
    ensures OfKey(a + b, key, k) == OfKey(a, key, k) + OfKey(b, key, k)
  {
    if a == [] {
      assert a + b == b;
    } else {
      assert (a + b)[1..] == a[1..] + b;
      OfKeyConcat(a[1..], b, key, k);
    }
  }

  /** A key class of a sorted sequence whose keys all exceed `k` is empty. */
  lemma {:induction false} OfKeyAbove<T>(xs: seq<T>, key: T -> real, k: real)
    requires forall i :: 0 <= i < |xs| ==> k < key(xs[i])
    ensures OfKey(xs, key, k) == []
  {
    if xs != [] {
      OfKeyAbove(xs[1..], key, k);
    }
  }

  /** Inserting `x` puts it at the end of its key class and leaves the other
      classes as they were. */
  lemma {:induction false} InsertJoinsClassAtEnd<T(!new)>(s: seq<T>, x: T, key: T -> real, k: real)
    requires SortedBy(s, key)
    ensures OfKey(Insert(s, x, key), key, k) == OfKey(s, key, k) + OfKey([x], key, k)
  {
    if s == [] {
    } else if key(x) < key(s[0]) {
      OfKeyConcat([x], s, key, k);
      if key(x) == k {
        OfKeyAbove(s, key, k);
      }
    } else {
      var rest := s[1..];
      InsertJoinsClassAtEnd(rest, x, key, k);
      var head := if key(s[0]) == k then [s[0]] else [];
      assert OfKey(Insert(s, x, key), key, k) == head + OfKey(Insert(rest, x, key), key, k);
      assert OfKey(s, key, k) == head + OfKey(rest, key, k);
    }
  }

  /** `SortBy` is stable: the elements sharing any one key appear in the
      result in the order they had in the input. */
  lemma {:induction false} SortByStable<T(!new)>(xs: seq<T>, key: T -> real, k: real)
    ensures OfKey(SortBy(xs, key), key, k) == OfKey(xs, key, k)
  {
    if xs != [] {
      var init, last := xs[..|xs| - 1], xs[|xs| - 1];
      assert xs == init + [last];
      SortByStable(init, key, k);
      InsertJoinsClassAtEnd(SortBy(init, key), last, key, k);
      OfKeyConcat(init, [last], key, k);
    }
  }
}
