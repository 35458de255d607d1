/** The sequence operations the datastore queries and the notification list
    are built from: filtering (`where`, `Array.prototype.filter`), ordered
    subsequences, and sorting by a comparator (`orderBy`). */
module Seqs {
  import opened Common

  /** `a` can be obtained from `b` by deleting elements, keeping the order of
      the rest. */
  predicate SubsequenceOf<T(==)>(a: seq<T>, b: seq<T>)
    decreases |b|
  {
    if |a| == 0 then true
    else if |b| == 0 then false
    else if a[0] == b[0] then SubsequenceOf(a[1..], b[1..])
    else SubsequenceOf(a, b[1..])
  }

  /** The elements of `xs` that satisfy `p`, in their original order. */
  function Filter<T>(xs: seq<T>, p: T -> bool): (r: seq<T>)
    ensures |r| <= |xs|
    ensures forall i :: 0 <= i < |r| ==> p(r[i])
    ensures forall i :: 0 <= i < |xs| && p(xs[i]) ==> xs[i] in r
    ensures forall x :: x in r ==> x in xs && p(x)
    ensures multiset(r) <= multiset(xs)
    ensures (forall i :: 0 <= i < |xs| ==> p(xs[i])) ==> r == xs
    ensures (forall i :: 0 <= i < |xs| ==> !p(xs[i])) ==> r == []
  {
    if |xs| == 0 then []
    else
      var rest := Filter(xs[1..], p);
      assert xs == [xs[0]] + xs[1..];
      if p(xs[0]) then [xs[0]] + rest else rest
  }

  /** The filter keeps the surviving elements in their original order. */
  lemma {:induction false} FilterIsSubsequence<T>(xs: seq<T>, p: T -> bool)
    ensures SubsequenceOf(Filter(xs, p), xs)
    decreases |xs|
  {
    if |xs| > 0 {
      FilterIsSubsequence(xs[1..], p);
      var r := Filter(xs, p);
      var rest := Filter(xs[1..], p);
      if p(xs[0]) {
        assert r[0] == xs[0] && r[1..] == rest;
      } else if |r| > 0 {
        // r[0] satisfies p and xs[0] does not, so they differ
        assert r[0] != xs[0];
      }
    }
  }

  /** Filtering distributes over concatenation. */
  lemma {:induction false} FilterConcat<T>(a: seq<T>, b: seq<T>, p: T -> bool)
    ensures Filter(a + b, p) == Filter(a, p) + Filter(b, p)
    decreases |a|
  {
    if |a| == 0 {
      assert a + b == b;
    } else {
      assert (a + b)[1..] == a[1..] + b;
      assert (a + b)[0] == a[0];
      FilterConcat(a[1..], b, p);
    }
  }

  /** The filter keeps every passing value exactly as often as the input
      holds it, and drops every other value. */
  lemma {:induction false} FilterMultiset<T>(xs: seq<T>, p: T -> bool)
    ensures forall x :: multiset(Filter(xs, p))[x] == if p(x) then multiset(xs)[x] else 0
    decreases |xs|
  {
    if |xs| > 0 {
      FilterMultiset(xs[1..], p);
      assert xs == [xs[0]] + xs[1..];
      assert multiset(xs) == multiset{xs[0]} + multiset(xs[1..]);
    }
  }

  /** Two filters can be applied in either order. */
  lemma {:induction false} FilterCommutes<T>(xs: seq<T>, p: T -> bool, q: T -> bool)
    ensures Filter(Filter(xs, p), q) == Filter(Filter(xs, q), p)
    decreases |xs|
  {
    if |xs| > 0 {
      FilterCommutes(xs[1..], p, q);
      FilterConcat([xs[0]], Filter(xs[1..], p), q);
      FilterConcat([xs[0]], Filter(xs[1..], q), p);
    }
  }

  /** The first element satisfying `p`, if any: a lookup by a unique key. */
  function Find<T>(xs: seq<T>, p: T -> bool): (r: Option<T>)
    ensures r.Some? ==> r.value in xs && p(r.value)
    ensures r.None? <==> forall i :: 0 <= i < |xs| ==> !p(xs[i])
    ensures r.Some? ==> exists i :: 0 <= i < |xs| && xs[i] == r.value && forall j :: 0 <= j < i ==> !p(xs[j])
  {
    if |xs| == 0 then None
    else if p(xs[0]) then Some(xs[0])
    else
      var r := Find(xs[1..], p);
      assert r.Some? ==> exists i :: 0 <= i < |xs| && xs[i] == r.value && forall j :: 0 <= j < i ==> !p(xs[j]) by {
        if r.Some? {
          var i :| 0 <= i < |xs[1..]| && xs[1..][i] == r.value && forall j :: 0 <= j < i ==> !p(xs[1..][j]);
          assert xs[i + 1] == r.value;
          assert forall j :: 0 <= j < i + 1 ==> !p(xs[j]) by {
            forall j | 0 <= j < i + 1 ensures !p(xs[j]) {
              if j > 0 {
                assert xs[j] == xs[1..][j - 1];
              }
            }
          }
        }
      }
      r
  }

  /** Appending a value that is the only one satisfying `p` makes the
      lookup find it. */
  lemma {:induction false} FindAppend<T>(xs: seq<T>, a: T, p: T -> bool)
    requires forall i :: 0 <= i < |xs| ==> !p(xs[i])
    requires p(a)
    ensures Find(xs + [a], p) == Some(a)
  {
    var r := Find(xs + [a], p);
    assert (xs + [a])[|xs|] == a;
    var i :| 0 <= i < |xs + [a]| && (xs + [a])[i] == r.value && forall j :: 0 <= j < i ==> !p((xs + [a])[j]);
    if i < |xs| {
      assert (xs + [a])[i] == xs[i];
    }
  }

  /** Every element is `le` the one after it. */
  predicate Ordered<T>(xs: seq<T>, le: (T, T) -> bool)
  {
    forall i :: 0 <= i < |xs| - 1 ==> le(xs[i], xs[i + 1])
  }

  /** Every earlier element is `le` every later one. */
  predicate SortedBy<T>(xs: seq<T>, le: (T, T) -> bool)
  {
    forall i, j :: 0 <= i < j < |xs| ==> le(xs[i], xs[j])
  }

  /** Any two values are comparable. */
  ghost predicate Total<T(!new)>(le: (T, T) -> bool)
  {
    forall a, b :: le(a, b) || le(b, a)
  }

  ghost predicate Transitive<T(!new)>(le: (T, T) -> bool)
  {
    forall a, b, c :: le(a, b) && le(b, c) ==> le(a, c)
  }

  /** Inserts `x` before the first element it is `le`. */
  function Insert<T>(x: T, xs: seq<T>, le: (T, T) -> bool): (r: seq<T>)
    ensures |r| == |xs| + 1
    ensures r[0] == x || (|xs| > 0 && r[0] == xs[0])
  {
    if |xs| == 0 then [x]
    else if le(x, xs[0]) then [x] + xs
    else [xs[0]] + Insert(x, xs[1..], le)
  }

  /** Insertion sort by `le`. */
  function SortBy<T>(xs: seq<T>, le: (T, T) -> bool): (r: seq<T>)
    ensures |r| == |xs|
  {
    if |xs| == 0 then [] else Insert(xs[0], SortBy(xs[1..], le), le)
  }

  lemma {:induction false} InsertPermutes<T>(x: T, xs: seq<T>, le: (T, T) -> bool)
    ensures multiset(Insert(x, xs, le)) == multiset(xs) + multiset{x}
    decreases |xs|
  {
    if |xs| > 0 {
      assert xs == [xs[0]] + xs[1..];
      if !le(x, xs[0]) {
        InsertPermutes(x, xs[1..], le);
      }
    }
  }

  lemma {:induction false} InsertOrdered<T(!new)>(x: T, xs: seq<T>, le: (T, T) -> bool)
    requires Total(le)
    requires Ordered(xs, le)
    ensures Ordered(Insert(x, xs, le), le)
    decreases |xs|
  {
    if |xs| > 0 {
      var r := Insert(x, xs, le);
      if le(x, xs[0]) {
        assert r == [x] + xs;
        forall i | 0 <= i < |r| - 1 ensures le(r[i], r[i + 1]) {
          if i > 0 {
            assert r[i] == xs[i - 1] && r[i + 1] == xs[i];
          }
        }
      } else {
        var rest := Insert(x, xs[1..], le);
        InsertOrdered(x, xs[1..], le);
        assert le(xs[0], x);
        assert r == [xs[0]] + rest;
        forall i | 0 <= i < |r| - 1 ensures le(r[i], r[i + 1]) {
          if i > 0 {
            assert r[i] == rest[i - 1] && r[i + 1] == rest[i];
          } else if rest[0] != x {
            assert rest[0] == xs[1];
          }
        }
      }
    }
  }

  /** For a transitive comparator, neighbouring order is order throughout. */
  lemma OrderedIsSorted<T(!new)>(xs: seq<T>, le: (T, T) -> bool)
    requires Transitive(le)
    requires Ordered(xs, le)
    ensures SortedBy(xs, le)
  {
    forall i, j | 0 <= i < j < |xs| ensures le(xs[i], xs[j]) {
      var k := i + 1;
      while k < j
        invariant i < k <= j
        invariant le(xs[i], xs[k])
      {
        assert le(xs[k], xs[k + 1]);
        k := k + 1;
      }
    }
  }

  /** Sorting yields an ordered permutation of its input. */
  lemma {:induction false} SortByIsOrderedPermutation<T(!new)>(xs: seq<T>, le: (T, T) -> bool)
    requires Total(le)
    ensures Ordered(SortBy(xs, le), le)
    ensures multiset(SortBy(xs, le)) == multiset(xs)
    ensures forall x :: x in SortBy(xs, le) <==> x in xs
    decreases |xs|
  {
    if |xs| > 0 {
      SortByIsOrderedPermutation(xs[1..], le);
      InsertOrdered(xs[0], SortBy(xs[1..], le), le);
      InsertPermutes(xs[0], SortBy(xs[1..], le), le);
      assert xs == [xs[0]] + xs[1..];
    }
    SameMembers(SortBy(xs, le), xs);
  }

  /** Sequences with the same multiset of elements have the same members. */
  lemma SameMembers<T>(a: seq<T>, b: seq<T>)
    requires multiset(a) == multiset(b)
    ensures forall x :: x in a <==> x in b
  {
    forall x ensures x in a <==> x in b {
      assert x in a <==> x in multiset(a);
      assert x in b <==> x in multiset(b);
    }
  }

  /** Lexicographic order of strings by character code, shortest prefix
      first. */
  predicate StrLe(a: string, b: string)
    decreases |a|
  {
    if |a| == 0 then true
    else if |b| == 0 then false
    else if a[0] != b[0] then a[0] < b[0]
    else StrLe(a[1..], b[1..])
  }

  /** Any two strings are comparable. */
  lemma {:induction false} StrLeTotal(a: string, b: string)
    ensures StrLe(a, b) || StrLe(b, a)
    decreases |a|
  {
    if |a| > 0 && |b| > 0 && a[0] == b[0] {
      StrLeTotal(a[1..], b[1..]);
    }
  }

  /** The string order is transitive. */
  lemma {:induction false} StrLeTransitive(a: string, b: string, c: string)
    requires StrLe(a, b) && StrLe(b, c)
    ensures StrLe(a, c)
    decreases |a|
  {
    if |a| > 0 && |b| > 0 && |c| > 0 && a[0] == b[0] && b[0] == c[0] {
      StrLeTransitive(a[1..], b[1..], c[1..]);
    }
  }
}
