/** Orders the source sorts by: strings by code point, and stable sorting by a total preorder. */
module Sorting {
  import opened Iterables

  predicate LexLe(a: string, b: string) {
    a == "" || (b != "" && (a[0] < b[0] || (a[0] == b[0] && LexLe(a[1..], b[1..]))))
  }

  lemma {:induction false} LexTotal(a: string, b: string)
    ensures LexLe(a, b) || LexLe(b, a)
  {
    if a != "" && b != "" {
      LexTotal(a[1..], b[1..]);
    }
  }

  /** Up to the first `k` characters the two are the same, and there `a` ends or has the smaller one. */
  ghost predicate SplitsAt(a: string, b: string, k: nat) {
    k <= |a| && k <= |b| && a[..k] == b[..k] && (k == |a| || (k < |b| && a[k] < b[k]))
  }

  /** The order of strings is decided where they first differ. */
  lemma {:induction false} LexLeIff(a: string, b: string)
    ensures LexLe(a, b) <==> exists k: nat :: SplitsAt(a, b, k)
  {
    if a == "" {
      assert SplitsAt(a, b, 0);
    } else if b != "" {
      LexLeIff(a[1..], b[1..]);
      if k: nat :| a[0] == b[0] && SplitsAt(a[1..], b[1..], k) {
        assert a[..k + 1] == [a[0]] + a[1..][..k] && b[..k + 1] == [b[0]] + b[1..][..k];
        assert SplitsAt(a, b, k + 1);
      }
      if a[0] < b[0] {
        assert SplitsAt(a, b, 0);
      }
      if k: nat :| SplitsAt(a, b, k) {
        if k > 0 {
          assert a[..k][0] == b[..k][0] && a[1..][..k - 1] == a[..k][1..] && b[1..][..k - 1] == b[..k][1..];
          assert SplitsAt(a[1..], b[1..], k - 1);
        }
      }
    }
  }

  lemma {:induction false} LexTransitive(a: string, b: string, c: string)
    requires LexLe(a, b) && LexLe(b, c)
    ensures LexLe(a, c)
  {
    if a != "" {
      if a[0] == b[0] && b[0] == c[0] {
        LexTransitive(a[1..], b[1..], c[1..]);
      }
    }
  }

  lemma {:induction false} LexAntisymmetric(a: string, b: string)
    requires LexLe(a, b) && LexLe(b, a)
    ensures a == b
  {
    if a != "" {
      LexAntisymmetric(a[1..], b[1..]);
      assert a == [a[0]] + a[1..] && b == [b[0]] + b[1..];
    }
  }

  // ----- Stable sorting -----

  ghost predicate TotalPreorder<T(!new)>(le: (T, T) -> bool) {
    && (forall x, y :: le(x, y) || le(y, x))
    && (forall x, y, z :: le(x, y) && le(y, z) ==> le(x, z))
  }

  ghost predicate Sorted<T>(xs: seq<T>, le: (T, T) -> bool) {
    forall i, j :: 0 <= i < j < |xs| ==> le(xs[i], xs[j])
  }

  /** `x` goes behind everything that is not greater. */
  function InsertLast<T>(xs: seq<T>, x: T, le: (T, T) -> bool): (r: seq<T>)
    ensures |r| == |xs| + 1
  {
    if xs == [] || le(xs[|xs| - 1], x) then xs + [x]
    else InsertLast(xs[..|xs| - 1], x, le) + [xs[|xs| - 1]]
  }

  function Sort<T>(xs: seq<T>, le: (T, T) -> bool): (r: seq<T>)
    ensures |r| == |xs|
  {
    if xs == [] then [] else InsertLast(Sort(xs[..|xs| - 1], le), xs[|xs| - 1], le)
  }

  lemma {:induction false} InsertLastPermutes<T(!new)>(xs: seq<T>, x: T, le: (T, T) -> bool)
    ensures multiset(InsertLast(xs, x, le)) == multiset(xs) + multiset{x}
  {
    if !(xs == [] || le(xs[|xs| - 1], x)) {
      var n := |xs| - 1;
      InsertLastPermutes(xs[..n], x, le);
      LastApart(xs);
      LastApart(InsertLast(xs, x, le));
      assert InsertLast(xs, x, le)[..n + 1] == InsertLast(xs[..n], x, le);
    } else {
      LastApart(xs + [x]);
      assert (xs + [x])[..|xs|] == xs;
    }
  }

  lemma LastApart<T>(xs: seq<T>)
    requires xs != []
    ensures multiset(xs) == multiset(xs[..|xs| - 1]) + multiset{xs[|xs| - 1]}
  {
    assert xs == xs[..|xs| - 1] + [xs[|xs| - 1]];
  }

  lemma {:induction false} InsertLastSorted<T(!new)>(xs: seq<T>, x: T, le: (T, T) -> bool)
    requires TotalPreorder(le) && Sorted(xs, le)
    ensures Sorted(InsertLast(xs, x, le), le)
    ensures forall i :: 0 <= i < |InsertLast(xs, x, le)| ==>
            InsertLast(xs, x, le)[i] == x || InsertLast(xs, x, le)[i] in xs
  {
    if !(xs == [] || le(xs[|xs| - 1], x)) {
      var n := |xs| - 1;
      InsertLastSorted(xs[..n], x, le);
      var r := InsertLast(xs[..n], x, le);
      assert le(x, xs[n]);
      forall i | 0 <= i < |r| ensures le(r[i], xs[n]) && (r[i] == x || r[i] in xs) {
        if r[i] != x {
          var k :| 0 <= k < n && xs[..n][k] == r[i];
          assert xs[k] == r[i];
        }
      }
    }
  }

  lemma {:induction false} SortSorted<T(!new)>(xs: seq<T>, le: (T, T) -> bool)
    requires TotalPreorder(le)
    ensures Sorted(Sort(xs, le), le)
    ensures multiset(Sort(xs, le)) == multiset(xs)
  {
    if xs != [] {
      var n := |xs| - 1;
      SortSorted(xs[..n], le);
      InsertLastSorted(Sort(xs[..n], le), xs[n], le);
      InsertLastPermutes(Sort(xs[..n], le), xs[n], le);
      assert xs == xs[..n] + [xs[n]];
    }
  }

  /** Sorting leaves a sorted list as it is. */
  lemma {:induction false} SortOfSorted<T>(xs: seq<T>, le: (T, T) -> bool)
    requires Sorted(xs, le)
    ensures Sort(xs, le) == xs
  {
    if xs != [] {
      SortOfSorted(xs[..|xs| - 1], le);
    }
  }

  lemma SortMembers<T(!new)>(xs: seq<T>, le: (T, T) -> bool)
    requires TotalPreorder(le)
    ensures forall x :: x in Sort(xs, le) <==> x in xs
  {
    SortSorted(xs, le);
    forall x ensures x in Sort(xs, le) <==> x in xs {
      assert x in multiset(Sort(xs, le)) <==> x in multiset(xs);
    }
  }

  lemma LastKeyIsNew<T(!new), K>(xs: seq<T>, key: T -> K, y: T)
    requires xs != [] && DistinctBy(xs, key) && y in xs[..|xs| - 1]
    ensures key(y) != key(xs[|xs| - 1])
  {
    var n := |xs| - 1;
    var k :| 0 <= k < n && xs[..n][k] == y;
    assert xs[k] == y;
  }

  lemma {:induction false} InsertLastDistinctBy<T(!new), K>(xs: seq<T>, x: T, le: (T, T) -> bool, key: T -> K)
    requires DistinctBy(xs, key) && forall y :: y in xs ==> key(y) != key(x)
    ensures DistinctBy(InsertLast(xs, x, le), key)
    ensures forall y :: y in InsertLast(xs, x, le) <==> y in xs || y == x
  {
    if !(xs == [] || le(xs[|xs| - 1], x)) {
      var n := |xs| - 1;
      assert xs == xs[..n] + [xs[n]] && xs[n] in xs;
      InsertLastDistinctBy(xs[..n], x, le, key);
      var r := InsertLast(xs[..n], x, le);
      forall i | 0 <= i < |r| ensures key(r[i]) != key(xs[n]) {
        assert r[i] in r;
        if r[i] != x {
          LastKeyIsNew(xs, key, r[i]);
        }
      }
    }
  }

  /** Sorting neither merges nor doubles anything. */
  lemma {:induction false} SortKeepsDistinctBy<T(!new), K>(xs: seq<T>, le: (T, T) -> bool, key: T -> K)
    requires DistinctBy(xs, key)
    ensures DistinctBy(Sort(xs, le), key)
    ensures forall y :: y in Sort(xs, le) <==> y in xs
  {
    if xs != [] {
      var n := |xs| - 1;
      SortKeepsDistinctBy(xs[..n], le, key);
      assert xs == xs[..n] + [xs[n]];
      forall y | y in Sort(xs[..n], le) ensures key(y) != key(xs[n]) {
        LastKeyIsNew(xs, key, y);
      }
      InsertLastDistinctBy(Sort(xs[..n], le), xs[n], le, key);
    }
  }

  // ----- sorted(set(...)) -----

  predicate StrictlyOrdered(xs: seq<string>) {
    forall i, j :: 0 <= i < j < |xs| ==> LexLe(xs[i], xs[j]) && xs[i] != xs[j]
  }

  function InsertName(xs: seq<string>, x: string): (r: seq<string>) {
    if xs == [] then [x]
    else if xs[0] == x then xs
    else if LexLe(x, xs[0]) then [x] + xs
    else [xs[0]] + InsertName(xs[1..], x)
  }

  function SortedSet(xs: seq<string>): (r: seq<string>) {
    if xs == [] then [] else InsertName(SortedSet(xs[1..]), xs[0])
  }

  lemma {:induction false} InsertNameOrdered(xs: seq<string>, x: string)
    requires StrictlyOrdered(xs)
    ensures forall y :: y in InsertName(xs, x) <==> y in xs || y == x
    ensures StrictlyOrdered(InsertName(xs, x))
  {
    if xs != [] {
      LexTotal(x, xs[0]);
      if xs[0] == x {
      } else if LexLe(x, xs[0]) {
        forall j | 0 <= j < |xs| ensures LexLe(x, xs[j]) && x != xs[j] {
          if j > 0 {
            LexTransitive(x, xs[0], xs[j]);
            if x == xs[j] { LexAntisymmetric(x, xs[0]); }
          }
        }
      } else {
        InsertNameOrdered(xs[1..], x);
        var r := InsertName(xs[1..], x);
        forall j | 0 <= j < |r| ensures LexLe(xs[0], r[j]) && xs[0] != r[j] {
          assert r[j] in r;
        }
      }
    }
  }

  lemma {:induction false} SortedSetOrdered(xs: seq<string>)
    ensures forall y :: y in SortedSet(xs) <==> y in xs
    ensures StrictlyOrdered(SortedSet(xs))
  {
    if xs != [] {
      SortedSetOrdered(xs[1..]);
      InsertNameOrdered(SortedSet(xs[1..]), xs[0]);
    }
  }
}
