/** First-seen de-duplication, used wherever the honeynet must keep the order in which it
    learned things: unlocked assets, revealed configurations, processed evidence ids. */
module Iterables {

  ghost predicate Distinct<T>(xs: seq<T>) {
    forall i, j :: 0 <= i < j < |xs| ==> xs[i] != xs[j]
  }

  /** `acc` followed by those elements of `ys` that were not seen before, each once. */
  function AppendNew<T(==,!new)>(acc: seq<T>, ys: seq<T>): (r: seq<T>)
    ensures acc <= r
    ensures forall x :: x in r <==> x in acc || x in ys
    decreases ys
  {
    if ys == [] then acc
    else AppendNew(if ys[0] in acc then acc else acc + [ys[0]], ys[1..])
  }

  lemma {:induction false} AppendNewDistinct<T(!new)>(acc: seq<T>, ys: seq<T>)
    requires Distinct(acc)
    ensures Distinct(AppendNew(acc, ys))
    decreases ys
  {
    if ys != [] {
      AppendNewDistinct(if ys[0] in acc then acc else acc + [ys[0]], ys[1..]);
    }
  }

  /** Adding two batches one after the other is adding them as one batch. */
  lemma {:induction false} AppendNewSplit<T(!new)>(acc: seq<T>, ys: seq<T>, zs: seq<T>)
    ensures AppendNew(acc, ys + zs) == AppendNew(AppendNew(acc, ys), zs)
    decreases ys
  {
    if ys == [] {
      assert ys + zs == zs;
    } else {
      assert (ys + zs)[1..] == ys[1..] + zs;
      AppendNewSplit(if ys[0] in acc then acc else acc + [ys[0]], ys[1..], zs);
    }
  }

  /** The element order of the result is the order of first occurrence in the input. */
  ghost predicate FirstSeenOrder<T>(r: seq<T>, xs: seq<T>) {
    forall i, j :: 0 <= i < j < |r| ==> SeenBefore(xs, r[i], r[j])
  }

  /** Some position of `xs` holds `a`, and `b` has not occurred up to there. */
  ghost predicate SeenBefore<T>(xs: seq<T>, a: T, b: T) {
    exists p :: 0 <= p < |xs| && xs[p] == a && b !in xs[..p + 1]
  }

  lemma SeenBeforeExtends<T>(xs: seq<T>, y: T, a: T, b: T)
    requires a in xs
    requires b !in xs || SeenBefore(xs, a, b)
    ensures SeenBefore(xs + [y], a, b)
  {
    var p :| 0 <= p < |xs| && xs[p] == a && b !in xs[..p + 1];
    assert (xs + [y])[p] == a && (xs + [y])[..p + 1] == xs[..p + 1];
  }

  lemma FirstSeenStep<T>(seen: seq<T>, acc: seq<T>, y: T, acc': seq<T>, seen': seq<T>)
    requires FirstSeenOrder(acc, seen)
    requires forall i :: 0 <= i < |acc| ==> acc[i] in seen
    requires seen' == seen + [y]
    requires acc' == if y in seen then acc else acc + [y]
    ensures FirstSeenOrder(acc', seen')
  {
    forall i, j | 0 <= i < j < |acc'| ensures SeenBefore(seen', acc'[i], acc'[j]) {
      SeenBeforeExtends(seen, y, acc'[i], acc'[j]);
    }
  }

  function Dedupe<T(==,!new)>(xs: seq<T>): (r: seq<T>)
    ensures forall x :: x in r <==> x in xs
  {
    AppendNew([], xs)
  }

  lemma DedupeLast<T(!new)>(front: seq<T>, last: T)
    ensures Dedupe(front + [last]) == if last in front then Dedupe(front) else Dedupe(front) + [last]
  {
    AppendNewSplit([], front, [last]);
  }

  lemma {:induction false} DedupeIsFirstSeen<T(!new)>(xs: seq<T>)
    ensures FirstSeenOrder(Dedupe(xs), xs)
  {
    if xs != [] {
      var front, last := xs[..|xs| - 1], xs[|xs| - 1];
      assert front + [last] == xs;
      DedupeIsFirstSeen(front);
      DedupeLast(front, last);
      FirstSeenStep(front, Dedupe(front), last, Dedupe(xs), xs);
    }
  }

  method DedupePreserve<T(==,!new)>(values: seq<T>) returns (ordered: seq<T>)
    ensures ordered == Dedupe(values)
    ensures Distinct(ordered) && FirstSeenOrder(ordered, values)
    ensures forall x :: x in ordered <==> x in values
  {
    ordered := [];
    for i := 0 to |values|
      invariant ordered == Dedupe(values[..i])
    {
      assert values[..i + 1] == values[..i] + [values[i]];
      AppendNewSplit([], values[..i], [values[i]]);
      if values[i] !in ordered {
        ordered := ordered + [values[i]];
      }
    }
    assert values[..|values|] == values;
    AppendNewDistinct([], values);
    DedupeIsFirstSeen(values);
  }

  predicate HasKey<T, K(==)>(xs: seq<T>, key: T -> K, k: K) {
    exists i :: 0 <= i < |xs| && key(xs[i]) == k
  }

  /** De-duplication by a derived key keeps the first value of each key. */
  function DedupeBy<T, K(==)>(values: seq<T>, key: T -> K): (r: seq<T>)
  {
    if values == [] then []
    else
      var n := |values| - 1;
      var front := DedupeBy(values[..n], key);
      if HasKey(front, key, key(values[n])) then front else front + [values[n]]
  }

  ghost predicate DistinctBy<T, K>(xs: seq<T>, key: T -> K) {
    forall i, j :: 0 <= i < j < |xs| ==> key(xs[i]) != key(xs[j])
  }

  /** No key is lost, none is kept twice, and every kept value is one of the inputs. */
  lemma {:induction false} DedupeByKeys<T, K>(values: seq<T>, key: T -> K)
    ensures DistinctBy(DedupeBy(values, key), key)
    ensures forall x :: x in DedupeBy(values, key) ==> x in values
    ensures forall i :: 0 <= i < |values| ==> HasKey(DedupeBy(values, key), key, key(values[i]))
  {
    if values != [] {
      var n := |values| - 1;
      DedupeByKeys(values[..n], key);
      var front := DedupeBy(values[..n], key);
      var r := DedupeBy(values, key);
      forall i | 0 <= i < |values| ensures HasKey(r, key, key(values[i])) {
        if i < n {
          assert HasKey(front, key, key(values[..n][i]));
          var j :| 0 <= j < |front| && key(front[j]) == key(values[i]);
          assert key(r[j]) == key(values[i]);
        } else if !HasKey(front, key, key(values[n])) {
          assert key(r[|front|]) == key(values[n]);
        }
      }
    }
  }

  /** A kept value is the earliest one with its key. */
  lemma {:induction false} DedupeByKeepsFirst<T, K>(values: seq<T>, key: T -> K, i: nat)
    requires i < |values|
    requires forall j :: 0 <= j < i ==> key(values[j]) != key(values[i])
    ensures values[i] in DedupeBy(values, key)
  {
    var n := |values| - 1;
    if i < n {
      DedupeByKeepsFirst(values[..n], key, i);
    } else {
      DedupeByKeys(values[..n], key);
      var front := DedupeBy(values[..n], key);
      assert forall x :: x in values[..n] ==> key(x) != key(values[n]);
      assert forall j :: 0 <= j < |front| ==> front[j] in values[..n];
    }
  }

  method DedupePreserveBy<T, K(==)>(values: seq<T>, key: T -> K) returns (ordered: seq<T>)
    ensures ordered == DedupeBy(values, key)
  {
    var seen: set<K> := {};
    ordered := [];
    for i := 0 to |values|
      invariant ordered == DedupeBy(values[..i], key)
      invariant forall k :: k in seen <==> HasKey(ordered, key, k)
    {
      assert values[..i + 1][..i] == values[..i];
      assert DedupeBy(values[..i + 1], key)
          == if HasKey(ordered, key, key(values[i])) then ordered else ordered + [values[i]];
      var marker := key(values[i]);
      if marker in seen {
        continue;
      }
      ghost var before := ordered;
      seen := seen + {marker};
      ordered := ordered + [values[i]];
      forall k ensures k in seen <==> HasKey(ordered, key, k) {
        if k == marker {
          assert key(ordered[|before|]) == k;
        } else if HasKey(before, key, k) {
          var j :| 0 <= j < |before| && key(before[j]) == k;
          assert key(ordered[j]) == k;
        }
      }
    }
    assert values[..|values|] == values;
  }
}
