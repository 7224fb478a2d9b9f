/** What the technique prior recommends, in terms of the groups and the observed techniques. */
module PriorResults {
  import opened Sorting
  import opened Rounding
  import opened Prior

  /** What the group and the observed techniques have in common. */
  ghost function Common(g: Group, observed: set<string>): set<string> {
    set t | t in g.techniques && t in observed
  }

  /** What only one of the two has. */
  ghost function Apart(g: Group, observed: set<string>): set<string> {
    (set t | t in g.techniques && t !in observed) + (set t | t in observed && t !in g.techniques)
  }

  /** The sizes of the two together. */
  ghost function BothSizes(g: Group, observed: set<string>): nat {
    |set t | t in g.techniques| + |observed|
  }

  /** What a group counts for a technique of its own: the two sizes over what is apart, and nothing if
      the two are the same. */
  ghost function Share(g: Group, observed: set<string>, t: string): real {
    if t in g.techniques && Apart(g, observed) != {} then
      BothSizes(g, observed) as real / |Apart(g, observed)| as real
    else 0.0
  }

  ghost function SumOfShares(near: seq<Group>, observed: set<string>, t: string): real {
    if near == [] then 0.0
    else
      var n := |near| - 1;
      SumOfShares(near[..n], observed, t) + Share(near[n], observed, t)
  }

  /** Twice what is common over the sizes; of equally near groups the one that is first by name. */
  ghost predicate IsNearer(a: Group, b: Group, observed: set<string>) {
    var x, y := |Common(a, observed)| * BothSizes(b, observed), |Common(b, observed)| * BothSizes(a, observed);
    x > y || (x == y && LexLe(a.name, b.name))
  }

  /** As many groups as allowed that have something in common, none of which is farther than one that
      is left out. */
  ghost predicate AreNearest(near: seq<Group>, groups: seq<Group>, observed: set<string>, limit: nat) {
    && |near| <= limit && multiset(near) <= multiset(groups)
    && (forall g :: g in near ==> Common(g, observed) != {})
    && forall g :: g in groups && Common(g, observed) != {} && multiset(near)[g] < multiset(groups)[g] ==>
         |near| == limit && forall h :: h in near ==> IsNearer(h, g, observed)
  }

  // ----- Similarity and weight -----

  lemma SetsOfGroup(g: Group, observed: set<string>)
    ensures observed * TechniqueSet(g) == Common(g, observed)
    ensures SymmetricDifference(observed, TechniqueSet(g)) == Apart(g, observed)
    ensures |observed| + |TechniqueSet(g)| == BothSizes(g, observed)
    ensures Common(g, observed) != {} ==> observed != {} && TechniqueSet(g) != {}
  {
    assert TechniqueSet(g) == set t | t in g.techniques;
    if Common(g, observed) != {} {
      var t :| t in Common(g, observed);
      assert t in TechniqueSet(g);
    }
  }

  lemma SimilarIff(g: Group, observed: set<string>)
    ensures SimilarityTo(observed, g) > 0.0 <==> Common(g, observed) != {}
  {
    SetsOfGroup(g, observed);
    if Common(g, observed) != {} {
      var n, m := (2 * |Common(g, observed)|) as real, BothSizes(g, observed) as real;
      assert |Common(g, observed)| > 0;
      assert (n / m) * m == n;
    }
  }

  lemma WeightIsShare(g: Group, observed: set<string>, t: string)
    requires Common(g, observed) != {}
    ensures WeightIn(Neighbour(SimilarityTo(observed, g), g), t) == Share(g, observed, t)
  {
    SetsOfGroup(g, observed);
    var a, b := observed, TechniqueSet(g);
    WeightOfGroup(a, b);
    assert !(a !! b);
    assert a == b <==> Apart(g, observed) == {} by {
      Sizes(a, b);
    }
  }

  lemma Crosswise(p: int, q: int, r: int, s: int)
    requires q > 0 && s > 0
    ensures (2 * p) as real / q as real > (2 * r) as real / s as real <==> p * s > r * q
    ensures (2 * p) as real / q as real == (2 * r) as real / s as real <==> p * s == r * q
  {
    var x, y := (2 * p) as real / q as real, (2 * r) as real / s as real;
    var d := q as real * s as real;
    assert x * q as real == (2 * p) as real && y * s as real == (2 * r) as real;
    assert d > 0.0;
    assert x * d == (2 * p) as real * s as real;
    assert y * d == (2 * r) as real * q as real;
    assert (x - y) * d == 2.0 * ((p * s) as real - (r * q) as real);
  }

  lemma NearerIff(a: Group, b: Group, observed: set<string>)
    requires Common(a, observed) != {} && Common(b, observed) != {}
    ensures Nearer(Neighbour(SimilarityTo(observed, a), a), Neighbour(SimilarityTo(observed, b), b)) <==>
            IsNearer(a, b, observed)
  {
    SetsOfGroup(a, observed);
    SetsOfGroup(b, observed);
    Crosswise(|Common(a, observed)|, BothSizes(a, observed), |Common(b, observed)|, BothSizes(b, observed));
  }

  // ----- The nearest groups -----

  function GroupsOf(ns: seq<Neighbour>): (r: seq<Group>)
    ensures |r| == |ns| && forall i :: 0 <= i < |r| ==> r[i] == ns[i].group
  {
    seq(|ns|, i requires 0 <= i < |ns| => ns[i].group)
  }

  ghost function NeighbourOf(g: Group, observed: set<string>): Neighbour {
    Neighbour(SimilarityTo(observed, g), g)
  }

  ghost predicate AllSimilar(ns: seq<Neighbour>, observed: set<string>) {
    forall n :: n in ns ==> n == NeighbourOf(n.group, observed) && Common(n.group, observed) != {}
  }

  lemma {:induction false} CountOfGroup(ns: seq<Neighbour>, observed: set<string>, g: Group)
    requires AllSimilar(ns, observed)
    ensures multiset(GroupsOf(ns))[g] == multiset(ns)[NeighbourOf(g, observed)]
  {
    if ns != [] {
      var n := |ns| - 1;
      CountOfGroup(ns[..n], observed, g);
      assert ns == ns[..n] + [ns[n]];
      assert GroupsOf(ns) == GroupsOf(ns[..n]) + [ns[n].group];
      assert ns[n] in ns;
    }
  }

  lemma {:induction false} CountOfSimilar(groups: seq<Group>, observed: set<string>, g: Group)
    ensures multiset(Similar(groups, observed))[NeighbourOf(g, observed)] ==
            if Common(g, observed) != {} then multiset(groups)[g] else 0
  {
    if groups != [] {
      var n := |groups| - 1;
      CountOfSimilar(groups[..n], observed, g);
      assert groups == groups[..n] + [groups[n]];
      SimilarIff(groups[n], observed);
    }
  }

  lemma SimilarAreSimilar(groups: seq<Group>, observed: set<string>)
    ensures AllSimilar(Similar(groups, observed), observed)
  {
    SimilarMembers(groups, observed);
    forall n | n in Similar(groups, observed) ensures Common(n.group, observed) != {} {
      SimilarIff(n.group, observed);
    }
  }

  /** What is sorted out stands behind what is taken. */
  lemma LeftOut(sorted: seq<Neighbour>, k: nat, x: Neighbour)
    requires Sorted(sorted, Nearer) && k <= |sorted| && multiset(sorted[..k])[x] < multiset(sorted)[x]
    ensures k < |sorted| && forall i :: 0 <= i < k ==> Nearer(sorted[i], x)
  {
    assert sorted == sorted[..k] + sorted[k..];
    assert x in multiset(sorted[k..]);
    var j :| 0 <= j < |sorted[k..]| && sorted[k..][j] == x;
    assert sorted[k + j] == x;
  }

  /** The neighbours are the first of the similar groups in their order. */
  lemma TakenAreFirst(groups: seq<Group>, observed: set<string>, topK: int) returns (sorted: seq<Neighbour>)
    ensures Sorted(sorted, Nearer) && multiset(sorted) == multiset(Similar(groups, observed))
    ensures AllSimilar(sorted, observed)
    ensures var ns := Neighbours(groups, observed, topK); var limit := if topK >= 1 then topK else 1;
      |ns| <= |sorted| && ns == sorted[..|ns|] && |ns| <= limit && (|ns| < |sorted| ==> |ns| == limit)
  {
    var similar := Similar(groups, observed);
    sorted := Sort(similar, Nearer);
    NearerIsTotalPreorder();
    SortSorted(similar, Nearer);
    SortMembers(similar, Nearer);
    SimilarAreSimilar(groups, observed);
  }

  lemma TakenAreNearest(groups: seq<Group>, observed: set<string>, topK: int)
    ensures var ns := Neighbours(groups, observed, topK);
      AllSimilar(ns, observed) && AreNearest(GroupsOf(ns), groups, observed, if topK >= 1 then topK else 1)
  {
    var ns := Neighbours(groups, observed, topK);
    var sorted := TakenAreFirst(groups, observed, topK);
    FirstAreNearest(groups, observed, sorted, |ns|, if topK >= 1 then topK else 1);
  }

  lemma FirstAreNearest(groups: seq<Group>, observed: set<string>, sorted: seq<Neighbour>, k: nat, limit: nat)
    requires Sorted(sorted, Nearer) && multiset(sorted) == multiset(Similar(groups, observed))
    requires AllSimilar(sorted, observed) && k <= |sorted| && k <= limit && (k < |sorted| ==> k == limit)
    ensures AllSimilar(sorted[..k], observed) && AreNearest(GroupsOf(sorted[..k]), groups, observed, limit)
  {
    var ns := sorted[..k];
    var near := GroupsOf(ns);
    assert forall n :: n in ns ==> n in sorted;
    forall g ensures multiset(near)[g] <= multiset(groups)[g] {
      TakenOfGroup(groups, observed, sorted, k, g);
    }
    forall i | 0 <= i < |near| ensures Common(near[i], observed) != {} {
      assert ns[i] in ns;
    }
    forall g | g in groups && Common(g, observed) != {} && multiset(near)[g] < multiset(groups)[g]
      ensures |near| == limit && forall h :: h in near ==> IsNearer(h, g, observed)
    {
      TakenOfGroup(groups, observed, sorted, k, g);
      LeftOut(sorted, k, NeighbourOf(g, observed));
      TakenAreNearer(ns, observed, g);
    }
  }

  lemma TakenOfGroup(groups: seq<Group>, observed: set<string>, sorted: seq<Neighbour>, k: nat, g: Group)
    requires k <= |sorted| && AllSimilar(sorted[..k], observed)
    requires multiset(sorted) == multiset(Similar(groups, observed))
    ensures var near := GroupsOf(sorted[..k]);
      && multiset(near)[g] == multiset(sorted[..k])[NeighbourOf(g, observed)] <= multiset(groups)[g]
      && (Common(g, observed) != {} ==> multiset(sorted)[NeighbourOf(g, observed)] == multiset(groups)[g])
  {
    CountOfGroup(sorted[..k], observed, g);
    CountOfSimilar(groups, observed, g);
    assert sorted == sorted[..k] + sorted[k..];
  }

  lemma TakenAreNearer(ns: seq<Neighbour>, observed: set<string>, g: Group)
    requires AllSimilar(ns, observed) && Common(g, observed) != {}
    requires forall i :: 0 <= i < |ns| ==> Nearer(ns[i], NeighbourOf(g, observed))
    ensures forall h :: h in GroupsOf(ns) ==> IsNearer(h, g, observed)
  {
    var near := GroupsOf(ns);
    forall h | h in near ensures IsNearer(h, g, observed) {
      var i :| 0 <= i < |near| && near[i] == h;
      assert ns[i] in ns;
      NearerIff(h, g, observed);
    }
  }

  lemma {:induction false} SupportIsSum(ns: seq<Neighbour>, observed: set<string>, t: string)
    requires AllSimilar(ns, observed)
    ensures Support(ns, t) == SumOfShares(GroupsOf(ns), observed, t)
  {
    if ns != [] {
      var n := |ns| - 1;
      SupportIsSum(ns[..n], observed, t);
      assert ns[n] in ns && GroupsOf(ns)[..n] == GroupsOf(ns[..n]);
      WeightIsShare(ns[n].group, observed, t);
    }
  }

  // ----- Recommendations -----

  /** What the nearest groups count for the technique, over the number of groups allowed. */
  ghost function Average(near: seq<Group>, observed: set<string>, limit: nat, t: string): real
    requires limit > 0
  {
    SumOfShares(near, observed, t) / limit as real
  }

  /** Main result: a technique is recommended exactly when it was not observed and what the nearest
      groups count for it, averaged over the groups allowed, is positive and reaches the threshold;
      with that average to six decimals, the strongest first and then by name. */
  lemma RecommendedIff(r: Recommendations, groups: seq<Group>, observed: set<string>, topK: int, threshold: real)
    returns (near: seq<Group>)
    requires IsRecommendation(r, Neighbours(groups, observed, topK), observed, topK, threshold)
    ensures var limit: nat := if topK >= 1 then topK else 1;
      && AreNearest(near, groups, observed, limit)
      && (forall t :: (exists i :: 0 <= i < |r| && r[i].0 == t) <==>
            var average := Average(near, observed, limit, t);
            t !in observed && average > 0.0 && average >= threshold)
      && forall i :: 0 <= i < |r| ==> -0.0000005 <= r[i].1 - Average(near, observed, limit, r[i].0) <= 0.0000005
    ensures forall i, j :: 0 <= i < j < |r| ==>
              r[i].0 != r[j].0 && (r[i].1 > r[j].1 || (r[i].1 == r[j].1 && LexLe(r[i].0, r[j].0)))
  {
    var ns := Neighbours(groups, observed, topK);
    var limit: nat := if topK >= 1 then topK else 1;
    TakenAreNearest(groups, observed, topK);
    near := GroupsOf(ns);
    forall t
      ensures (exists i :: 0 <= i < |r| && r[i].0 == t) <==>
              var average := Average(near, observed, limit, t);
              t !in observed && average > 0.0 && average >= threshold
    {
      SupportIsSum(ns, observed, t);
      IsListedIff(r, ns, observed, topK, threshold, t);
      PositiveQuotient(Support(ns, t), limit as real);
    }
    forall i | 0 <= i < |r| ensures -0.0000005 <= r[i].1 - Average(near, observed, limit, r[i].0) <= 0.0000005 {
      var (t, x) := r[i];
      SupportIsSum(ns, observed, t);
      assert (t, x) in r;
      assert x == Rounded(ns, topK, t);
      RoundIsNearest(Average(near, observed, limit, t), 0.0, 1000000.0);
    }
  }

  lemma IsListedIff(
      r: Recommendations, ns: seq<Neighbour>, observed: set<string>, topK: int, threshold: real, t: string)
    requires IsRecommendation(r, ns, observed, topK, threshold)
    ensures (exists i :: 0 <= i < |r| && r[i].0 == t) <==> Supported(ns, observed, topK, threshold, t)
  {
    if i :| 0 <= i < |r| && r[i].0 == t {
      var x := r[i].1;
      assert r[i] == (t, x) && (t, x) in r;
    }
    if Supported(ns, observed, topK, threshold, t) {
      var x := Rounded(ns, topK, t);
      assert (t, x) in r;
      var i :| 0 <= i < |r| && r[i] == (t, x);
      assert r[i].0 == t;
    }
  }

  lemma PositiveQuotient(x: real, k: real)
    requires k > 0.0
    ensures x / k > 0.0 <==> x > 0.0
  {
    assert (x / k) * k == x;
  }
}
