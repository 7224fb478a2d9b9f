/** The collaborative-filtering prior: techniques that similar ATT&CK groups use and that were not
    observed yet, weighted by how near the groups are. */
module Prior {
  import opened Iterables
  import opened Sorting
  import opened Rounding

  datatype Group = Group(name: string, techniques: seq<string>)

  datatype Neighbour = Neighbour(similarity: real, group: Group)

  function NonEmpty(names: seq<string>): (r: seq<string>)
    ensures forall x :: x in r <==> x in names && x != ""
  {
    if names == [] then [] else (if names[0] == "" then [] else [names[0]]) + NonEmpty(names[1..])
  }

  /** A group as it is loaded: names only, sorted, each once. */
  function Loaded(name: string, techniques: seq<string>): Group {
    Group(name, SortedSet(NonEmpty(techniques)))
  }

  ghost predicate Normal(g: Group) {
    Distinct(g.techniques) && "" !in g.techniques
  }

  lemma LoadedIsNormal(name: string, techniques: seq<string>)
    ensures Normal(Loaded(name, techniques))
    ensures forall x :: x in Loaded(name, techniques).techniques <==> x in techniques && x != ""
  {
    SortedSetOrdered(NonEmpty(techniques));
  }

  function TechniqueSet(g: Group): set<string> {
    set t | t in g.techniques
  }

  // ----- Similarity and weight -----

  function Dice(a: set<string>, b: set<string>): real {
    if a == {} || b == {} then 0.0 else (2 * |a * b|) as real / (|a| + |b|) as real
  }

  function Weight(similarity: real): real {
    if similarity <= 0.0 then 0.0
    else
      var distance := 1.0 - similarity;
      if distance <= 0.0 then 0.0 else 1.0 / distance
  }

  function SymmetricDifference(a: set<string>, b: set<string>): set<string> {
    (a - b) + (b - a)
  }

  lemma Sizes(a: set<string>, b: set<string>)
    ensures |SymmetricDifference(a, b)| == |a| + |b| - 2 * |a * b|
    ensures |a * b| <= |a| && |a * b| <= |b|
    ensures |a * b| == 0 <==> a !! b
    ensures |SymmetricDifference(a, b)| == 0 <==> a == b
  {
    assert a == (a - b) + (a * b);
    assert b == (b - a) + (a * b);
    assert (a - b) !! (b - a);
    if SymmetricDifference(a, b) == {} {
      forall x ensures x in a <==> x in b {
        assert x !in SymmetricDifference(a, b);
      }
      assert a == b;
    }
  }

  lemma Quotient(p: real, q: real)
    requires 0.0 < p < q
    ensures var w := 1.0 / (1.0 - p / q); w == q / (q - p) && 0.0 < p / q < 1.0
  {
    assert (p / q) * q == p;
    DividedDifference(q, p, q);
    assert q / q == 1.0 && (q - p) / q > 0.0;
    var d := 1.0 - p / q;
    assert d * q == q - p;
    assert (1.0 / d) * d == 1.0;
    assert (1.0 / d) * (q - p) == (1.0 / d) * d * q;
    assert 1.0 / d == q / (q - p);
  }

  lemma QuotientBounds(n: int, m: int)
    requires 0 < m < n
    ensures 1.0 < n as real / m as real <= n as real
  {
    var p, q := n as real, m as real;
    DividedDifference(p, q, q);
    assert q / q == 1.0 && (p - q) / q > 0.0;
    assert p <= p * q;
    DividedMonotone(p, p * q, q);
    assert (p * q) / q == p;
  }

  /** The weight of a group in terms of set sizes: all techniques over those that only one of the
      two has. It lies above one and at most at the number of all techniques; a group that matches
      exactly, and one that has nothing in common, weighs nothing. */
  lemma WeightOfGroup(a: set<string>, b: set<string>)
    requires a != {} && b != {}
    ensures var w := Weight(Dice(a, b));
      && (a !! b || a == b ==> w == 0.0)
      && (!(a !! b) && a != b ==>
            w == (|a| + |b|) as real / |SymmetricDifference(a, b)| as real && 1.0 < w <= (|a| + |b|) as real)
  {
    Sizes(a, b);
    var p, q := (2 * |a * b|) as real, (|a| + |b|) as real;
    if a == b {
      assert a * b == a;
      assert p / q == 1.0;
    } else if !(a !! b) {
      Quotient(p, q);
      QuotientBounds(|a| + |b|, |SymmetricDifference(a, b)|);
    }
  }

  // ----- Neighbours -----

  function SimilarityTo(observed: set<string>, g: Group): real {
    Dice(observed, TechniqueSet(g))
  }

  function Similar(groups: seq<Group>, observed: set<string>): seq<Neighbour> {
    if groups == [] then []
    else
      var n := |groups| - 1;
      var s := SimilarityTo(observed, groups[n]);
      Similar(groups[..n], observed) + if s > 0.0 then [Neighbour(s, groups[n])] else []
  }

  /** The more similar first, then by name. */
  predicate Nearer(a: Neighbour, b: Neighbour) {
    a.similarity > b.similarity || (a.similarity == b.similarity && LexLe(a.group.name, b.group.name))
  }

  lemma NearerIsTotalPreorder()
    ensures TotalPreorder(Nearer)
  {
    forall x: Neighbour, y: Neighbour ensures Nearer(x, y) || Nearer(y, x) {
      LexTotal(x.group.name, y.group.name);
    }
    forall x: Neighbour, y: Neighbour, z: Neighbour | Nearer(x, y) && Nearer(y, z) ensures Nearer(x, z) {
      if x.similarity == y.similarity == z.similarity {
        LexTransitive(x.group.name, y.group.name, z.group.name);
      }
    }
  }

  function AtLeastOne(topK: int): nat
    ensures AtLeastOne(topK) >= 1
  {
    if topK < 1 then 1 else topK
  }

  function Neighbours(groups: seq<Group>, observed: set<string>, topK: int): (r: seq<Neighbour>)
    ensures |r| <= AtLeastOne(topK)
  {
    var sorted := Sort(Similar(groups, observed), Nearer);
    if |sorted| <= AtLeastOne(topK) then sorted else sorted[..AtLeastOne(topK)]
  }

  lemma {:induction false} SimilarMembers(groups: seq<Group>, observed: set<string>)
    ensures forall n :: n in Similar(groups, observed) <==>
              n.group in groups && n.similarity == SimilarityTo(observed, n.group) && n.similarity > 0.0
  {
    if groups != [] {
      var n := |groups| - 1;
      SimilarMembers(groups[..n], observed);
      assert groups == groups[..n] + [groups[n]];
    }
  }

  lemma NeighboursAreSimilar(groups: seq<Group>, observed: set<string>, topK: int)
    ensures forall n :: n in Neighbours(groups, observed, topK) ==>
              n.group in groups && n.similarity == SimilarityTo(observed, n.group)
              && exists t :: t in observed && t in n.group.techniques
  {
    NearerIsTotalPreorder();
    SortMembers(Similar(groups, observed), Nearer);
    SimilarMembers(groups, observed);
    forall n | n in Neighbours(groups, observed, topK) ensures
      && n.group in groups && n.similarity == SimilarityTo(observed, n.group)
      && exists t :: t in observed && t in n.group.techniques
    {
      assert n in Sort(Similar(groups, observed), Nearer);
      CommonTechnique(observed, n.group);
    }
  }

  lemma CommonTechnique(observed: set<string>, g: Group)
    requires SimilarityTo(observed, g) > 0.0
    ensures exists t :: t in observed && t in g.techniques
  {
    var common := observed * TechniqueSet(g);
    assert common != {};
    var t :| t in common;
  }

  /** No group that was left out is nearer than one that was taken. */
  lemma NeighboursAreNearest(groups: seq<Group>, observed: set<string>, topK: int, taken: Neighbour, other: Group)
    requires taken in Neighbours(groups, observed, topK) && other in groups && SimilarityTo(observed, other) > 0.0
    requires Neighbour(SimilarityTo(observed, other), other) !in Neighbours(groups, observed, topK)
    ensures SimilarityTo(observed, other) <= taken.similarity
            && |Neighbours(groups, observed, topK)| == AtLeastOne(topK)
  {
    var sorted := Sort(Similar(groups, observed), Nearer);
    var left := Neighbour(SimilarityTo(observed, other), other);
    NearerIsTotalPreorder();
    SortSorted(Similar(groups, observed), Nearer);
    SortMembers(Similar(groups, observed), Nearer);
    SimilarMembers(groups, observed);
    assert left in sorted;
    var j :| 0 <= j < |sorted| && sorted[j] == left;
    var k := AtLeastOne(topK);
    assert forall m :: 0 <= m < k && m < |sorted| ==> sorted[m] in Neighbours(groups, observed, topK);
    var i :| 0 <= i < k && sorted[i] == taken;
    assert Nearer(sorted[i], sorted[j]);
  }

  // ----- Support -----

  function WeightIn(n: Neighbour, technique: string): real {
    var w := Weight(n.similarity);
    if w > 0.0 && technique in n.group.techniques then w else 0.0
  }

  /** The weights of the neighbours that use the technique, summed up. */
  function Support(neighbours: seq<Neighbour>, technique: string): real {
    if neighbours == [] then 0.0
    else
      var n := |neighbours| - 1;
      Support(neighbours[..n], technique) + WeightIn(neighbours[n], technique)
  }

  function LargestWeight(neighbours: seq<Neighbour>): real {
    if neighbours == [] then 0.0
    else
      var n := |neighbours| - 1;
      var before, w := LargestWeight(neighbours[..n]), Weight(neighbours[n].similarity);
      if w > before then w else before
  }

  lemma {:induction false} LargestIsLargest(neighbours: seq<Neighbour>)
    ensures 0.0 <= LargestWeight(neighbours)
    ensures forall n :: n in neighbours ==> Weight(n.similarity) <= LargestWeight(neighbours)
  {
    if neighbours != [] {
      var n := |neighbours| - 1;
      assert neighbours == neighbours[..n] + [neighbours[n]];
      LargestIsLargest(neighbours[..n]);
    }
  }

  lemma {:induction false} SupportIsBounded(neighbours: seq<Neighbour>, technique: string, w: real)
    requires 0.0 <= w && forall n :: n in neighbours ==> Weight(n.similarity) <= w
    ensures 0.0 <= Support(neighbours, technique) <= |neighbours| as real * w
  {
    if neighbours != [] {
      var n := |neighbours| - 1;
      assert neighbours[n] in neighbours;
      SupportIsBounded(neighbours[..n], technique, w);
      OneTermMore(Support(neighbours[..n], technique), WeightIn(neighbours[n], technique), n, w);
    }
  }

  lemma SupportWithinLargest(neighbours: seq<Neighbour>, technique: string)
    ensures 0.0 <= Support(neighbours, technique) <= |neighbours| as real * LargestWeight(neighbours)
    ensures 0.0 <= LargestWeight(neighbours)
  {
    LargestIsLargest(neighbours);
    SupportIsBounded(neighbours, technique, LargestWeight(neighbours));
  }

  lemma OneTermMore(sum: real, x: real, n: nat, w: real)
    requires 0.0 <= sum <= n as real * w && 0.0 <= x <= w
    ensures 0.0 <= sum + x <= (n + 1) as real * w
  {
  }

  lemma QuotientAtMost(sum: real, n: nat, k: nat, w: real)
    requires 0.0 <= sum <= n as real * w && n <= k && 1 <= k && 0.0 <= w
    ensures sum / k as real <= w
  {
    assert n as real * w <= k as real * w;
    DividedMonotone(sum, k as real * w, k as real);
    assert (k as real * w) / k as real == w;
  }

  /** The support of a technique never exceeds the weight of the nearest inexact neighbour. */
  lemma SupportIsAtMostLargestWeight(groups: seq<Group>, observed: set<string>, topK: int, technique: string)
    ensures var neighbours := Neighbours(groups, observed, topK);
      Support(neighbours, technique) / AtLeastOne(topK) as real <= LargestWeight(neighbours)
  {
    var neighbours := Neighbours(groups, observed, topK);
    SupportWithinLargest(neighbours, technique);
    QuotientAtMost(Support(neighbours, technique), |neighbours|, AtLeastOne(topK), LargestWeight(neighbours));
  }

  // ----- Recommendations -----

  type Recommendations = seq<(string, real)>

  predicate Supported(
      neighbours: seq<Neighbour>, observed: set<string>, topK: int, threshold: real, technique: string) {
    && technique !in observed && Support(neighbours, technique) > 0.0
    && Support(neighbours, technique) / AtLeastOne(topK) as real >= threshold
  }

  function Rounded(neighbours: seq<Neighbour>, topK: int, technique: string): real {
    RoundTo(Support(neighbours, technique) / AtLeastOne(topK) as real, 1000000.0)
  }

  function NameOf(x: (string, real)): string {
    x.0
  }

  predicate Stronger(a: (string, real), b: (string, real)) {
    a.1 > b.1 || (a.1 == b.1 && LexLe(a.0, b.0))
  }

  lemma StrongerIsTotalPreorder()
    ensures TotalPreorder(Stronger)
  {
    forall x: (string, real), y: (string, real) ensures Stronger(x, y) || Stronger(y, x) {
      LexTotal(x.0, y.0);
    }
    forall x: (string, real), y: (string, real), z: (string, real) | Stronger(x, y) && Stronger(y, z)
      ensures Stronger(x, z)
    {
      if x.1 == y.1 == z.1 {
        LexTransitive(x.0, y.0, z.0);
      }
    }
  }

  /** Exactly the unobserved techniques with enough support, each once with its support, the
      strongest first. */
  ghost predicate IsRecommendation(
      r: Recommendations, neighbours: seq<Neighbour>, observed: set<string>, topK: int, threshold: real)
  {
    && (forall t, x :: (t, x) in r <==>
          Supported(neighbours, observed, topK, threshold, t) && x == Rounded(neighbours, topK, t))
    && (forall i, j :: 0 <= i < j < |r| ==> r[i].0 != r[j].0 && Stronger(r[i], r[j]))
  }

  /** There is only one such list. */
  lemma {:induction false} SortedListsAgree(a: Recommendations, b: Recommendations)
    requires forall i, j :: 0 <= i < j < |a| ==> a[i].0 != a[j].0 && Stronger(a[i], a[j])
    requires forall i, j :: 0 <= i < j < |b| ==> b[i].0 != b[j].0 && Stronger(b[i], b[j])
    requires forall x :: x in a <==> x in b
    ensures a == b
  {
    assert |b| > 0 ==> b[0] in b;
    if a != [] {
      assert a[0] in b && b != [];
      assert b[0] in a;
      FirstsAgree(a, b);
      var a', b' := a[1..], b[1..];
      forall x ensures x in a' <==> x in b' {
        TailMembers(a, x);
        TailMembers(b, x);
      }
      SortedListsAgree(a', b');
      assert a == [a[0]] + a' && b == [b[0]] + b';
    }
  }

  lemma TailMembers(a: Recommendations, x: (string, real))
    requires a != [] && forall i, j :: 0 <= i < j < |a| ==> a[i].0 != a[j].0
    ensures x in a[1..] <==> x in a && x != a[0]
  {
    if x in a[1..] {
      var i :| 0 <= i < |a[1..]| && a[1..][i] == x;
      assert a[i + 1].0 != a[0].0;
    }
  }

  lemma FirstsAgree(a: Recommendations, b: Recommendations)
    requires a != [] && b != [] && a[0] in b && b[0] in a
    requires forall i, j :: 0 <= i < j < |a| ==> Stronger(a[i], a[j])
    requires forall i, j :: 0 <= i < j < |b| ==> Stronger(b[i], b[j])
    ensures a[0] == b[0]
  {
    var i :| 0 <= i < |a| && a[i] == b[0];
    var j :| 0 <= j < |b| && b[j] == a[0];
    if i > 0 && j > 0 {
      assert Stronger(a[0], b[0]) && Stronger(b[0], a[0]);
      LexAntisymmetric(a[0].0, b[0].0);
    }
  }

  /** Main result: what is recommended is a function of the neighbours; it names no observed
      technique and nothing weaker than the threshold. */
  method Recommend(groups: seq<Group>, given: set<string>, topK: int, threshold: real) returns (r: Recommendations)
    requires forall g :: g in groups ==> Normal(g)
    ensures var observed := given - {""};
      IsRecommendation(r, Neighbours(groups, observed, topK), observed, topK, threshold)
  {
    var observed := given - {""};
    if observed == {} || groups == [] {
      NothingSimilar(groups, observed, topK);
      return [];
    }
    var neighbours := NearestGroups(groups, observed, topK);
    NeighboursAreSimilar(groups, observed, topK);
    var scores := SumWeights(neighbours, observed);
    var denominator := AtLeastOne(topK) as real;
    var normalized: Recommendations := [];
    var rest := scores.Keys;
    while rest != {}
      invariant rest <= scores.Keys
      invariant forall t, x :: (t, x) in normalized <==>
        t in scores && t !in rest && scores[t] / denominator >= threshold
            && x == RoundTo(scores[t] / denominator, 1000000.0)
      invariant DistinctBy(normalized, NameOf)
      decreases rest
    {
      var t :| t in rest;
      rest := rest - {t};
      if scores[t] / denominator >= threshold {
        normalized := normalized + [(t, RoundTo(scores[t] / denominator, 1000000.0))];
      }
    }
    r := SortStrongest(normalized);
  }

  method SortStrongest(xs: Recommendations) returns (r: Recommendations)
    requires DistinctBy(xs, NameOf)
    ensures forall x :: x in r <==> x in xs
    ensures forall i, j :: 0 <= i < j < |r| ==> r[i].0 != r[j].0 && Stronger(r[i], r[j])
  {
    r := Sort(xs, Stronger);
    StrongerIsTotalPreorder();
    SortSorted(xs, Stronger);
    SortMembers(xs, Stronger);
    SortKeepsDistinctBy(xs, Stronger, NameOf);
    assert forall i :: 0 <= i < |r| ==> NameOf(r[i]) == r[i].0;
  }

  method NearestGroups(groups: seq<Group>, observed: set<string>, topK: int) returns (neighbours: seq<Neighbour>)
    ensures neighbours == Neighbours(groups, observed, topK)
  {
    var similar: seq<Neighbour> := [];
    for i := 0 to |groups|
      invariant similar == Similar(groups[..i], observed)
    {
      assert groups[..i + 1][..i] == groups[..i];
      var s := SimilarityTo(observed, groups[i]);
      if s > 0.0 {
        similar := similar + [Neighbour(s, groups[i])];
      }
    }
    assert groups[..|groups|] == groups;
    similar := Sort(similar, Nearer);
    neighbours := if |similar| <= AtLeastOne(topK) then similar else similar[..AtLeastOne(topK)];
  }

  /** Every neighbour adds its weight to each of its techniques that was not observed. */
  method SumWeights(neighbours: seq<Neighbour>, observed: set<string>) returns (scores: map<string, real>)
    requires forall n :: n in neighbours ==> Distinct(n.group.techniques)
    ensures forall t :: t in scores <==> t !in observed && Support(neighbours, t) > 0.0
    ensures forall t :: t in scores ==> scores[t] == Support(neighbours, t)
  {
    scores := map[];
    for i := 0 to |neighbours|
      invariant ScoresAre(scores, neighbours[..i], observed)
    {
      SupportStep(neighbours, i);
      var n := neighbours[i];
      var weight := Weight(n.similarity);
      if weight <= 0.0 {
        continue;
      }
      ghost var before := scores;
      var techniques := n.group.techniques;
      for j := 0 to |techniques|
        invariant forall t :: t in scores <==> t in before || (t in techniques[..j] && t !in observed)
        invariant forall t :: t in scores ==>
          scores[t] == (if t in before then before[t] else 0.0) + (if t in techniques[..j] then weight else 0.0)
      {
        var t := techniques[j];
        assert t !in techniques[..j];
        assert techniques[..j + 1] == techniques[..j] + [t];
        if t in observed {
          continue;
        }
        scores := scores[t := (if t in scores then scores[t] else 0.0) + weight];
      }
      assert techniques[..|techniques|] == techniques;
    }
    assert neighbours[..|neighbours|] == neighbours;
  }

  ghost predicate ScoresAre(scores: map<string, real>, neighbours: seq<Neighbour>, observed: set<string>) {
    && (forall t :: t in scores <==> t !in observed && Support(neighbours, t) > 0.0)
    && (forall t :: t in scores ==> scores[t] == Support(neighbours, t))
  }

  lemma SupportStep(neighbours: seq<Neighbour>, i: nat)
    requires i < |neighbours|
    ensures forall t :: Support(neighbours[..i + 1], t) == Support(neighbours[..i], t) + WeightIn(neighbours[i], t)
    ensures forall t :: Support(neighbours[..i], t) >= 0.0
  {
    assert neighbours[..i + 1][..i] == neighbours[..i];
    forall t ensures Support(neighbours[..i], t) >= 0.0 {
      SupportWithinLargest(neighbours[..i], t);
    }
  }

  lemma NothingSimilar(groups: seq<Group>, observed: set<string>, topK: int)
    requires observed == {} || groups == []
    ensures Neighbours(groups, observed, topK) == []
  {
    var r := Neighbours(groups, observed, topK);
    assert |r| > 0 ==> r[0] in r;
    NeighboursAreSimilar(groups, observed, topK);
  }

  // ----- What does not matter -----

  lemma {:induction false} SimilarSplit(a: seq<Group>, b: seq<Group>, observed: set<string>)
    ensures Similar(a + b, observed) == Similar(a, observed) + Similar(b, observed)
  {
    if b == [] {
      assert a + b == a;
    } else {
      var n := |b| - 1;
      SimilarSplit(a, b[..n], observed);
      assert (a + b)[..|a + b| - 1] == a + b[..n];
    }
  }

  /** A group that shares nothing with what was observed may be added anywhere. */
  lemma DisjointGroupChangesNothing(a: seq<Group>, g: Group, b: seq<Group>, observed: set<string>, topK: int)
    requires forall t :: t in g.techniques ==> t !in observed
    ensures Neighbours(a + [g] + b, observed, topK) == Neighbours(a + b, observed, topK)
  {
    assert observed * TechniqueSet(g) == {};
    assert Similar([g], observed) == [];
    SimilarSplit(a + [g], b, observed);
    SimilarSplit(a, [g], observed);
    SimilarSplit(a, b, observed);
    assert Similar(a + [g], observed) == Similar(a, observed);
    assert Similar(a + [g] + b, observed) == Similar(a + b, observed);
  }

  /** The recommendations are determined by the groups, the observed techniques and the limits. */
  lemma RecommendationIsUnique(
      r: Recommendations, other: Recommendations, neighbours: seq<Neighbour>, observed: set<string>, topK: int,
      threshold: real)
    requires IsRecommendation(r, neighbours, observed, topK, threshold)
    requires IsRecommendation(other, neighbours, observed, topK, threshold)
    ensures r == other
  {
    forall x ensures x in r <==> x in other {
      var (t, y) := x;
      assert (t, y) in r <==> Supported(neighbours, observed, topK, threshold, t) && y == Rounded(neighbours, topK, t);
      assert (t, y) in other <==>
             Supported(neighbours, observed, topK, threshold, t) && y == Rounded(neighbours, topK, t);
    }
    SortedListsAgree(r, other);
  }

  /** What is recommended is used by a neighbour and scores at most the largest neighbour weight. */
  lemma RecommendedAreEarned(
      r: Recommendations, groups: seq<Group>, observed: set<string>, topK: int, threshold: real, t: string, x: real)
    requires IsRecommendation(r, Neighbours(groups, observed, topK), observed, topK, threshold) && (t, x) in r
    ensures t !in observed
    ensures exists g :: g in groups && t in g.techniques && exists u :: u in observed && u in g.techniques
    ensures x <= RoundTo(LargestWeight(Neighbours(groups, observed, topK)), 1000000.0)
  {
    var neighbours := Neighbours(groups, observed, topK);
    SupportIsAtMostLargestWeight(groups, observed, topK, t);
    RoundIsNearest(Support(neighbours, t) / AtLeastOne(topK) as real, LargestWeight(neighbours), 1000000.0);
    NeighboursAreSimilar(groups, observed, topK);
    var n := SupporterOf(neighbours, t);
    assert n.group in groups;
  }

  lemma {:induction false} SupporterOf(neighbours: seq<Neighbour>, t: string) returns (n: Neighbour)
    requires Support(neighbours, t) > 0.0
    ensures n in neighbours && t in n.group.techniques
  {
    var last := |neighbours| - 1;
    if WeightIn(neighbours[last], t) > 0.0 {
      n := neighbours[last];
    } else {
      n := SupporterOf(neighbours[..last], t);
    }
  }
}
