/** How the profiler sums up evidence: repeated probes do not inflate a confidence, different ones
    stack. The curve that turns a sum into a confidence is a parameter. */
module Confidence {
  import opened Wrappers
  import opened Iterables
  import opened Rounding

  datatype Value = Text(text: string) | Texts(texts: seq<string>)

  datatype Evidence = Evidence(
    id: string, ts: int, technique: Option<string>, tactic: Option<string>, weight: real, success: bool,
    reason: string, source: map<string, Value>)

  // ----- Fingerprints -----

  datatype Fingerprint =
    | Parts(parts: seq<(string, Value)>)
    | ByReason(reason: string, success: bool)

  const FINGERPRINT_KEYS := [
    "source", "asset_id", "event_type", "falco_rule", "proc_cmdline", "proc_name", "fd_name", "http_surface",
    "http_method", "http_path", "http_query_string", "http_user_agent", "http_rule_names", "http_indicators",
    "opencanary_service", "opencanary_logtype", "opencanary_command", "opencanary_commands", "opencanary_repo",
    "high_interaction_source", "high_interaction_service", "high_interaction_event_type", "username", "password_seen"]

  function PartsOf(keys: seq<string>, source: map<string, Value>): (r: seq<(string, Value)>)
    ensures forall p :: p in r ==> p.0 in keys
  {
    if keys == [] then []
    else
      var n := |keys| - 1;
      PartsOf(keys[..n], source) + if keys[n] in source then [(keys[n], source[keys[n]])] else []
  }

  function FingerprintOf(keys: seq<string>, e: Evidence): Fingerprint {
    var parts := PartsOf(keys, e.source);
    if parts != [] then Parts(parts) else ByReason(e.reason, e.success)
  }

  predicate Agree(keys: seq<string>, a: map<string, Value>, b: map<string, Value>) {
    forall i :: 0 <= i < |keys| ==> (keys[i] in a <==> keys[i] in b) && (keys[i] in a ==> a[keys[i]] == b[keys[i]])
  }

  /** The last part says whether the last key is there. */
  lemma PartsEnd(keys: seq<string>, source: map<string, Value>)
    requires Distinct(keys) && keys != []
    ensures var n := |keys| - 1; var r := PartsOf(keys, source);
      if keys[n] in source then |r| > 0 && r[|r| - 1] == (keys[n], source[keys[n]])
          && r[..|r| - 1] == PartsOf(keys[..n], source)
      else r == PartsOf(keys[..n], source) && (|r| > 0 ==> r[|r| - 1].0 != keys[n])
  {
    var front := PartsOf(keys[..|keys| - 1], source);
    assert |front| > 0 ==> front[|front| - 1] in front;
  }

  lemma AgreeLast(keys: seq<string>, a: map<string, Value>, b: map<string, Value>)
    requires keys != []
    ensures var n := |keys| - 1; var k := keys[n];
      Agree(keys, a, b) <==> Agree(keys[..n], a, b) && (k in a <==> k in b) && (k in a ==> a[k] == b[k])
  {
    var n := |keys| - 1;
    assert forall i :: 0 <= i < n ==> keys[..n][i] == keys[i];
  }

  lemma {:induction false} PartsAgree(keys: seq<string>, a: map<string, Value>, b: map<string, Value>)
    requires Distinct(keys)
    ensures PartsOf(keys, a) == PartsOf(keys, b) <==> Agree(keys, a, b)
  {
    if keys != [] {
      PartsAgree(keys[..|keys| - 1], a, b);
      PartsEnd(keys, a);
      PartsEnd(keys, b);
      AgreeLast(keys, a, b);
    }
  }

  lemma {:induction false} PartsAreEmpty(keys: seq<string>, a: map<string, Value>)
    ensures PartsOf(keys, a) == [] <==> NonePresent(keys, a)
  {
    if keys != [] {
      var n := |keys| - 1;
      PartsAreEmpty(keys[..n], a);
      assert NonePresent(keys, a) <==> NonePresent(keys[..n], a) && keys[n] !in a by {
        assert forall i :: 0 <= i < n ==> keys[..n][i] == keys[i];
      }
    }
  }

  predicate NonePresent(keys: seq<string>, source: map<string, Value>) {
    forall i :: 0 <= i < |keys| ==> keys[i] !in source
  }

  /** Two pieces of evidence count as the same exactly when they agree on everything a fingerprint
      looks at; reason and success matter only when there is nothing to look at. */
  lemma SameFingerprintIff(keys: seq<string>, a: Evidence, b: Evidence)
    requires Distinct(keys)
    ensures FingerprintOf(keys, a) == FingerprintOf(keys, b) <==>
      && Agree(keys, a.source, b.source)
      && (NonePresent(keys, a.source) ==> a.reason == b.reason && a.success == b.success)
  {
    PartsAgree(keys, a.source, b.source);
    PartsAreEmpty(keys, a.source);
    PartsAreEmpty(keys, b.source);
  }

  /** In particular for the keys that the profiler uses. */
  lemma SameFingerprint(a: Evidence, b: Evidence)
    ensures FingerprintOf(FINGERPRINT_KEYS, a) == FingerprintOf(FINGERPRINT_KEYS, b) <==>
      && Agree(FINGERPRINT_KEYS, a.source, b.source)
      && (NonePresent(FINGERPRINT_KEYS, a.source) ==> a.reason == b.reason && a.success == b.success)
  {
    FingerprintKeysAreDistinct();
    SameFingerprintIff(FINGERPRINT_KEYS, a, b);
  }

  lemma FingerprintKeysAreDistinct()
    ensures Distinct(FINGERPRINT_KEYS)
  {
  }

  /** What counts of a piece of evidence. */
  datatype Item = Item(mark: Fingerprint, weight: real)

  function ItemOf(keys: seq<string>, e: Evidence): Item {
    Item(FingerprintOf(keys, e), e.weight)
  }

  // ----- The score of a group of evidence -----

  /** The largest weight of a fingerprint, zero when it does not occur. */
  function BestWeight(items: seq<Item>, f: Fingerprint): (r: real)
    ensures r >= 0.0
    ensures forall e :: e in items && e.mark == f ==> e.weight <= r
  {
    if items == [] then 0.0
    else
      var n := |items| - 1;
      assert items == items[..n] + [items[n]];
      var before := BestWeight(items[..n], f);
      if items[n].mark == f && items[n].weight > before then items[n].weight else before
  }

  function Fingerprints(items: seq<Item>): seq<Fingerprint> {
    if items == [] then [] else Fingerprints(items[..|items| - 1]) + [items[|items| - 1].mark]
  }

  function Total(fs: seq<Fingerprint>, items: seq<Item>): real {
    if fs == [] then 0.0
    else
      var n := |fs| - 1;
      Total(fs[..n], items) + BestWeight(items, fs[n])
  }

  /** Over the different fingerprints, the sum of their largest weights. */
  function Score(items: seq<Item>): real {
    Total(Dedupe(Fingerprints(items)), items)
  }

  lemma {:induction false} FingerprintsMembers(items: seq<Item>, f: Fingerprint)
    ensures f in Fingerprints(items) <==> exists e :: e in items && e.mark == f
  {
    if items != [] {
      var n := |items| - 1;
      FingerprintsMembers(items[..n], f);
      assert items == items[..n] + [items[n]];
    }
  }

  lemma {:induction false} BestWeightIsReached(items: seq<Item>, f: Fingerprint)
    ensures BestWeight(items, f) == 0.0 || exists e :: e in items && e.mark == f && e.weight == BestWeight(items, f)
  {
    if items != [] {
      var n := |items| - 1;
      BestWeightIsReached(items[..n], f);
      assert items == items[..n] + [items[n]];
    }
  }

  lemma {:induction false} TotalSplit(a: seq<Fingerprint>, b: seq<Fingerprint>, items: seq<Item>)
    ensures Total(a + b, items) == Total(a, items) + Total(b, items)
  {
    if b == [] {
      assert a + b == a;
    } else {
      var n := |b| - 1;
      TotalSplit(a, b[..n], items);
      assert (a + b)[..|a + b| - 1] == a + b[..n];
    }
  }

  lemma WithoutOne(fs: seq<Fingerprint>, k: nat, f: Fingerprint)
    requires Distinct(fs) && k < |fs|
    ensures f in fs[..k] + fs[k + 1..] <==> f in fs && f != fs[k]
  {
    var rest := fs[..k] + fs[k + 1..];
    if f in fs && f != fs[k] {
      var i :| 0 <= i < |fs| && fs[i] == f;
      assert rest[if i < k then i else i - 1] == f;
    }
    if f in rest {
      var i :| 0 <= i < |rest| && rest[i] == f;
      assert f == fs[if i < k then i else i + 1];
    }
  }

  lemma TotalWithoutOne(fs: seq<Fingerprint>, k: nat, items: seq<Item>)
    requires k < |fs|
    ensures Total(fs, items) == Total(fs[..k] + fs[k + 1..], items) + BestWeight(items, fs[k])
  {
    assert fs == fs[..k] + ([fs[k]] + fs[k + 1..]);
    TotalSplit(fs[..k], [fs[k]] + fs[k + 1..], items);
    TotalSplit([fs[k]], fs[k + 1..], items);
    TotalSplit(fs[..k], fs[k + 1..], items);
    assert Total([fs[k]], items) == BestWeight(items, fs[k]) by {
      assert [fs[k]][..0] == [];
    }
  }

  /** A sum over distinct fingerprints depends on which they are, not on their order. */
  lemma {:induction false} TotalPermuted(a: seq<Fingerprint>, b: seq<Fingerprint>, items: seq<Item>)
    requires Distinct(a) && Distinct(b) && forall f :: f in a <==> f in b
    ensures Total(a, items) == Total(b, items)
    decreases |a|
  {
    assert |b| > 0 ==> b[0] in b;
    if a != [] {
      assert a[0] in a;
      var k :| 0 <= k < |b| && b[k] == a[0];
      var rest, rest' := a[..0] + a[1..], b[..k] + b[k + 1..];
      TotalWithoutOne(a, 0, items);
      TotalWithoutOne(b, k, items);
      forall f ensures f in rest <==> f in rest' {
        WithoutOne(a, 0, f);
        WithoutOne(b, k, f);
      }
      StillDistinct(a, 0);
      StillDistinct(b, k);
      TotalPermuted(rest, rest', items);
    }
  }

  lemma StillDistinct(fs: seq<Fingerprint>, k: nat)
    requires Distinct(fs) && k < |fs|
    ensures Distinct(fs[..k] + fs[k + 1..])
  {
  }

  lemma {:induction false} TotalSame(fs: seq<Fingerprint>, a: seq<Item>, b: seq<Item>)
    requires forall f :: f in fs ==> BestWeight(a, f) == BestWeight(b, f)
    ensures Total(fs, a) == Total(fs, b)
  {
    if fs != [] {
      var n := |fs| - 1;
      assert fs == fs[..n] + [fs[n]];
      TotalSame(fs[..n], a, b);
    }
  }

  lemma SameBest(a: seq<Item>, b: seq<Item>, f: Fingerprint)
    requires forall e :: e in a <==> e in b
    ensures BestWeight(a, f) == BestWeight(b, f)
  {
    BestWeightIsReached(a, f);
    BestWeightIsReached(b, f);
  }

  /** Main result: the score depends only on which evidence there is, not on its order or on how
      often it is repeated. */
  lemma ScoreDependsOnEvidenceOnly(a: seq<Item>, b: seq<Item>)
    requires forall e :: e in a <==> e in b
    ensures Score(a) == Score(b)
  {
    var fa, fb := Dedupe(Fingerprints(a)), Dedupe(Fingerprints(b));
    AppendNewDistinct([], Fingerprints(a));
    AppendNewDistinct([], Fingerprints(b));
    forall f ensures f in fa <==> f in fb {
      FingerprintsMembers(a, f);
      FingerprintsMembers(b, f);
    }
    TotalPermuted(fa, fb, a);
    forall f | f in fb ensures BestWeight(a, f) == BestWeight(b, f) {
      SameBest(a, b, f);
    }
    TotalSame(fb, a, b);
  }

  /** One more piece of evidence adds exactly what it surpasses the best of its fingerprint by: its
      whole weight when the fingerprint is new, nothing when it is no stronger than before. */
  lemma ScoreGrowsByExcess(items: seq<Item>, e: Item)
    ensures var best := BestWeight(items, e.mark);
      Score(items + [e]) == Score(items) + if e.weight > best then e.weight - best else 0.0
    ensures (forall x :: x in items ==> x.mark != e.mark) ==> BestWeight(items, e.mark) == 0.0
  {
    var f, longer := e.mark, items + [e];
    var before := Dedupe(Fingerprints(items));
    assert longer[..|items|] == items;
    DedupeLast(Fingerprints(items), f);
    BestWeightIsReached(items, f);
    AppendNewDistinct([], Fingerprints(items));
    OthersKeepBest(items, e);
    if f in before {
      var k :| 0 <= k < |before| && before[k] == f;
      TotalChanged(before, items, longer, k);
    } else {
      FingerprintsMembers(items, f);
      assert BestWeight(items, f) == 0.0;
      assert (before + [f])[..|before|] == before;
      TotalSame(before, items, longer);
    }
  }

  lemma OthersKeepBest(items: seq<Item>, e: Item)
    ensures forall g :: g != e.mark ==> BestWeight(items + [e], g) == BestWeight(items, g)
    ensures var best := BestWeight(items, e.mark);
      BestWeight(items + [e], e.mark) == if e.weight > best then e.weight else best
  {
    assert (items + [e])[..|items|] == items;
  }

  lemma {:induction false} TotalChanged(fs: seq<Fingerprint>, a: seq<Item>, b: seq<Item>, k: nat)
    requires Distinct(fs) && k < |fs|
    requires forall g :: g != fs[k] ==> BestWeight(a, g) == BestWeight(b, g)
    ensures Total(fs, b) - Total(fs, a) == BestWeight(b, fs[k]) - BestWeight(a, fs[k])
  {
    var n := |fs| - 1;
    if k < n {
      TotalChanged(fs[..n], a, b, k);
    } else {
      TotalSame(fs[..n], a, b);
    }
  }

  // ----- One dimension: tactics or techniques -----

  type Scores = seq<(string, real)>

  /** A piece of evidence for a tactic or a technique. */
  datatype Keyed = Keyed(key: string, item: Item)

  function ByTechnique(fields: seq<string>, evidence: seq<Evidence>): (r: seq<Keyed>) {
    if evidence == [] then []
    else
      var n := |evidence| - 1;
      ByTechnique(fields, evidence[..n]) +
      if evidence[n].technique.Some? then [Keyed(evidence[n].technique.value, ItemOf(fields, evidence[n]))] else []
  }

  function ByTactic(fields: seq<string>, evidence: seq<Evidence>): (r: seq<Keyed>) {
    if evidence == [] then []
    else
      var n := |evidence| - 1;
      ByTactic(fields, evidence[..n]) +
      if evidence[n].tactic.Some? then [Keyed(evidence[n].tactic.value, ItemOf(fields, evidence[n]))] else []
  }

  function ItemsOf(xs: seq<Keyed>, k: string): seq<Item> {
    if xs == [] then []
    else
      var n := |xs| - 1;
      ItemsOf(xs[..n], k) + if xs[n].key == k then [xs[n].item] else []
  }

  function KeysOf(xs: seq<Keyed>): seq<string> {
    if xs == [] then [] else KeysOf(xs[..|xs| - 1]) + [xs[|xs| - 1].key]
  }

  function ConfidenceOf(items: seq<Item>, saturate: real -> real): real {
    RoundTo(saturate(Score(items)), 10000.0)
  }

  /** The confidence of every key, in the order in which the keys occur first. */
  function Summary(xs: seq<Keyed>, saturate: real -> real): (r: Scores)
    ensures var keys := Dedupe(KeysOf(xs));
      |r| == |keys| && forall i :: 0 <= i < |r| ==> r[i] == Entry(xs, keys[i], saturate)
  {
    var keys := Dedupe(KeysOf(xs));
    seq(|keys|, i requires 0 <= i < |keys| => Entry(xs, keys[i], saturate))
  }

  function Entry(xs: seq<Keyed>, k: string, saturate: real -> real): (string, real) {
    (k, ConfidenceOf(ItemsOf(xs, k), saturate))
  }

  lemma {:induction false} ItemsMembers(xs: seq<Keyed>, k: string)
    ensures forall x :: x in ItemsOf(xs, k) <==> Keyed(k, x) in xs
  {
    if xs != [] {
      var n := |xs| - 1;
      ItemsMembers(xs[..n], k);
      assert xs == xs[..n] + [xs[n]];
    }
  }

  lemma {:induction false} TechniqueKeys(fields: seq<string>, evidence: seq<Evidence>, t: string)
    ensures t in KeysOf(ByTechnique(fields, evidence)) <==> exists e :: e in evidence && e.technique == Some(t)
  {
    if evidence != [] {
      var n := |evidence| - 1;
      TechniqueKeys(fields, evidence[..n], t);
      assert evidence == evidence[..n] + [evidence[n]];
      var front := ByTechnique(fields, evidence[..n]);
      if evidence[n].technique.Some? {
        assert (front + [Keyed(evidence[n].technique.value, ItemOf(fields, evidence[n]))])[..|front|] == front;
      } else {
        assert ByTechnique(fields, evidence) == front;
      }
    }
  }

  /** Reordering or repeating evidence changes no confidence. */
  lemma ConfidenceIgnoresOrder(a: seq<Keyed>, b: seq<Keyed>, k: string, saturate: real -> real)
    requires forall x :: x in a <==> x in b
    ensures ConfidenceOf(ItemsOf(a, k), saturate) == ConfidenceOf(ItemsOf(b, k), saturate)
  {
    ItemsMembers(a, k);
    ItemsMembers(b, k);
    ScoreDependsOnEvidenceOnly(ItemsOf(a, k), ItemsOf(b, k));
  }

  /** So the summary of all keys has the same entries, whatever the order of the evidence. */
  lemma SummaryIgnoresOrder(a: seq<Keyed>, b: seq<Keyed>, saturate: real -> real)
    requires forall x :: x in a <==> x in b
    ensures forall entry :: entry in Summary(a, saturate) <==> entry in Summary(b, saturate)
    ensures |Summary(a, saturate)| == |Summary(b, saturate)|
  {
    SummaryKept(a, b, saturate);
    SummaryKept(b, a, saturate);
    AppendNewDistinct([], KeysOf(a));
    AppendNewDistinct([], KeysOf(b));
    SameKeys(a, b);
    SameKeys(b, a);
    NoMoreThan(Dedupe(KeysOf(a)), Dedupe(KeysOf(b)));
    NoMoreThan(Dedupe(KeysOf(b)), Dedupe(KeysOf(a)));
  }

  lemma {:induction false} KeysMembers(xs: seq<Keyed>, k: string)
    ensures k in KeysOf(xs) <==> exists x :: x in xs && x.key == k
  {
    if xs != [] {
      var n := |xs| - 1;
      KeysMembers(xs[..n], k);
      assert xs == xs[..n] + [xs[n]];
    }
  }

  lemma SameKeys(a: seq<Keyed>, b: seq<Keyed>)
    requires forall x :: x in a ==> x in b
    ensures forall k :: k in KeysOf(a) ==> k in KeysOf(b)
  {
    forall k | k in KeysOf(a) ensures k in KeysOf(b) {
      KeysMembers(a, k);
      KeysMembers(b, k);
    }
  }

  lemma NoMoreThan(a: seq<string>, b: seq<string>)
    requires Distinct(a) && forall k :: k in a ==> k in b
    ensures |a| <= |b|
    decreases |a|
  {
    if a != [] {
      var k := a[|a| - 1];
      assert k in a;
      var i :| 0 <= i < |b| && b[i] == k;
      var rest := b[..i] + b[i + 1..];
      forall x | x in a[..|a| - 1] ensures x in rest {
        var m :| 0 <= m < |a| - 1 && a[m] == x;
        assert x in a && x != k;
        var j :| 0 <= j < |b| && b[j] == x;
        assert rest[if j < i then j else j - 1] == x;
      }
      NoMoreThan(a[..|a| - 1], rest);
    }
  }

  lemma SummaryKept(a: seq<Keyed>, b: seq<Keyed>, saturate: real -> real)
    requires forall x :: x in a <==> x in b
    ensures forall entry :: entry in Summary(a, saturate) ==> entry in Summary(b, saturate)
  {
    SameKeys(a, b);
    forall entry | entry in Summary(a, saturate) ensures entry in Summary(b, saturate) {
      var i :| 0 <= i < |Summary(a, saturate)| && Summary(a, saturate)[i] == entry;
      var k := Dedupe(KeysOf(a))[i];
      assert k in Dedupe(KeysOf(a));
      ConfidenceIgnoresOrder(a, b, k, saturate);
      assert k in Dedupe(KeysOf(b));
      var j :| 0 <= j < |Dedupe(KeysOf(b))| && Dedupe(KeysOf(b))[j] == k;
      assert Summary(b, saturate)[j] == Entry(b, k, saturate) == Entry(a, k, saturate);
    }
  }

  ghost predicate Increasing(f: real -> real) {
    forall x, y :: x < y ==> f(x) < f(y)
  }

  /** More evidence never lowers a confidence. */
  lemma MoreEvidenceNeverLowers(items: seq<Item>, e: Item, saturate: real -> real)
    requires Increasing(saturate)
    ensures ConfidenceOf(items, saturate) <= ConfidenceOf(items + [e], saturate)
  {
    ScoreGrowsByExcess(items, e);
    RoundIsNearest(saturate(Score(items)), saturate(Score(items + [e])), 10000.0);
  }

  /** The evidence sorted by key. */
  ghost predicate GroupedIs(grouped: map<string, seq<Item>>, xs: seq<Keyed>) {
    && (forall k :: k in grouped <==> k in KeysOf(xs))
    && (forall k :: k in grouped ==> grouped[k] == ItemsOf(xs, k))
    && (forall k :: k !in grouped ==> ItemsOf(xs, k) == [])
  }

  lemma GroupedStep(grouped: map<string, seq<Item>>, xs: seq<Keyed>, i: nat)
    requires i < |xs| && GroupedIs(grouped, xs[..i])
    ensures var k := xs[i].key;
      var before := if k in grouped then grouped[k] else [];
      GroupedIs(grouped[k := before + [xs[i].item]], xs[..i + 1])
  {
    assert xs[..i + 1][..i] == xs[..i];
    forall k ensures ItemsOf(xs[..i + 1], k) == ItemsOf(xs[..i], k) + if xs[i].key == k then [xs[i].item] else [] {
    }
  }

  method GroupByKey(xs: seq<Keyed>) returns (grouped: map<string, seq<Item>>, order: seq<string>)
    ensures order == Dedupe(KeysOf(xs)) && GroupedIs(grouped, xs)
  {
    grouped, order := map[], [];
    for i := 0 to |xs|
      invariant order == Dedupe(KeysOf(xs[..i]))
      invariant GroupedIs(grouped, xs[..i])
    {
      GroupedStep(grouped, xs, i);
      assert xs[..i + 1][..i] == xs[..i];
      DedupeLast(KeysOf(xs[..i]), xs[i].key);
      var k := xs[i].key;
      var before := if k in grouped then grouped[k] else [];
      if k !in grouped {
        order := order + [k];
      }
      grouped := grouped[k := before + [xs[i].item]];
    }
    assert xs[..|xs|] == xs;
  }

  method SummarizeDimension(xs: seq<Keyed>, saturate: real -> real) returns (confidences: Scores)
    ensures confidences == Summary(xs, saturate)
  {
    var grouped, order := GroupByKey(xs);
    forall i | 0 <= i < |order| ensures order[i] in grouped && grouped[order[i]] == ItemsOf(xs, order[i]) {
      assert order[i] in order;
    }
    confidences := ConfidencesOf(grouped, order, xs, saturate);
  }

  method ConfidencesOf(
      grouped: map<string, seq<Item>>, order: seq<string>, ghost xs: seq<Keyed>, saturate: real -> real)
    returns (confidences: Scores)
    requires forall i :: 0 <= i < |order| ==> order[i] in grouped && grouped[order[i]] == ItemsOf(xs, order[i])
    ensures |confidences| == |order|
    ensures forall i :: 0 <= i < |order| ==> confidences[i] == Entry(xs, order[i], saturate)
  {
    confidences := [];
    for i := 0 to |order|
      invariant |confidences| == i
      invariant forall j :: 0 <= j < i ==> confidences[j] == Entry(xs, order[j], saturate)
    {
      var c := ConfidenceFrom(grouped[order[i]], saturate);
      confidences := confidences + [(order[i], c)];
    }
  }

  method ConfidenceFrom(items: seq<Item>, saturate: real -> real) returns (c: real)
    ensures c == ConfidenceOf(items, saturate)
  {
    var score := SumOfBest(items);
    c := RoundTo(saturate(score), 10000.0);
  }

  /** What the table of largest weights holds after some of the items. */
  ghost predicate TableIs(weights: map<Fingerprint, real>, items: seq<Item>) {
    && (forall f :: f in weights <==> f in Fingerprints(items))
    && (forall f :: f in weights ==> weights[f] == BestWeight(items, f))
    && (forall f :: f !in weights ==> BestWeight(items, f) == 0.0)
  }

  lemma TableStep(weights: map<Fingerprint, real>, items: seq<Item>, i: nat)
    requires i < |items| && TableIs(weights, items[..i])
    ensures var f := items[i].mark;
      var before := if f in weights then weights[f] else 0.0;
      TableIs(weights[f := if items[i].weight > before then items[i].weight else before], items[..i + 1])
  {
    assert items[..i + 1][..i] == items[..i];
  }

  method SumOfBest(items: seq<Item>) returns (score: real)
    ensures score == Score(items)
  {
    var weights: map<Fingerprint, real> := map[];
    var order: seq<Fingerprint> := [];
    for i := 0 to |items|
      invariant order == Dedupe(Fingerprints(items[..i]))
      invariant TableIs(weights, items[..i])
    {
      assert items[..i + 1][..i] == items[..i];
      DedupeLast(Fingerprints(items[..i]), items[i].mark);
      TableStep(weights, items, i);
      var f := items[i].mark;
      var before := if f in weights then weights[f] else 0.0;
      if f !in weights {
        order := order + [f];
      }
      weights := weights[f := if items[i].weight > before then items[i].weight else before];
    }
    assert items[..|items|] == items;
    score := 0.0;
    for i := 0 to |order|
      invariant score == Total(order[..i], items)
    {
      assert order[..i + 1][..i] == order[..i];
      assert order[i] in order;
      score := score + weights[order[i]];
    }
    assert order[..|order|] == order;
  }
}
