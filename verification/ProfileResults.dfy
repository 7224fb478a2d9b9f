/** What a rebuilt profile says about the stored evidence, in terms of the evidence itself: which of it
    counts, what counts as the same, and what the confidences are. */
module ProfileResults {
  import opened Wrappers
  import opened Iterables
  import opened Sorting
  import opened Rounding
  import opened Confidence
  import opened Profiler

  // ----- What counts as the same -----

  /** The fields of an event that tell two pieces of evidence apart. */
  ghost predicate Tells(key: string) {
    || key in ["source", "asset_id", "event_type", "falco_rule", "proc_cmdline", "proc_name", "fd_name"]
    || key in ["http_surface", "http_method", "http_path", "http_query_string", "http_user_agent"]
    || key in ["http_rule_names", "http_indicators", "opencanary_service", "opencanary_logtype"]
    || key in ["opencanary_command", "opencanary_commands", "opencanary_repo", "high_interaction_source"]
    || key in ["high_interaction_service", "high_interaction_event_type", "username", "password_seen"]
  }

  /** They have the same of these fields with the same values, and if they have none of them, the same
      reason and success. */
  ghost predicate SameMark(a: Evidence, b: Evidence) {
    && (forall k :: Tells(k) ==> (k in a.source <==> k in b.source))
    && (forall k :: Tells(k) && k in a.source && k in b.source ==> a.source[k] == b.source[k])
    && ((forall k :: Tells(k) ==> k !in a.source) ==> a.reason == b.reason && a.success == b.success)
  }

  lemma KeysTell(k: string)
    ensures k in FINGERPRINT_KEYS <==> Tells(k)
  {
  }

  lemma SameMarkIff(a: Evidence, b: Evidence)
    ensures FingerprintOf(FINGERPRINT_KEYS, a) == FingerprintOf(FINGERPRINT_KEYS, b) <==> SameMark(a, b)
  {
    SameFingerprint(a, b);
    forall k ensures k in FINGERPRINT_KEYS <==> Tells(k) {
      KeysTell(k);
    }
    AgreeIff(FINGERPRINT_KEYS, a.source, b.source);
    assert NonePresent(FINGERPRINT_KEYS, a.source) <==> forall k :: k in FINGERPRINT_KEYS ==> k !in a.source;
  }

  lemma AgreeIff(keys: seq<string>, a: map<string, Value>, b: map<string, Value>)
    ensures Agree(keys, a, b) <==>
            (forall k :: k in keys ==> (k in a <==> k in b))
            && forall k :: k in keys && k in a && k in b ==> a[k] == b[k]
  {
  }

  // ----- Which evidence counts -----

  /** Stored, and no older than the window counted from the newest that is stored. */
  ghost predicate IsRecent(e: Evidence, stored: seq<Evidence>, window: int) {
    e in stored && forall x :: x in stored ==> e.ts >= x.ts - window
  }

  lemma {:induction false} SinceMembers(evidence: seq<Evidence>, cutoff: int)
    ensures forall e :: e in Since(evidence, cutoff) <==> e in evidence && e.ts >= cutoff
  {
    if evidence != [] {
      var n := |evidence| - 1;
      SinceMembers(evidence[..n], cutoff);
      assert evidence == evidence[..n] + [evidence[n]];
    }
  }

  lemma RecentIff(stored: seq<Evidence>, window: int, e: Evidence)
    ensures e in Recent(stored, window) <==> IsRecent(e, stored, window)
  {
    var sorted := Sort(stored, NotLater);
    NotLaterIsTotalPreorder();
    SortMembers(stored, NotLater);
    SortSorted(stored, NotLater);
    if sorted != [] {
      var newest := sorted[|sorted| - 1];
      assert newest in stored;
      SinceMembers(sorted, newest.ts - window);
      forall x | x in stored ensures x.ts <= newest.ts {
        assert x in sorted;
        var i :| 0 <= i < |sorted| && sorted[i] == x;
        assert i < |sorted| - 1 ==> NotLater(sorted[i], newest);
      }
    }
  }

  // ----- Confidences -----

  function Positive(w: real): real {
    if w > 0.0 then w else 0.0
  }

  function SumOfWeights(evidence: seq<Evidence>): real {
    if evidence == [] then 0.0
    else
      var n := |evidence| - 1;
      SumOfWeights(evidence[..n]) + Positive(evidence[n].weight)
  }

  /** `best` holds one piece of evidence of each mark among those of the group, one of the largest
      weight; weights below zero count as zero. */
  ghost predicate AreBest(best: seq<Evidence>, of: Evidence -> bool) {
    && (forall i :: 0 <= i < |best| ==> of(best[i]))
    && (forall i, j :: 0 <= i < j < |best| ==> !SameMark(best[i], best[j]))
    && forall e :: of(e) ==> exists i :: 0 <= i < |best| && SameMark(e, best[i]) && e.weight <= Positive(best[i].weight)
  }

  /** The confidence is that of the curve at the sum of the best weights, to four decimals. */
  ghost predicate IsConfidence(x: real, saturate: real -> real, best: seq<Evidence>) {
    -0.00005 <= x - saturate(SumOfWeights(best)) <= 0.00005
  }

  /** The items are those of the group of evidence. */
  ghost predicate ItemsAre(fields: seq<string>, items: seq<Item>, of: Evidence -> bool) {
    forall x :: x in items <==> exists e :: of(e) && x == ItemOf(fields, e)
  }

  /** Evidence of the fingerprint, and with its largest weight if that counts. */
  ghost predicate Represents(
      fields: seq<string>, e: Evidence, items: seq<Item>, of: Evidence -> bool, f: Fingerprint) {
    of(e) && FingerprintOf(fields, e) == f && Positive(e.weight) == BestWeight(items, f)
  }

  lemma BestOf(fields: seq<string>, items: seq<Item>, of: Evidence -> bool, f: Fingerprint) returns (e: Evidence)
    requires ItemsAre(fields, items, of) && f in Fingerprints(items)
    ensures Represents(fields, e, items, of, f)
  {
    FingerprintsMembers(items, f);
    BestWeightIsReached(items, f);
    var x :| x in items && x.mark == f;
    if BestWeight(items, f) != 0.0 {
      x :| x in items && x.mark == f && x.weight == BestWeight(items, f);
    }
    e :| of(e) && x == ItemOf(fields, e);
  }

  ghost predicate AllRepresent(
      fields: seq<string>, best: seq<Evidence>, items: seq<Item>, of: Evidence -> bool, fs: seq<Fingerprint>) {
    |best| == |fs| && forall i :: 0 <= i < |fs| ==> Represents(fields, best[i], items, of, fs[i])
  }

  lemma {:induction false} BestOfAll(
      fields: seq<string>, items: seq<Item>, of: Evidence -> bool, fs: seq<Fingerprint>) returns (best: seq<Evidence>)
    requires ItemsAre(fields, items, of) && forall f :: f in fs ==> f in Fingerprints(items)
    ensures AllRepresent(fields, best, items, of, fs) && SumOfWeights(best) == Total(fs, items)
  {
    if fs == [] {
      best := [];
    } else {
      var n := |fs| - 1;
      var front := BestOfAll(fields, items, of, fs[..n]);
      var e := BestOf(fields, items, of, fs[n]);
      best := front + [e];
      SumOfMore(front, e);
      OneMoreRepresents(fields, front, e, items, of, fs);
    }
  }

  lemma OneMoreRepresents(
      fields: seq<string>, front: seq<Evidence>, e: Evidence, items: seq<Item>, of: Evidence -> bool,
      fs: seq<Fingerprint>)
    requires fs != [] && AllRepresent(fields, front, items, of, fs[..|fs| - 1])
    requires Represents(fields, e, items, of, fs[|fs| - 1])
    ensures AllRepresent(fields, front + [e], items, of, fs)
  {
    var n := |fs| - 1;
    forall i | 0 <= i < |fs| ensures Represents(fields, (front + [e])[i], items, of, fs[i]) {
      assert i < n ==> Represents(fields, front[i], items, of, fs[..n][i]);
    }
  }

  lemma SumOfMore(front: seq<Evidence>, e: Evidence)
    ensures SumOfWeights(front + [e]) == SumOfWeights(front) + Positive(e.weight)
  {
    assert (front + [e])[..|front|] == front;
  }

  lemma ConfidenceIsOfBest(items: seq<Item>, of: Evidence -> bool, saturate: real -> real)
    returns (best: seq<Evidence>)
    requires ItemsAre(FINGERPRINT_KEYS, items, of)
    ensures AreBest(best, of) && IsConfidence(ConfidenceOf(items, saturate), saturate, best)
  {
    var fs := Dedupe(Fingerprints(items));
    AppendNewDistinct([], Fingerprints(items));
    best := BestOfAll(FINGERPRINT_KEYS, items, of, fs);
    RepresentativesAreBest(items, of, fs, best);
    RoundIsNearest(saturate(Score(items)), 0.0, 10000.0);
  }

  lemma RepresentativesAreBest(
      items: seq<Item>, of: Evidence -> bool, fs: seq<Fingerprint>, best: seq<Evidence>)
    requires ItemsAre(FINGERPRINT_KEYS, items, of) && Distinct(fs)
    requires AllRepresent(FINGERPRINT_KEYS, best, items, of, fs) && forall f :: f in Fingerprints(items) ==> f in fs
    ensures AreBest(best, of)
  {
    forall i, j | 0 <= i < j < |best| ensures !SameMark(best[i], best[j]) {
      assert Represents(FINGERPRINT_KEYS, best[i], items, of, fs[i]);
      assert Represents(FINGERPRINT_KEYS, best[j], items, of, fs[j]);
      SameMarkIff(best[i], best[j]);
    }
    forall e | of(e) ensures exists i :: 0 <= i < |best| && SameMark(e, best[i]) && e.weight <= Positive(best[i].weight)
    {
      var i := Represented(items, of, fs, best, e);
    }
    forall i | 0 <= i < |best| ensures of(best[i]) {
      assert Represents(FINGERPRINT_KEYS, best[i], items, of, fs[i]);
    }
  }

  lemma Represented(
      items: seq<Item>, of: Evidence -> bool, fs: seq<Fingerprint>, best: seq<Evidence>, e: Evidence) returns (i: nat)
    requires ItemsAre(FINGERPRINT_KEYS, items, of) && of(e)
    requires AllRepresent(FINGERPRINT_KEYS, best, items, of, fs) && forall f :: f in Fingerprints(items) ==> f in fs
    ensures i < |best| && SameMark(e, best[i]) && e.weight <= Positive(best[i].weight)
  {
    var x := ItemOf(FINGERPRINT_KEYS, e);
    assert x in items;
    FingerprintsMembers(items, x.mark);
    i :| 0 <= i < |fs| && fs[i] == x.mark;
    assert Represents(FINGERPRINT_KEYS, best[i], items, of, fs[i]);
    SameMarkIff(e, best[i]);
  }

  lemma ByTechniqueStep(fields: seq<string>, evidence: seq<Evidence>)
    requires evidence != []
    ensures var n := |evidence| - 1; var e := evidence[n];
      var front, all := ByTechnique(fields, evidence[..n]), ByTechnique(fields, evidence);
      if e.technique.None? then all == front
      else |all| == |front| + 1 && all[..|front|] == front
           && all[|front|] == Keyed(e.technique.value, ItemOf(fields, e))
  {
  }

  lemma ByTacticStep(fields: seq<string>, evidence: seq<Evidence>)
    requires evidence != []
    ensures var n := |evidence| - 1; var e := evidence[n];
      var front, all := ByTactic(fields, evidence[..n]), ByTactic(fields, evidence);
      if e.tactic.None? then all == front
      else |all| == |front| + 1 && all[..|front|] == front
           && all[|front|] == Keyed(e.tactic.value, ItemOf(fields, e))
  {
  }

  lemma {:induction false} TechniqueItems(fields: seq<string>, evidence: seq<Evidence>, t: string)
    ensures forall x :: x in ItemsOf(ByTechnique(fields, evidence), t) <==>
              exists e :: e in evidence && e.technique == Some(t) && x == ItemOf(fields, e)
  {
    if evidence != [] {
      var n := |evidence| - 1;
      TechniqueItems(fields, evidence[..n], t);
      ByTechniqueStep(fields, evidence);
      assert evidence == evidence[..n] + [evidence[n]];
    }
  }

  lemma {:induction false} TacticItems(fields: seq<string>, evidence: seq<Evidence>, t: string)
    ensures forall x :: x in ItemsOf(ByTactic(fields, evidence), t) <==>
              exists e :: e in evidence && e.tactic == Some(t) && x == ItemOf(fields, e)
  {
    if evidence != [] {
      var n := |evidence| - 1;
      TacticItems(fields, evidence[..n], t);
      ByTacticStep(fields, evidence);
      assert evidence == evidence[..n] + [evidence[n]];
    }
  }

  /** Main result: the confidence of every technique of a profile comes from the recent evidence of it
      and nothing else: of each mark the largest weight, these summed up, put through the curve and
      rounded. */
  lemma TechniqueConfidence(stored: seq<Evidence>, window: int, saturate: real -> real, t: string, x: real)
    returns (best: seq<Evidence>)
    requires (t, x) in Rebuilt(FINGERPRINT_KEYS, stored, window, saturate).techniqueConfidences
    ensures AreBest(best, e => IsRecent(e, stored, window) && e.technique == Some(t))
    ensures IsConfidence(x, saturate, best)
  {
    var recent := Recent(stored, window);
    var xs := ByTechnique(FINGERPRINT_KEYS, recent);
    TechniqueItems(FINGERPRINT_KEYS, recent, t);
    forall e ensures e in recent <==> IsRecent(e, stored, window) {
      RecentIff(stored, window, e);
    }
    best := ConfidenceIsOfBest(ItemsOf(xs, t), e => IsRecent(e, stored, window) && e.technique == Some(t), saturate);
  }

  /** And that of every tactic likewise. */
  lemma TacticConfidence(stored: seq<Evidence>, window: int, saturate: real -> real, t: string, x: real)
    returns (best: seq<Evidence>)
    requires (t, x) in Rebuilt(FINGERPRINT_KEYS, stored, window, saturate).tacticConfidences
    ensures AreBest(best, e => IsRecent(e, stored, window) && e.tactic == Some(t))
    ensures IsConfidence(x, saturate, best)
  {
    var recent := Recent(stored, window);
    var xs := ByTactic(FINGERPRINT_KEYS, recent);
    TacticItems(FINGERPRINT_KEYS, recent, t);
    forall e ensures e in recent <==> IsRecent(e, stored, window) {
      RecentIff(stored, window, e);
    }
    best := ConfidenceIsOfBest(ItemsOf(xs, t), e => IsRecent(e, stored, window) && e.tactic == Some(t), saturate);
  }

  ghost predicate HasConfidence(scores: Confidence.Scores, k: string) {
    exists i :: 0 <= i < |scores| && scores[i].0 == k
  }

  /** Exactly the techniques and tactics of recent evidence have a confidence. */
  lemma ConfidencesIff(stored: seq<Evidence>, window: int, saturate: real -> real, t: string)
    ensures var p := Rebuilt(FINGERPRINT_KEYS, stored, window, saturate);
      && (HasConfidence(p.techniqueConfidences, t) <==>
            exists e :: IsRecent(e, stored, window) && e.technique == Some(t))
      && (HasConfidence(p.tacticConfidences, t) <==> exists e :: IsRecent(e, stored, window) && e.tactic == Some(t))
  {
    var recent := Recent(stored, window);
    HasEntry(ByTechnique(FINGERPRINT_KEYS, recent), t, saturate);
    HasEntry(ByTactic(FINGERPRINT_KEYS, recent), t, saturate);
    TechniqueKeys(FINGERPRINT_KEYS, recent, t);
    TacticKeys(FINGERPRINT_KEYS, recent, t);
    forall e ensures e in recent <==> IsRecent(e, stored, window) {
      RecentIff(stored, window, e);
    }
  }

  lemma {:induction false} TacticKeys(fields: seq<string>, evidence: seq<Evidence>, t: string)
    ensures t in KeysOf(ByTactic(fields, evidence)) <==> exists e :: e in evidence && e.tactic == Some(t)
  {
    if evidence != [] {
      var n := |evidence| - 1;
      TacticKeys(fields, evidence[..n], t);
      ByTacticStep(fields, evidence);
      assert evidence == evidence[..n] + [evidence[n]];
    }
  }

  lemma HasEntry(xs: seq<Keyed>, k: string, saturate: real -> real)
    ensures HasConfidence(Summary(xs, saturate), k) <==> k in KeysOf(xs)
  {
    var keys, summary := Dedupe(KeysOf(xs)), Summary(xs, saturate);
    if i :| 0 <= i < |summary| && summary[i].0 == k {
      assert keys[i] in keys;
    }
    if k in keys {
      var i :| 0 <= i < |keys| && keys[i] == k;
      assert summary[i].0 == k;
    }
  }

  // ----- Breadcrumbs -----

  ghost predicate StemsFrom(e: Evidence, surface: string) {
    "source" in e.source && e.source["source"] == Text(surface)
  }

  /** The field holds the value, alone or in a list; an empty text alone is none. */
  ghost predicate Says(e: Evidence, key: string, x: string) {
    key in e.source &&
    match e.source[key]
    case Text(text) => x == text && x != ""
    case Texts(texts) => x in texts
  }

  ghost predicate WasSeen(stored: seq<Evidence>, window: int, surface: string, key: string, x: string) {
    exists e :: IsRecent(e, stored, window) && StemsFrom(e, surface) && Says(e, key, x)
  }

  ghost predicate WasNamed(stored: seq<Evidence>, window: int, assetId: string) {
    exists e :: IsRecent(e, stored, window) && Says(e, "asset_id", assetId)
  }

  /** Paths, rules and indicators of the public and the internal surface are exactly what recent
      evidence from there says; the assets are what any recent evidence names. */
  lemma BreadcrumbsIff(stored: seq<Evidence>, window: int, saturate: real -> real, x: string)
    ensures var p := Rebuilt(FINGERPRINT_KEYS, stored, window, saturate);
      && (x in p.publicPaths <==> WasSeen(stored, window, "public_http", "http_path", x))
      && (x in p.publicRules <==> WasSeen(stored, window, "public_http", "http_rule_names", x))
      && (x in p.publicIndicators <==> WasSeen(stored, window, "public_http", "http_indicators", x))
      && (x in p.internalPaths <==> WasSeen(stored, window, "internal_http", "http_path", x))
      && (x in p.internalRules <==> WasSeen(stored, window, "internal_http", "http_rule_names", x))
      && (x in p.internalIndicators <==> WasSeen(stored, window, "internal_http", "http_indicators", x))
      && (x in p.assetIds <==> WasNamed(stored, window, x))
  {
    BreadcrumbsAreObserved(FINGERPRINT_KEYS, stored, window, saturate, x);
    SeenIff(stored, window, "public_http", "http_path", x);
    SeenIff(stored, window, "public_http", "http_rule_names", x);
    SeenIff(stored, window, "public_http", "http_indicators", x);
    SeenIff(stored, window, "internal_http", "http_path", x);
    SeenIff(stored, window, "internal_http", "http_rule_names", x);
    SeenIff(stored, window, "internal_http", "http_indicators", x);
    NamedIff(stored, window, x);
  }

  lemma NamedIff(stored: seq<Evidence>, window: int, x: string)
    ensures (exists e :: e in Recent(stored, window) && x in ValuesIn(e, None, "asset_id")) <==>
            WasNamed(stored, window, x)
  {
    forall e: Evidence
      ensures e in Recent(stored, window) <==> IsRecent(e, stored, window)
      ensures x in ValuesIn(e, None, "asset_id") <==> Says(e, "asset_id", x)
    {
      RecentIff(stored, window, e);
    }
  }

  lemma SeenIff(stored: seq<Evidence>, window: int, surface: string, key: string, x: string)
    ensures (exists e :: e in Recent(stored, window) && x in ValuesIn(e, Some(surface), key)) <==>
            WasSeen(stored, window, surface, key, x)
  {
    forall e: Evidence
      ensures e in Recent(stored, window) <==> IsRecent(e, stored, window)
      ensures x in ValuesIn(e, Some(surface), key) <==> StemsFrom(e, surface) && Says(e, key, x)
    {
      RecentIff(stored, window, e);
    }
  }

  ghost predicate InOrder(evidence: seq<Evidence>) {
    forall i, j :: 0 <= i < j < |evidence| ==> evidence[i].ts <= evidence[j].ts
  }

  /** The ids of a profile are those of the up to five newest pieces of recent evidence, in the order
      of time. */
  lemma NewestFive(stored: seq<Evidence>, window: int, saturate: real -> real) returns (last: seq<Evidence>)
    ensures var ids := Rebuilt(FINGERPRINT_KEYS, stored, window, saturate).evidenceIds;
      |ids| == |last| <= 5 && forall i :: 0 <= i < |ids| ==> ids[i] == last[i].id
    ensures InOrder(last) && forall e :: e in last ==> IsRecent(e, stored, window)
    ensures forall e :: IsRecent(e, stored, window) && e !in last ==>
              |last| == 5 && forall x :: x in last ==> e.ts <= x.ts
  {
    var recent := Recent(stored, window);
    last := LastFive(recent);
    forall e ensures e in recent <==> IsRecent(e, stored, window) {
      RecentIff(stored, window, e);
    }
    RecentInOrder(stored, window);
    if |recent| > 5 {
      LastAreNewest(recent, |recent| - 5);
    }
  }

  lemma LastAreNewest(evidence: seq<Evidence>, n: nat)
    requires InOrder(evidence) && n <= |evidence|
    ensures InOrder(evidence[n..])
    ensures forall e, x :: e in evidence && e !in evidence[n..] && x in evidence[n..] ==> e.ts <= x.ts
  {
    var last := evidence[n..];
    forall e, x | e in evidence && e !in last && x in last ensures e.ts <= x.ts {
      assert evidence == evidence[..n] + last;
      var i :| 0 <= i < n && evidence[..n][i] == e;
      var j :| 0 <= j < |last| && last[j] == x;
      assert evidence[i] == e && evidence[n + j] == x;
    }
  }

  lemma {:induction false} SinceInOrder(evidence: seq<Evidence>, cutoff: int)
    requires InOrder(evidence)
    ensures InOrder(Since(evidence, cutoff))
  {
    if evidence != [] {
      var n := |evidence| - 1;
      SinceInOrder(evidence[..n], cutoff);
      SinceMembers(evidence[..n], cutoff);
      var front := Since(evidence[..n], cutoff);
      forall i | 0 <= i < |front| ensures front[i].ts <= evidence[n].ts {
        assert front[i] in evidence[..n];
      }
      if evidence[n].ts < cutoff {
        assert Since(evidence, cutoff) == front;
      } else {
        assert Since(evidence, cutoff) == front + [evidence[n]];
      }
    }
  }

  lemma RecentInOrder(stored: seq<Evidence>, window: int)
    ensures InOrder(Recent(stored, window))
  {
    var sorted := Sort(stored, NotLater);
    NotLaterIsTotalPreorder();
    SortSorted(stored, NotLater);
    forall i, j | 0 <= i < j < |sorted| ensures sorted[i].ts <= sorted[j].ts {
      assert NotLater(sorted[i], sorted[j]);
    }
    if sorted != [] {
      SinceInOrder(sorted, sorted[|sorted| - 1].ts - window);
    }
  }

  // ----- Tags -----

  ghost predicate IsTactic(tag: string) {
    |tag| >= 6 && tag[..6] == "mitre_"
  }

  /** What the nearest tactic tag before a place names, if there is one. */
  ghost predicate NearestNames(c: Catalogue, tags: seq<string>, i: nat, x: Option<string>) {
    i <= |tags| &&
    ((x == None && forall j :: 0 <= j < i ==> !IsTactic(tags[j]))
     || exists j :: 0 <= j < i && IsTactic(tags[j]) && x == c.canonical(tags[j][6..])
                    && forall k :: j < k < i ==> !IsTactic(tags[k]))
  }

  ghost predicate MapsTechnique(c: Catalogue, tags: seq<string>, i: nat, m: Mapping) {
    && i < |tags| && !IsTactic(tags[i]) && c.isTechnique(tags[i]) && m.technique == Some(tags[i])
    && exists x :: NearestNames(c, tags, i, x) && m.tactic == if x.Some? then x else c.tacticOf(tags[i])
  }

  ghost predicate MapsTactic(c: Catalogue, tags: seq<string>, i: nat, m: Mapping) {
    && i < |tags| && IsTactic(tags[i]) && m.technique == None && m.tactic.Some?
    && m.tactic == c.canonical(tags[i][6..])
  }

  lemma {:induction false} NearestIs(c: Catalogue, tags: seq<string>, i: nat)
    requires i <= |tags|
    ensures NearestNames(c, tags, i, NearestTactic(c, tags[..i]))
    ensures forall x :: NearestNames(c, tags, i, x) ==> x == NearestTactic(c, tags[..i])
  {
    if i > 0 {
      NearestIs(c, tags, i - 1);
      assert tags[..i][..i - 1] == tags[..i - 1];
    }
  }

  ghost predicate SomeTechnique(c: Catalogue, tags: seq<string>, n: nat, m: Mapping) {
    exists i: nat :: i < n && MapsTechnique(c, tags, i, m)
  }

  ghost predicate SomeTactic(c: Catalogue, tags: seq<string>, n: nat, m: Mapping) {
    exists i: nat :: i < n && MapsTactic(c, tags, i, m)
  }

  lemma OneTagMore(c: Catalogue, tags: seq<string>, n: nat, m: Mapping)
    requires n < |tags|
    ensures SomeTechnique(c, tags, n + 1, m) <==> SomeTechnique(c, tags, n, m) || MapsTechnique(c, tags, n, m)
    ensures SomeTactic(c, tags, n + 1, m) <==> SomeTactic(c, tags, n, m) || MapsTactic(c, tags, n, m)
  {
    if MapsTechnique(c, tags, n, m) {
      assert SomeTechnique(c, tags, n + 1, m);
    }
    if MapsTactic(c, tags, n, m) {
      assert SomeTactic(c, tags, n + 1, m);
    }
  }

  lemma {:induction false} TechniquesMapped(c: Catalogue, tags: seq<string>, n: nat, m: Mapping)
    requires n <= |tags|
    ensures m in TechniqueMappings(c, tags[..n]) <==> SomeTechnique(c, tags, n, m)
  {
    if n > 0 {
      TechniquesMapped(c, tags, n - 1, m);
      OneTagMore(c, tags, n - 1, m);
      NearestIs(c, tags, n - 1);
      assert tags[..n][..n - 1] == tags[..n - 1];
    }
  }

  lemma {:induction false} TacticsMapped(c: Catalogue, tags: seq<string>, n: nat, m: Mapping)
    requires n <= |tags|
    ensures m in TacticMappings(c, tags[..n]) <==> SomeTactic(c, tags, n, m)
  {
    if n > 0 {
      TacticsMapped(c, tags, n - 1, m);
      OneTagMore(c, tags, n - 1, m);
      assert tags[..n][..n - 1] == tags[..n - 1];
    }
  }

  /** Main result: an event is mapped to each of its techniques, with what the nearest tactic tag before
      it names, or else with the catalogue's tactic; without a technique to the tactics that its tags
      name; and without either to nothing, once. */
  lemma MappingsIff(c: Catalogue, tags: seq<string>, m: Mapping)
    ensures Distinct(Mappings(c, tags))
    ensures var n := |tags|;
      m in Mappings(c, tags) <==>
      if exists x :: SomeTechnique(c, tags, n, x) then SomeTechnique(c, tags, n, m)
      else if exists x :: SomeTactic(c, tags, n, x) then SomeTactic(c, tags, n, m)
      else m == Mapping(None, None)
  {
    var techniques, tactics := Dedupe(TechniqueMappings(c, tags)), Dedupe(TacticMappings(c, tags));
    AppendNewDistinct([], TechniqueMappings(c, tags));
    AppendNewDistinct([], TacticMappings(c, tags));
    TagsMapped(c, tags);
    assert techniques != [] ==> techniques[0] in techniques;
    assert tactics != [] ==> tactics[0] in tactics;
  }

  lemma TagsMapped(c: Catalogue, tags: seq<string>)
    ensures forall m :: m in TechniqueMappings(c, tags) <==> SomeTechnique(c, tags, |tags|, m)
    ensures forall m :: m in TacticMappings(c, tags) <==> SomeTactic(c, tags, |tags|, m)
  {
    assert tags[..|tags|] == tags;
    forall m: Mapping
      ensures m in TechniqueMappings(c, tags) <==> SomeTechnique(c, tags, |tags|, m)
      ensures m in TacticMappings(c, tags) <==> SomeTactic(c, tags, |tags|, m)
    {
      TechniquesMapped(c, tags, |tags|, m);
      TacticsMapped(c, tags, |tags|, m);
    }
  }
}
