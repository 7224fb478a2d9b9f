/** How a candidate is scored, in terms of the catalogue entry, the profile and the recommendations:
    which techniques count for it, what is expected to be gained, and why. */
module ScoreResults {
  import opened Wrappers
  import opened Iterables
  import opened Rounding
  import opened Scoring
  import opened ControllerProperties
  import opened Sorting

  // ----- Families -----

  /** The first `k` characters are what stands before the first dot. */
  ghost predicate IsRoot(technique: string, k: nat) {
    && k <= |technique| && (forall i :: 0 <= i < k ==> technique[i] != '.')
    && (k < |technique| ==> technique[k] == '.')
  }

  ghost predicate SameRoot(a: string, b: string) {
    exists i: nat, j: nat :: IsRoot(a, i) && IsRoot(b, j) && a[..i] == b[..j]
  }

  lemma {:induction false} FamilyIsRoot(t: string) returns (k: nat)
    ensures IsRoot(t, k) && Family(t) == t[..k]
  {
    if t == "" || t[0] == '.' {
      k := 0;
    } else {
      var n := FamilyIsRoot(t[1..]);
      k := n + 1;
      assert t[..k] == [t[0]] + t[1..][..n];
    }
  }

  lemma OneRoot(t: string, i: nat, j: nat)
    requires IsRoot(t, i) && IsRoot(t, j)
    ensures i == j
  {
  }

  lemma SameFamilyIff(a: string, b: string)
    ensures SameFamily(a, b) <==> SameRoot(a, b)
  {
    var m := FamilyIsRoot(a);
    var n := FamilyIsRoot(b);
    if i: nat, j: nat :| IsRoot(a, i) && IsRoot(b, j) && a[..i] == b[..j] {
      OneRoot(a, i, m);
      OneRoot(b, j, n);
    }
  }

  // ----- Scores -----

  /** The technique's own score: its last entry, zero without one. */
  ghost predicate IsScore(scores: Scores, t: string, x: real) {
    || (x == 0.0 && forall i :: 0 <= i < |scores| ==> scores[i].0 != t)
    || exists i :: 0 <= i < |scores| && scores[i] == (t, x) && forall j :: i < j < |scores| ==> scores[j].0 != t
  }

  /** Three quarters of a score of another technique of the family. */
  ghost predicate IsRelated(scores: Scores, t: string, i: nat, x: real) {
    i < |scores| && scores[i].0 != t && SameRoot(scores[i].0, t) && x == scores[i].1 * 0.75
  }

  /** The largest of these, if it is positive. */
  ghost predicate IsFamilyScore(scores: Scores, t: string, x: real) {
    && 0.0 <= x && (x == 0.0 || exists i: nat :: IsRelated(scores, t, i, x))
    && forall i: nat, y :: IsRelated(scores, t, i, y) ==> y <= x
  }

  /** The larger of the technique's own score and that of its family. */
  ghost predicate IsBestScore(scores: Scores, t: string, x: real) {
    exists own, family :: IsScore(scores, t, own) && IsFamilyScore(scores, t, family)
                          && x == if own >= family then own else family
  }

  lemma {:induction false} ScoreIs(scores: Scores, t: string)
    ensures IsScore(scores, t, ScoreOf(scores, t))
    ensures forall x :: IsScore(scores, t, x) ==> x == ScoreOf(scores, t)
  {
    if scores != [] {
      var n := |scores| - 1;
      if scores[n].0 != t {
        ScoreIs(scores[..n], t);
        ScoreOfFront(scores, t);
      } else {
        assert scores[n] == (t, scores[n].1);
      }
    }
  }

  lemma ScoreOfFront(scores: Scores, t: string)
    requires scores != [] && scores[|scores| - 1].0 != t
    ensures forall x :: IsScore(scores, t, x) <==> IsScore(scores[..|scores| - 1], t, x)
  {
    var front := scores[..|scores| - 1];
    forall x: real ensures IsScore(scores, t, x) <==> IsScore(front, t, x) {
      if i :| 0 <= i < |front| && front[i] == (t, x) && forall j :: i < j < |front| ==> front[j].0 != t {
        assert scores[i] == (t, x);
      }
      if i :| 0 <= i < |scores| && scores[i] == (t, x) && forall j :: i < j < |scores| ==> scores[j].0 != t {
        assert front[i] == (t, x);
      }
    }
  }

  lemma {:induction false} FamilyScoreIs(scores: Scores, t: string)
    ensures IsFamilyScore(scores, t, BestFamilyScore(t, scores))
  {
    if scores != [] {
      var n := |scores| - 1;
      FamilyScoreIs(scores[..n], t);
      SameFamilyIff(scores[n].0, t);
      RelatedOfFront(scores, t);
      var before, best := BestFamilyScore(t, scores[..n]), BestFamilyScore(t, scores);
      if best == before {
        if best != 0.0 {
          var i: nat :| IsRelated(scores[..n], t, i, best);
          assert IsRelated(scores, t, i, best);
        }
      } else {
        assert IsRelated(scores, t, n, best);
      }
    }
  }

  lemma RelatedOfFront(scores: Scores, t: string)
    requires scores != []
    ensures forall i: nat, x :: i < |scores| - 1 ==>
              (IsRelated(scores, t, i, x) <==> IsRelated(scores[..|scores| - 1], t, i, x))
  {
  }

  lemma OneFamilyScore(scores: Scores, t: string, x: real, y: real)
    requires IsFamilyScore(scores, t, x) && IsFamilyScore(scores, t, y)
    ensures x == y
  {
  }

  lemma BestScoreIs(scores: Scores, t: string)
    ensures forall x :: IsBestScore(scores, t, x) <==> x == Max(ScoreOf(scores, t), BestFamilyScore(t, scores))
  {
    ScoreIs(scores, t);
    FamilyScoreIs(scores, t);
    forall x ensures IsBestScore(scores, t, x) <==> x == Max(ScoreOf(scores, t), BestFamilyScore(t, scores)) {
      if IsBestScore(scores, t, x) {
        var own, family :| IsScore(scores, t, own) && IsFamilyScore(scores, t, family)
                           && x == if own >= family then own else family;
        OneFamilyScore(scores, t, family, BestFamilyScore(t, scores));
      }
    }
  }

  // ----- Which techniques count -----

  /** A breadcrumb other than a technique or a tactic was matched. */
  ghost predicate IsConcrete(markers: seq<Marker>) {
    exists m :: m in markers && m.key != "any_techniques" && m.key != "any_tactics"
  }

  /** The portal is the first thing to reveal, to anybody who did something. */
  ghost predicate OpensPortal(a: Asset, req: Request) {
    && a.id == "internal-portal" && req.unlocked == []
    && (req.profile.evidenceIds != [] || req.profile.techniques != [] || req.profile.tactics != [])
  }

  /** Why a technique that the option covers speaks for it. */
  ghost predicate Speaks(s: Scene, o: RevealOption, t: string) {
    || (o.kind == UnlockAsset && OpensPortal(o.asset, s.request))
    || exists known, advised ::
         && IsBestScore(s.request.profile.confidences, t, known) && IsBestScore(s.recommendations, t, advised)
         && if exists x :: x in s.observed && SameRoot(t, x) then known > 0.0
            else !s.config.usePriorSupport || advised > 0.0 || (IsConcrete(o.markers) && known > 0.0)
  }

  /** For a second reveal only techniques of families that the first one does not cover count. */
  ghost predicate IsNewTo(t: string, main: Candidate) {
    && (main.selected != "" ==> !SameRoot(t, main.selected))
    && forall x :: x in main.option.covered ==> !SameRoot(t, x)
  }

  ghost predicate Matters(s: Scene, o: RevealOption, context: Option<Candidate>, t: string) {
    Speaks(s, o, t) && (context.Some? ==> IsNewTo(t, context.value))
  }

  lemma PortalIff(a: Asset, req: Request)
    ensures IsBootstrap(a, req) <==> OpensPortal(a, req)
  {
  }

  lemma ConcreteIff(markers: seq<Marker>)
    ensures HasConcreteMarker(markers) <==> IsConcrete(markers)
  {
    if m :| m in markers && m.key != "any_techniques" && m.key != "any_tactics" {
      var i :| 0 <= i < |markers| && markers[i] == m;
      assert markers[i].key != "any_techniques";
    }
  }

  lemma ObservedFamilyIff(observed: seq<string>, t: string)
    ensures (exists i :: 0 <= i < |observed| && SameFamily(t, observed[i])) <==>
            exists x :: x in observed && SameRoot(t, x)
  {
    if i :| 0 <= i < |observed| && SameFamily(t, observed[i]) {
      SameFamilyIff(t, observed[i]);
      assert observed[i] in observed;
    }
    if x :| x in observed && SameRoot(t, x) {
      var i :| 0 <= i < |observed| && observed[i] == x;
      SameFamilyIff(t, observed[i]);
    }
  }

  lemma SpeaksIff(s: Scene, o: RevealOption, t: string)
    ensures Counts(s, o, None, t) <==> Speaks(s, o, t)
  {
    PortalIff(o.asset, s.request);
    ConcreteIff(o.markers);
    ObservedFamilyIff(s.observed, t);
    var confidences := s.request.profile.confidences;
    var known := Max(ScoreOf(confidences, t), BestFamilyScore(t, confidences));
    var advised := Max(ScoreOf(s.recommendations, t), BestFamilyScore(t, s.recommendations));
    BestScoreIs(confidences, t);
    BestScoreIs(s.recommendations, t);
    assert IsBestScore(confidences, t, known) && IsBestScore(s.recommendations, t, advised);
    var concrete := HasConcreteMarker(o.markers);
    assert Counts(s, o, None, t) <==>
      IsBootstrapOption(s, o) || PartsCount(s.config, known, advised, concrete, IsObserved(s, t)) by {
      CountsIsParts(s, o, t, known, advised);
    }
  }

  predicate IsBootstrapOption(s: Scene, o: RevealOption) {
    o.kind.UnlockAsset? && IsBootstrap(o.asset, s.request)
  }

  predicate IsObserved(s: Scene, t: string) {
    exists i :: 0 <= i < |s.observed| && SameFamily(t, s.observed[i])
  }

  predicate PartsCount(c: Config, known: real, advised: real, concrete: bool, observed: bool) {
    if observed then known > 0.0 else !c.usePriorSupport || advised > 0.0 || (concrete && known > 0.0)
  }

  lemma CountsIsParts(s: Scene, o: RevealOption, t: string, known: real, advised: real)
    requires known == Max(ScoreOf(s.request.profile.confidences, t), BestFamilyScore(t, s.request.profile.confidences))
    requires advised == Max(ScoreOf(s.recommendations, t), BestFamilyScore(t, s.recommendations))
    ensures Counts(s, o, None, t) <==>
      IsBootstrapOption(s, o) || PartsCount(s.config, known, advised, HasConcreteMarker(o.markers), IsObserved(s, t))
  {
  }

  lemma MattersIff(s: Scene, o: RevealOption, context: Option<Candidate>, t: string)
    ensures Counts(s, o, context, t) <==> Matters(s, o, context, t)
  {
    SpeaksIff(s, o, t);
    if context.Some? {
      NewIff(t, context.value);
    }
  }

  lemma NewIff(t: string, main: Candidate)
    ensures NewDirection(t, main) <==> IsNewTo(t, main)
  {
    SameFamilyIff(t, main.selected);
    var covered := main.option.covered;
    forall i | 0 <= i < |covered| ensures SameFamily(t, covered[i]) <==> SameRoot(t, covered[i]) {
      SameFamilyIff(t, covered[i]);
    }
    if x :| x in covered && SameRoot(t, x) {
      var i :| 0 <= i < |covered| && covered[i] == x;
      assert SameFamily(t, covered[i]);
    }
  }

  // ----- What is expected to be gained -----

  /** The advice of the prior, or one without it, times what is not yet known of the technique. */
  ghost predicate IsGain(s: Scene, t: string, g: real) {
    exists known, advised :: IsProduct(s, t, known, advised, g)
  }

  ghost predicate IsProduct(s: Scene, t: string, known: real, advised: real, g: real) {
    && IsScore(s.request.profile.confidences, t, known)
    && (if s.config.usePriorSupport then IsBestScore(s.recommendations, t, advised) else advised == 1.0)
    && g == advised * if known < 1.0 then 1.0 - known else 0.0
  }

  /** How strongly a technique speaks for the option. */
  ghost predicate IsSignal(s: Scene, o: RevealOption, t: string, x: real) {
    if o.kind == UnlockAsset && OpensPortal(o.asset, s.request) then x == 1.0
    else
      exists known, advised ::
        && IsBestScore(s.request.profile.confidences, t, known) && IsBestScore(s.recommendations, t, advised)
        && if exists y :: y in s.observed && SameRoot(t, y) then x == (if known < 1.0 then known else 1.0)
           else if !s.config.usePriorSupport then x == 1.0
           else if advised > 0.0 then x == advised
           else x == if known < 1.0 then known else 1.0
  }

  function SumOf(gains: seq<real>): real {
    if gains == [] then 0.0 else SumOf(gains[..|gains| - 1]) + gains[|gains| - 1]
  }

  lemma GainIs(s: Scene, t: string)
    ensures IsGain(s, t, TechniqueGain(s.config, t, s.request.profile.confidences, s.recommendations))
  {
    var confidences := s.request.profile.confidences;
    ScoreIs(confidences, t);
    BestScoreIs(s.recommendations, t);
    var known, advised := ScoreOf(confidences, t), PriorSupport(s.config, t, s.recommendations);
    assert Novelty(t, confidences) == if known < 1.0 then 1.0 - known else 0.0;
    assert IsProduct(s, t, known, advised, TechniqueGain(s.config, t, confidences, s.recommendations));
  }

  lemma SignalIs(s: Scene, o: RevealOption, t: string)
    requires Counts(s, o, None, t)
    ensures IsSignal(s, o, t, OptionParts(s, o, t).signal)
  {
    PortalIff(o.asset, s.request);
    ObservedFamilyIff(s.observed, t);
    var confidences := s.request.profile.confidences;
    var known := Max(ScoreOf(confidences, t), BestFamilyScore(t, confidences));
    var advised := Max(ScoreOf(s.recommendations, t), BestFamilyScore(t, s.recommendations));
    BestScoreIs(confidences, t);
    BestScoreIs(s.recommendations, t);
    assert IsBestScore(confidences, t, known) && IsBestScore(s.recommendations, t, advised);
  }

  lemma SignalIsOne(s: Scene, o: RevealOption, t: string, x: real, y: real)
    requires IsSignal(s, o, t, x) && IsSignal(s, o, t, y)
    ensures x == y
  {
    BestScoreIs(s.request.profile.confidences, t);
    BestScoreIs(s.recommendations, t);
  }

  function GainsOf(s: Scene, ts: seq<string>): (r: seq<real>)
    ensures |r| == |ts|
    ensures forall i :: 0 <= i < |r| ==>
              r[i] == TechniqueGain(s.config, ts[i], s.request.profile.confidences, s.recommendations)
  {
    seq(|ts|, i requires 0 <= i < |ts| =>
      TechniqueGain(s.config, ts[i], s.request.profile.confidences, s.recommendations))
  }

  lemma {:induction false} GainIsSum(s: Scene, ts: seq<string>)
    ensures ExpectedGain(s.config, ts, s.request.profile.confidences, s.recommendations) == SumOf(GainsOf(s, ts))
  {
    if ts != [] {
      var n := |ts| - 1;
      GainIsSum(s, ts[..n]);
      assert GainsOf(s, ts)[..n] == GainsOf(s, ts[..n]);
    }
  }

  lemma {:induction false} CountingKeepsDistinct(
      s: Scene, o: RevealOption, context: Option<Candidate>, ts: seq<string>)
    requires Distinct(ts)
    ensures Distinct(CountingTechniques(s, o, context, ts))
  {
    if ts != [] {
      var n := |ts| - 1;
      CountingKeepsDistinct(s, o, context, ts[..n]);
      var front := CountingTechniques(s, o, context, ts[..n]);
      forall i | 0 <= i < |front| ensures front[i] != ts[n] {
        assert front[i] in front && front[i] in ts[..n];
      }
    }
  }

  /** The techniques are exactly those that the option covers and that matter, each once. */
  ghost predicate AreWeighed(s: Scene, o: RevealOption, context: Option<Candidate>, ts: seq<string>) {
    Distinct(ts) && forall t :: t in ts <==> t in o.covered && Matters(s, o, context, t)
  }

  lemma WeighedTechniques(s: Scene, o: RevealOption, context: Option<Candidate>)
    ensures AreWeighed(s, o, context, CountingTechniques(s, o, context, Dedupe(o.covered)))
  {
    AppendNewDistinct([], o.covered);
    CountingKeepsDistinct(s, o, context, Dedupe(o.covered));
    CountingIsAll(s, o, context, Dedupe(o.covered));
    forall t ensures Counts(s, o, context, t) <==> Matters(s, o, context, t) {
      MattersIff(s, o, context, t);
    }
  }

  /** The technique at `k` explains the candidate: it has the largest gain, among equal ones the
      strongest signal, and among these the name that sorts last. */
  ghost predicate Explains(s: Scene, o: RevealOption, ts: seq<string>, gains: seq<real>, k: nat) {
    && |gains| == |ts| && k < |ts|
    && forall i :: 0 <= i < |ts| ==>
         && gains[i] <= gains[k]
         && (gains[i] == gains[k] ==>
               forall x, y :: IsSignal(s, o, ts[i], x) && IsSignal(s, o, ts[k], y) ==>
                 x <= y && (x == y ==> LexLe(ts[i], ts[k])))
  }

  /** What scoring puts into a candidate. */
  ghost predicate IsScored(
      s: Scene, o: RevealOption, context: Option<Candidate>, ts: seq<string>, gains: seq<real>, c: Candidate) {
    && AreWeighed(s, o, context, ts) && |gains| == |ts|
    && (forall i :: 0 <= i < |ts| ==> IsGain(s, ts[i], gains[i]))
    && (exists k: nat :: Explains(s, o, ts, gains, k) && c.selected == ts[k])
    && c.option == o && c.markerCount == |o.markers|
    && -0.00005 <= c.gain - SumOf(gains) <= 0.00005
    && -0.00005 <= c.telemetry - o.telemetry <= 0.00005
    && (c.kind == BootstrapKind <==> o.kind == UnlockAsset && OpensPortal(o.asset, s.request))
  }

  lemma BestExplains(s: Scene, o: RevealOption, context: Option<Candidate>, ts: seq<string>) returns (k: nat)
    requires ts != [] && forall t :: t in ts ==> Counts(s, o, context, t)
    ensures Explains(s, o, ts, GainsOf(s, ts), k) && ts[k] == BestTechnique(s, o, ts)
  {
    var gains, best := GainsOf(s, ts), BestTechnique(s, o, ts);
    BestTechniqueIsBest(s, o, ts);
    k :| 0 <= k < |ts| && ts[k] == best;
    forall i | 0 <= i < |ts|
      ensures gains[i] <= gains[k]
      ensures gains[i] == gains[k] ==>
                forall x, y :: IsSignal(s, o, ts[i], x) && IsSignal(s, o, best, y) ==>
                  x <= y && (x == y ==> LexLe(ts[i], best))
    {
      assert ts[i] in ts && !BetterTechnique(s, o, ts[i], best);
      assert Counts(s, o, None, ts[i]) && Counts(s, o, None, best);
      SignalIs(s, o, ts[i]);
      SignalIs(s, o, best);
      LexTotal(ts[i], best);
      forall x, y | IsSignal(s, o, ts[i], x) && IsSignal(s, o, best, y)
        ensures x == OptionParts(s, o, ts[i]).signal && y == OptionParts(s, o, best).signal
      {
        SignalIsOne(s, o, ts[i], x, OptionParts(s, o, ts[i]).signal);
        SignalIsOne(s, o, best, y, OptionParts(s, o, best).signal);
      }
    }
  }

  /** Main result on scores: the gain of a candidate is the sum, over the techniques that count for it,
      of advice times what is not yet known, to four decimals; the technique that explains it is the
      one with the largest gain; and an option becomes no candidate exactly if none counts or, for a
      second reveal, there is no concrete reason. */
  lemma CandidateIsScored(s: Scene, o: RevealOption, strategy: Strategy, context: Option<Candidate>, c: Candidate)
    returns (ts: seq<string>, gains: seq<real>)
    requires ScoreOption(s, o, strategy, context) == Some(c)
    ensures IsScored(s, o, if strategy.Explore? then context else None, ts, gains, c)
  {
    var considered := if strategy.Explore? then context else None;
    ts := CountingTechniques(s, o, considered, Dedupe(o.covered));
    gains := GainsOf(s, ts);
    WeighedTechniques(s, o, considered);
    forall i | 0 <= i < |ts| ensures IsGain(s, ts[i], gains[i]) {
      GainIs(s, ts[i]);
    }
    GainIsSum(s, ts);
    var k := BestExplains(s, o, considered, ts);
    RoundIsNearest(SumOf(gains), 0.0, 10000.0);
    RoundIsNearest(o.telemetry, 0.0, 10000.0);
    KindIs(s, o, ts[k]);
  }

  lemma KindIs(s: Scene, o: RevealOption, t: string)
    ensures (if o.kind.ConfigureAsset? then Configuration else OptionParts(s, o, t).kind) == BootstrapKind <==>
            o.kind == UnlockAsset && OpensPortal(o.asset, s.request)
  {
    PortalIff(o.asset, s.request);
  }

  // ----- When there is a candidate -----

  /** Two families were observed, there is a concrete marker or an upgrade, and the generic groups need
      the upgrade. */
  ghost predicate HasConcreteReason(s: Scene, o: RevealOption) {
    && (exists x, y :: x in s.observed && y in s.observed && !SameRoot(x, y))
    && (IsConcrete(o.markers) || o.isUpgrade)
    && (o.kind == UnlockAsset && o.group in ["generic-capture", "payload-transfer-high"] ==> o.isUpgrade)
  }

  lemma {:induction false} FamiliesMembers(ts: seq<string>, f: string)
    ensures f in Families(ts) <==> exists t :: t in ts && Family(t) == f
  {
    if ts != [] {
      var n := |ts| - 1;
      FamiliesMembers(ts[..n], f);
      assert ts == ts[..n] + [ts[n]];
      assert ts[n] in ts;
      assert Families(ts) == Families(ts[..n]) + [Family(ts[n])];
    }
  }

  lemma TwoFamiliesIff(ts: seq<string>)
    ensures |Dedupe(Families(ts))| >= 2 <==> exists x, y :: x in ts && y in ts && !SameRoot(x, y)
  {
    var fs := Dedupe(Families(ts));
    AppendNewDistinct([], Families(ts));
    if |fs| >= 2 {
      assert fs[0] in fs && fs[1] in fs && fs[0] != fs[1];
      FamiliesMembers(ts, fs[0]);
      FamiliesMembers(ts, fs[1]);
      var x :| x in ts && Family(x) == fs[0];
      var y :| y in ts && Family(y) == fs[1];
      SameFamilyIff(x, y);
    }
    if x, y :| x in ts && y in ts && !SameRoot(x, y) {
      SameFamilyIff(x, y);
      FamiliesMembers(ts, Family(x));
      FamiliesMembers(ts, Family(y));
      assert Family(x) in fs && Family(y) in fs;
    }
  }

  /** An option becomes a candidate exactly if some technique matters and a second reveal has a concrete
      reason. */
  lemma IsCandidateIff(s: Scene, o: RevealOption, strategy: Strategy, context: Option<Candidate>)
    ensures ScoreOption(s, o, strategy, context).Some? <==>
      && (exists t :: t in o.covered && Matters(s, o, if strategy.Explore? then context else None, t))
      && (strategy.Explore? ==> context.Some? && HasConcreteReason(s, o))
  {
    var considered := if strategy.Explore? then context else None;
    var ts := CountingTechniques(s, o, considered, Dedupe(o.covered));
    WeighedTechniques(s, o, considered);
    assert ts != [] ==> ts[0] in ts;
    TwoFamiliesIff(s.observed);
    ConcreteIff(o.markers);
  }
}
