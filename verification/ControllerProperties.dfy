/** What a controller tick guarantees about the reveals it chooses. */
module ControllerProperties {
  import opened Wrappers
  import opened Iterables
  import opened Sorting
  import opened Scoring
  import opened Controller

  // ----- Gates -----

  /** The candidate passed the hard gates against the assets taken as unlocked. */
  ghost predicate Gated(s: Scene, assets: seq<Asset>, planned: seq<string>, c: Candidate) {
    && c.option.asset in assets
    && (c.option.kind.UnlockAsset? ==>
          && c.option.asset.id !in planned && |planned| < s.config.unlockCap
          && DependenciesMet(c.option.asset, planned)
          && c.option.asset.isInternal && c.option.asset.isReady && c.option.asset.runtimeAvailable
          && c.option.variant.None?)
    && (c.option.kind.ConfigureAsset? ==>
          && c.option.asset.id in s.request.unlocked
          && c.option.variant.Some? && c.option.variant.value in c.option.asset.variants
          && c.option.variant.value.configurationId.Some?
          && (c.option.asset.id in s.request.revealed ==>
                c.option.variant.value.configurationId.value !in s.request.revealed[c.option.asset.id])
          && (c.option.variant.value.target.Some? && c.option.variant.value.target.value != c.option.asset.id ==>
                c.option.variant.value.target.value !in planned))
  }

  lemma CandidateIsGated(
      s: Scene, assets: seq<Asset>, planned: seq<string>, strategy: Strategy, context: Option<Candidate>, c: Candidate)
    requires IsCandidate(s, assets, planned, strategy, context, c)
    ensures Gated(s, assets, planned, c)
  {
    var o := c.option;
    if a :| a in assets && Offers(s.config, a, s.request, planned) && o == UnlockOption(a, assets, s.request, planned) {
    } else {
      var a :| a in assets && a.id in s.request.unlocked && FromVariant(o, a, assets, s.request, planned);
      var v :| v in a.variants && VariantOption(a, v, assets, s.request, planned) == Some(o);
    }
  }

  /** Both reveals of a tick pass the gates: the main one against the assets unlocked before the
      tick, the explore one against these and what the main one exposes. */
  lemma RevealsAreGated(s: Scene, assets: seq<Asset>)
    ensures var d := Decide(s, assets);
      && (d.main.Some? ==> Gated(s, assets, s.request.unlocked, d.main.value))
      && (d.explore.Some? ==>
            d.main.Some? && Gated(s, assets, PlannedAfter(s.request.unlocked, d.main.value), d.explore.value))
  {
    var d := Decide(s, assets);
    if d.main.Some? {
      PassIsBest(s, assets, s.request.unlocked, Exploit, None);
      CandidateIsGated(s, assets, s.request.unlocked, Exploit, None, d.main.value);
      if d.explore.Some? {
        var planned := PlannedAfter(s.request.unlocked, d.main.value);
        PassIsBest(s, assets, planned, Explore, d.main);
        CandidateIsGated(s, assets, planned, Explore, d.main, d.explore.value);
      }
    }
  }

  // ----- Reasons -----

  predicate WasObserved(p: Profile, m: Marker) {
    var seen := Observed(p, m.key);
    seen.Some? && m.value in seen.value
  }

  /** What the attacker did gives a reason for the candidate: a signal of the asset, or presence on
      the way to a configuration and one of its markers; and what it exposes can be run. */
  ghost predicate Justified(s: Scene, assets: seq<Asset>, c: Candidate) {
    c.selected in c.option.covered && UnlockJustified(s, c.option) && ConfigurationJustified(s, assets, c.option)
  }

  ghost predicate UnlockJustified(s: Scene, o: RevealOption) {
    o.kind.UnlockAsset? ==> IsBootstrap(o.asset, s.request) || MatchesUnlockSignals(o.asset, s.request.profile)
  }

  ghost predicate ConfigurationJustified(s: Scene, assets: seq<Asset>, o: RevealOption) {
    o.kind.ConfigureAsset? && o.variant.Some? ==> VariantJustified(s, assets, o.asset.id, o.variant.value)
  }

  ghost predicate VariantJustified(s: Scene, assets: seq<Asset>, sourceId: string, v: Variant) {
    && VisibleOnActivePath(sourceId, v, s.request.profile.assetIds)
    && (v.requiredMarkers != [] ==> exists m :: m in v.requiredMarkers && WasObserved(s.request.profile, m))
    && (v.target.Some? ==> exists t :: t in assets && t.id == v.target.value && t.runtimeAvailable)
  }

  lemma {:induction false} ExactMarkersMembers(markers: seq<Marker>, p: Profile)
    ensures forall m :: m in ExactMarkers(markers, p) <==> m in markers && WasObserved(p, m)
  {
    if markers != [] {
      var n := |markers| - 1;
      ExactMarkersMembers(markers[..n], p);
      assert markers == markers[..n] + [markers[n]];
    }
  }

  lemma VariantIsJustified(s: Scene, assets: seq<Asset>, source: Asset, v: Variant, planned: seq<string>)
    requires VariantOption(source, v, assets, s.request, planned).Some?
    ensures var o := VariantOption(source, v, assets, s.request, planned).value;
      o.kind.ConfigureAsset? && o.asset == source && o.variant == Some(v) && VariantJustified(s, assets, source.id, v)
  {
    ExactMarkersMembers(v.requiredMarkers, s.request.profile);
    var markers := Dedupe(ExactMarkers(v.requiredMarkers, s.request.profile));
    if v.requiredMarkers != [] {
      assert markers[0] in markers;
    }
    if v.target.Some? {
      var t := FindAsset(assets, v.target.value);
      assert t.value in assets;
    }
  }

  lemma ScoredTechnique(s: Scene, o: RevealOption, strategy: Strategy, context: Option<Candidate>)
    requires ScoreOption(s, o, strategy, context).Some?
    ensures var c := ScoreOption(s, o, strategy, context).value;
      var considered := if strategy.Explore? then context else None;
      && c.option == o && c.selected in o.covered && Counts(s, o, considered, c.selected)
      && forall t :: t in o.covered && Counts(s, o, considered, t) ==> !BetterTechnique(s, o, t, c.selected)
  {
    var considered := if strategy.Explore? then context else None;
    var techniques := CountingTechniques(s, o, considered, Dedupe(o.covered));
    BestTechniqueIsBest(s, o, techniques);
    CountingIsAll(s, o, considered, Dedupe(o.covered));
  }

  lemma {:induction false} CountingIsAll(s: Scene, o: RevealOption, context: Option<Candidate>, techniques: seq<string>)
    ensures forall t :: t in techniques && Counts(s, o, context, t) ==>
            t in CountingTechniques(s, o, context, techniques)
  {
    if techniques != [] {
      var n := |techniques| - 1;
      CountingIsAll(s, o, context, techniques[..n]);
      assert techniques == techniques[..n] + [techniques[n]];
    }
  }

  lemma BetterIsStrictOrder(s: Scene, o: RevealOption, a: string, b: string, c: string)
    ensures !BetterTechnique(s, o, a, a)
    ensures BetterTechnique(s, o, a, b) && !BetterTechnique(s, o, c, b) ==> !BetterTechnique(s, o, c, a)
  {
    LexTotal(a, b);
    LexTotal(b, c);
    LexTotal(a, c);
    if LexLe(b, a) && LexLe(c, b) {
      LexTransitive(c, b, a);
    }
    if LexLe(a, c) && LexLe(c, b) {
      LexTransitive(a, c, b);
    }
    if LexLe(a, b) && LexLe(b, a) {
      LexAntisymmetric(a, b);
    }
    if LexLe(b, c) && LexLe(c, b) {
      LexAntisymmetric(b, c);
    }
  }

  /** The technique that explains a candidate is the best of those that count. */
  lemma {:induction false} BestTechniqueIsBest(s: Scene, o: RevealOption, techniques: seq<string>)
    requires techniques != []
    ensures forall t :: t in techniques ==> !BetterTechnique(s, o, t, BestTechnique(s, o, techniques))
  {
    var n := |techniques| - 1;
    assert techniques == techniques[..n] + [techniques[n]];
    var best := BestTechnique(s, o, techniques);
    if n > 0 {
      BestTechniqueIsBest(s, o, techniques[..n]);
      var before := BestTechnique(s, o, techniques[..n]);
      forall t | t in techniques ensures !BetterTechnique(s, o, t, best) {
        BetterIsStrictOrder(s, o, techniques[n], before, t);
        BetterIsStrictOrder(s, o, t, t, t);
      }
    } else {
      BetterIsStrictOrder(s, o, techniques[0], techniques[0], techniques[0]);
    }
  }

  lemma CandidateIsJustified(
      s: Scene, assets: seq<Asset>, planned: seq<string>, strategy: Strategy, context: Option<Candidate>, c: Candidate)
    requires IsCandidate(s, assets, planned, strategy, context, c)
    ensures Justified(s, assets, c)
  {
    ScoredTechnique(s, c.option, strategy, context);
    OptionIsJustified(s, assets, planned, c.option);
  }

  lemma OptionIsJustified(s: Scene, assets: seq<Asset>, planned: seq<string>, o: RevealOption)
    requires IsOption(s.config, assets, s.request, planned, o)
    ensures UnlockJustified(s, o) && ConfigurationJustified(s, assets, o)
  {
    if a :| a in assets && Offers(s.config, a, s.request, planned) && o == UnlockOption(a, assets, s.request, planned) {
      UnlockIsJustified(s, assets, a, planned);
    } else {
      var a :| a in assets && a.id in s.request.unlocked && FromVariant(o, a, assets, s.request, planned);
      var v :| v in a.variants && VariantOption(a, v, assets, s.request, planned) == Some(o);
      VariantIsJustified(s, assets, a, v, planned);
    }
  }

  lemma UnlockIsJustified(s: Scene, assets: seq<Asset>, a: Asset, planned: seq<string>)
    requires Offers(s.config, a, s.request, planned)
    ensures var o := UnlockOption(a, assets, s.request, planned);
      o.kind.UnlockAsset? && UnlockJustified(s, o)
  {
  }

  /** Nothing is revealed without a reason in the profile, and nothing at all to a mere scanner. */
  lemma RevealsAreJustified(s: Scene, assets: seq<Asset>)
    ensures var d := Decide(s, assets);
      && (d.main.Some? ==> Justified(s, assets, d.main.value) && !ScannerOnly(s.request.profile))
      && (d.explore.Some? ==> d.main.Some? && Justified(s, assets, d.explore.value))
  {
    var d := Decide(s, assets);
    if d.main.Some? {
      PassIsBest(s, assets, s.request.unlocked, Exploit, None);
      CandidateIsJustified(s, assets, s.request.unlocked, Exploit, None, d.main.value);
      if d.explore.Some? {
        var planned := PlannedAfter(s.request.unlocked, d.main.value);
        PassIsBest(s, assets, planned, Explore, d.main);
        CandidateIsJustified(s, assets, planned, Explore, d.main, d.explore.value);
      }
    }
  }

  /** The main reveal is the best candidate there is, and a tick without reveal has none. */
  lemma MainIsBest(s: Scene, assets: seq<Asset>)
    requires !ScannerOnly(s.request.profile)
    ensures var d := Decide(s, assets);
      && (d.main.Some? ==>
            IsCandidate(s, assets, s.request.unlocked, Exploit, None, d.main.value)
            && forall x :: IsCandidate(s, assets, s.request.unlocked, Exploit, None, x) ==> !Precedes(x, d.main.value))
      && (d.main.None? ==> forall x :: !IsCandidate(s, assets, s.request.unlocked, Exploit, None, x))
  {
    PassIsBest(s, assets, s.request.unlocked, Exploit, None);
  }

  // ----- Main and explore differ -----

  lemma ExploreSelection(s: Scene, o: RevealOption, main: Candidate)
    requires ScoreOption(s, o, Explore, Some(main)).Some?
    ensures var c := ScoreOption(s, o, Explore, Some(main)).value;
      c.option == o && c.selected in o.covered && NewDirection(c.selected, main) && MayExplore(s, o)
  {
    var techniques := CountingTechniques(s, o, Some(main), Dedupe(o.covered));
    assert BestTechnique(s, o, techniques) in techniques;
  }

  /** The technique the explore reveal is chosen for is in no family that the main reveal covers;
      there is one only after two families were observed, for a concrete marker or an upgrade. */
  lemma ExploreTakesNewDirection(s: Scene, assets: seq<Asset>)
    ensures var d := Decide(s, assets);
      d.explore.Some? ==>
        && d.main.Some? && d.explore.value.selected in d.explore.value.option.covered
        && (forall i :: 0 <= i < |d.main.value.option.covered| ==>
              !SameFamily(d.explore.value.selected, d.main.value.option.covered[i]))
        && |Dedupe(Families(s.observed))| >= 2
        && (HasConcreteMarker(d.explore.value.option.markers) || d.explore.value.option.isUpgrade)
  {
    var d := Decide(s, assets);
    if d.explore.Some? {
      PassIsBest(s, assets, PlannedAfter(s.request.unlocked, d.main.value), Explore, d.main);
      ExploreSelection(s, d.explore.value.option, d.main.value);
    }
  }

  ghost predicate DistinctAssets(assets: seq<Asset>) {
    forall a, b :: a in assets && b in assets && a.id == b.id ==> a == b
  }

  predicate SameConfiguration(v: Variant, w: Variant) {
    v.configurationId.Some? && v.configurationId == w.configurationId
  }

  ghost predicate DistinctConfigurations(assets: seq<Asset>) {
    forall a, v, w :: a in assets && v in a.variants && w in a.variants && SameConfiguration(v, w) ==> v == w
  }

  /** The covered techniques of a configuration option depend on the variant and its target only. */
  lemma VariantCovers(
      source: Asset, v: Variant, all: seq<Asset>, req: Request, planned: seq<string>, planned': seq<string>)
    requires VariantOption(source, v, all, req, planned).Some? && VariantOption(source, v, all, req, planned').Some?
    ensures VariantOption(source, v, all, req, planned).value.covered
            == VariantOption(source, v, all, req, planned').value.covered
    ensures VariantOption(source, v, all, req, planned).value.variant == Some(v)
  {
  }

  /** A tick never issues the same unlock or the same variant of an asset twice, although the record
      of revealed configurations is not updated between its passes; nor the same configuration, as
      long as the catalogue gives different ids to different variants of an asset. */
  lemma NoActionTwice(s: Scene, assets: seq<Asset>)
    ensures var d := Decide(s, assets);
      d.explore.Some? ==>
        var m, e := d.main.value.option, d.explore.value.option;
        && (m.kind.UnlockAsset? && e.kind.UnlockAsset? ==> m.asset.id != e.asset.id)
        && (m.kind.ConfigureAsset? && e.kind.ConfigureAsset? && m.asset == e.asset ==> m.variant != e.variant)
        && (m.kind.ConfigureAsset? && e.kind.ConfigureAsset? && m.asset.id == e.asset.id
            && DistinctAssets(assets) && DistinctConfigurations(assets) ==>
              m.variant.Some? && e.variant.Some? && m.variant.value.configurationId != e.variant.value.configurationId)
  {
    var d := Decide(s, assets);
    if d.explore.Some? {
      RevealsAreGated(s, assets);
      var m, e := d.main.value.option, d.explore.value.option;
      if m.kind.ConfigureAsset? && e.kind.ConfigureAsset? && m.asset == e.asset {
        ConfiguresDiffer(s, assets, d.main.value, d.explore.value);
        if m.variant.value.configurationId == e.variant.value.configurationId {
          assert SameConfiguration(m.variant.value, e.variant.value);
        }
      }
    }
  }

  /** A configuration candidate of a pass stems from a variant of an open asset of the catalogue. */
  lemma ConfigurationSource(
      s: Scene, assets: seq<Asset>, planned: seq<string>, strategy: Strategy, context: Option<Candidate>, x: Candidate)
    returns (v: Variant)
    requires Pass(s, assets, planned, strategy, context) == Some(x) && x.option.kind.ConfigureAsset?
    ensures x.option.asset in assets && v in x.option.asset.variants
    ensures VariantOption(x.option.asset, v, assets, s.request, planned) == Some(x.option)
  {
    PassIsBest(s, assets, planned, strategy, context);
    var a :| a in assets && a.id in s.request.unlocked && FromVariant(x.option, a, assets, s.request, planned);
    v :| v in a.variants && VariantOption(a, v, assets, s.request, planned) == Some(x.option);
  }

  lemma ConfiguresDiffer(s: Scene, assets: seq<Asset>, m: Candidate, e: Candidate)
    requires m.option.kind.ConfigureAsset? && e.option.kind.ConfigureAsset? && m.option.asset == e.option.asset
    requires Pass(s, assets, s.request.unlocked, Exploit, None) == Some(m)
    requires Pass(s, assets, PlannedAfter(s.request.unlocked, m), Explore, Some(m)) == Some(e)
    ensures m.option.variant.Some? && e.option.variant.Some? && m.option.variant != e.option.variant
  {
    var planned := PlannedAfter(s.request.unlocked, m);
    var v := ConfigurationSource(s, assets, s.request.unlocked, Exploit, None, m);
    var w := ConfigurationSource(s, assets, planned, Explore, Some(m), e);
    var a := m.option.asset;
    VariantIsKept(a, v, assets, s.request, s.request.unlocked);
    VariantIsKept(a, w, assets, s.request, planned);
    if v == w {
      VariantCovers(a, v, assets, s.request, s.request.unlocked, planned);
      NewFamily(s, assets, planned, m, e);
      assert false;
    }
  }

  lemma VariantIsKept(source: Asset, v: Variant, all: seq<Asset>, req: Request, planned: seq<string>)
    requires VariantOption(source, v, all, req, planned).Some?
    ensures VariantOption(source, v, all, req, planned).value.variant == Some(v)
    ensures v.configurationId.Some?
  {
  }

  lemma NewFamily(s: Scene, assets: seq<Asset>, planned: seq<string>, m: Candidate, e: Candidate)
    requires Pass(s, assets, planned, Explore, Some(m)) == Some(e)
    ensures e.option.covered != m.option.covered
  {
    PassIsBest(s, assets, planned, Explore, Some(m));
    ExploreSelection(s, e.option, m);
  }

  /** The explore reveal does not expose again what the main reveal newly exposed. */
  lemma NoAssetExposedTwice(s: Scene, assets: seq<Asset>)
    ensures var d := Decide(s, assets);
      d.explore.Some? && ExposedId(d.main.value) !in s.request.unlocked ==>
          ExposedId(d.explore.value) != ExposedId(d.main.value)
  {
    RevealsAreGated(s, assets);
  }

  // ----- The order of the catalogue does not matter -----

  ghost predicate SameElements(a: seq<Asset>, b: seq<Asset>) {
    forall x :: x in a <==> x in b
  }

  lemma SameUpgradeContext(candidate: Asset, a: seq<Asset>, b: seq<Asset>, planned: seq<string>, markers: seq<Marker>)
    requires SameElements(a, b) && HasUpgradeContext(candidate, a, planned, markers)
    ensures HasUpgradeContext(candidate, b, planned, markers)
  {
    var i :| 0 <= i < |a| && a[i].id in planned && Upgrades(a[i], candidate, markers);
    assert a[i] in b;
    var j :| 0 <= j < |b| && b[j] == a[i];
  }

  lemma SameLookup(a: seq<Asset>, b: seq<Asset>, id: string)
    requires SameElements(a, b) && DistinctAssets(a)
    ensures FindAsset(a, id) == FindAsset(b, id)
  {
    var x, y := FindAsset(a, id), FindAsset(b, id);
    if x.Some? {
      assert x.value in b;
    }
    if y.Some? {
      assert y.value in a;
    }
  }

  lemma SameOptions(c: Config, a: seq<Asset>, b: seq<Asset>, req: Request, planned: seq<string>, o: RevealOption)
    requires SameElements(a, b) && DistinctAssets(a) && IsOption(c, a, req, planned, o)
    ensures IsOption(c, b, req, planned, o)
  {
    if x :| x in a && Offers(c, x, req, planned) && o == UnlockOption(x, a, req, planned) {
      var markers := MatchedMarkers(x, req.profile);
      if HasUpgradeContext(x, a, planned, markers) {
        SameUpgradeContext(x, a, b, planned, markers);
      }
      if HasUpgradeContext(x, b, planned, markers) {
        SameUpgradeContext(x, b, a, planned, markers);
      }
      assert x in b && o == UnlockOption(x, b, req, planned);
    } else {
      var x :| x in a && x.id in req.unlocked && FromVariant(o, x, a, req, planned);
      var v :| v in x.variants && VariantOption(x, v, a, req, planned) == Some(o);
      if v.target.Some? {
        SameLookup(a, b, v.target.value);
      }
      assert VariantOption(x, v, b, req, planned) == Some(o);
      assert x in b && FromVariant(o, x, b, req, planned);
    }
  }

  /** No two different candidates of the pass share their ordering key. */
  ghost predicate NoTies(
      s: Scene, assets: seq<Asset>, planned: seq<string>, strategy: Strategy, context: Option<Candidate>) {
    forall x, y | Ties(x, y) ::
      (IsCandidate(s, assets, planned, strategy, context, x)
       && IsCandidate(s, assets, planned, strategy, context, y)) ==> x == y
  }

  lemma SamePass(
      s: Scene, a: seq<Asset>, b: seq<Asset>, planned: seq<string>, strategy: Strategy, context: Option<Candidate>)
    requires SameElements(a, b) && DistinctAssets(a) && NoTies(s, a, planned, strategy, context)
    ensures Pass(s, a, planned, strategy, context) == Pass(s, b, planned, strategy, context)
  {
    forall x
      ensures IsCandidate(s, a, planned, strategy, context, x) <==> IsCandidate(s, b, planned, strategy, context, x)
    {
      if IsOption(s.config, a, s.request, planned, x.option) {
        SameOptions(s.config, a, b, s.request, planned, x.option);
      }
      if IsOption(s.config, b, s.request, planned, x.option) {
        SameOptions(s.config, b, a, s.request, planned, x.option);
      }
    }
    PassIsBest(s, a, planned, strategy, context);
    PassIsBest(s, b, planned, strategy, context);
    var x, y := Pass(s, a, planned, strategy, context), Pass(s, b, planned, strategy, context);
    if x.Some? && y.Some? {
      PrecedesIsStrictOrder(x.value, y.value, x.value);
    }
  }

  /** Main result: reordering the catalogue changes neither reveal of a tick, provided no two
      candidates of a pass have the same ordering key. */
  lemma CatalogueOrderDoesNotMatter(s: Scene, a: seq<Asset>, b: seq<Asset>)
    requires SameElements(a, b) && DistinctAssets(a)
    requires NoTies(s, a, s.request.unlocked, Exploit, None)
    requires var main := Pass(s, a, s.request.unlocked, Exploit, None);
             main.Some? ==> NoTies(s, a, PlannedAfter(s.request.unlocked, main.value), Explore, main)
    ensures Decide(s, a) == Decide(s, b)
  {
    SamePass(s, a, b, s.request.unlocked, Exploit, None);
    var main := Pass(s, a, s.request.unlocked, Exploit, None);
    if main.Some? {
      SamePass(s, a, b, PlannedAfter(s.request.unlocked, main.value), Explore, main);
    }
  }

  // ----- Gains -----

  ghost predicate NonNegative(scores: Scores) {
    forall i :: 0 <= i < |scores| ==> scores[i].1 >= 0.0
  }

  lemma {:induction false} ScoresAreNonNegative(scores: Scores, technique: string)
    requires NonNegative(scores)
    ensures ScoreOf(scores, technique) >= 0.0 && BestFamilyScore(technique, scores) >= 0.0
  {
    if scores != [] {
      ScoresAreNonNegative(scores[..|scores| - 1], technique);
    }
  }

  lemma GainOfTechnique(c: Config, technique: string, less: Scores, more: Scores, recommendations: Scores)
    requires ScoreOf(less, technique) <= ScoreOf(more, technique) && NonNegative(recommendations)
    ensures 0.0 <= TechniqueGain(c, technique, more, recommendations)
                <= TechniqueGain(c, technique, less, recommendations)
    ensures ScoreOf(more, technique) >= 1.0 ==> TechniqueGain(c, technique, more, recommendations) == 0.0
  {
    var p, a, b := Factors(c, technique, less, more, recommendations);
    Scaled(p, a, b, TechniqueGain(c, technique, more, recommendations),
           TechniqueGain(c, technique, less, recommendations));
  }

  lemma Factors(c: Config, technique: string, less: Scores, more: Scores, recommendations: Scores)
    returns (p: real, a: real, b: real)
    requires ScoreOf(less, technique) <= ScoreOf(more, technique) && NonNegative(recommendations)
    ensures 0.0 <= p && 0.0 <= a <= b && (ScoreOf(more, technique) >= 1.0 ==> a == 0.0)
    ensures TechniqueGain(c, technique, more, recommendations) == p * a
    ensures TechniqueGain(c, technique, less, recommendations) == p * b
  {
    SupportIsNonNegative(c, technique, recommendations);
    NoveltyFalls(technique, less, more);
    p, a, b := PriorSupport(c, technique, recommendations), Novelty(technique, more), Novelty(technique, less);
  }

  lemma SupportIsNonNegative(c: Config, technique: string, recommendations: Scores)
    requires NonNegative(recommendations)
    ensures 0.0 <= PriorSupport(c, technique, recommendations)
  {
    ScoresAreNonNegative(recommendations, technique);
  }

  lemma NoveltyFalls(technique: string, less: Scores, more: Scores)
    requires ScoreOf(less, technique) <= ScoreOf(more, technique)
    ensures 0.0 <= Novelty(technique, more) <= Novelty(technique, less)
    ensures ScoreOf(more, technique) >= 1.0 ==> Novelty(technique, more) == 0.0
  {
  }

  lemma Scaled(support: real, a: real, b: real, ga: real, gb: real)
    requires 0.0 <= support && 0.0 <= a <= b && ga == support * a && gb == support * b
    ensures 0.0 <= ga <= gb
    ensures a == 0.0 ==> ga == 0.0
  {
    assert support * b - support * a == support * (b - a);
    assert support * (b - a) >= 0.0;
  }

  /** The better a profile knows techniques, the less is to be gained from revealing for them; of
      techniques that are certain nothing is. */
  lemma {:induction false} KnowingMoreLowersGain(
      c: Config, techniques: seq<string>, less: Scores, more: Scores, recommendations: Scores)
    requires forall t :: t in techniques ==> ScoreOf(less, t) <= ScoreOf(more, t)
    requires NonNegative(recommendations)
    ensures 0.0 <= ExpectedGain(c, techniques, more, recommendations)
                <= ExpectedGain(c, techniques, less, recommendations)
    ensures (forall t :: t in techniques ==> ScoreOf(more, t) >= 1.0) ==>
              ExpectedGain(c, techniques, more, recommendations) == 0.0
  {
    if techniques != [] {
      var n := |techniques| - 1;
      assert techniques == techniques[..n] + [techniques[n]];
      KnowingMoreLowersGain(c, techniques[..n], less, more, recommendations);
      GainOfTechnique(c, techniques[n], less, more, recommendations);
    }
  }
}
