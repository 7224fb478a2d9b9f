/** The gates that configuration targets pass by. An unlock is held back by its dependencies and by
    the cap on unlocked assets, a target by neither. That is harmless for the dependencies exactly
    when every target needs only what its source needs, and for the cap exactly when every target is
    its own source. */
module TargetGates {
  import opened Wrappers
  import opened Iterables
  import opened Scoring
  import opened Controller
  import opened ControllerProperties
  import opened DependencyClosure

  // ----- Targets that can be revealed -----

  const KNOWN_KEYS := ["any_http_paths", "any_http_rules", "any_http_indicators", "any_internal_http_paths",
    "any_internal_http_rules", "any_internal_http_indicators", "any_asset_ids", "any_techniques", "any_tactics"]

  /** The variant has an id, a target that can be run, and no markers or one that can be observed. */
  predicate CanBeOffered(assets: seq<Asset>, v: Variant) {
    && v.configurationId.Some? && v.target.Some?
    && FindAsset(assets, v.target.value).Some? && FindAsset(assets, v.target.value).value.runtimeAvailable
    && (v.requiredMarkers == [] || exists i :: 0 <= i < |v.requiredMarkers| && v.requiredMarkers[i].key in KNOWN_KEYS)
  }

  function TargetOf(assets: seq<Asset>, v: Variant): Asset
    requires CanBeOffered(assets, v)
  {
    FindAsset(assets, v.target.value).value
  }

  function CoveredBy(assets: seq<Asset>, v: Variant): seq<string>
    requires CanBeOffered(assets, v)
  {
    if v.covered != [] then v.covered else TargetOf(assets, v).covered
  }

  /** It also speaks to some technique. */
  predicate CanBeRevealed(assets: seq<Asset>, a: Asset, v: Variant) {
    a in assets && v in a.variants && CanBeOffered(assets, v) && CoveredBy(assets, v) != []
  }

  /** Every target needs only what its source needs, the source itself, or itself. */
  ghost predicate TargetsCovered(assets: seq<Asset>) {
    forall a, v :: CanBeRevealed(assets, a, v) ==> CoversTarget(assets, a, v)
  }

  ghost predicate CoversTarget(assets: seq<Asset>, a: Asset, v: Variant)
    requires CanBeOffered(assets, v)
  {
    forall d :: d in TargetOf(assets, v).dependencies ==> d == v.target.value || Needs(assets, a.id, d)
  }

  /** Every target is its own source. */
  ghost predicate OwnTargets(assets: seq<Asset>) {
    forall a, v :: CanBeRevealed(assets, a, v) ==> v.target.value == a.id
  }

  lemma KeyIsKnown(p: Profile, key: string)
    ensures Observed(p, key).Some? <==> key in KNOWN_KEYS
  {
    assert KNOWN_KEYS[0] == "any_http_paths" && KNOWN_KEYS[1] == "any_http_rules"
           && KNOWN_KEYS[2] == "any_http_indicators";
    assert KNOWN_KEYS[3] == "any_internal_http_paths" && KNOWN_KEYS[4] == "any_internal_http_rules";
    assert KNOWN_KEYS[5] == "any_internal_http_indicators" && KNOWN_KEYS[6] == "any_asset_ids";
    assert KNOWN_KEYS[7] == "any_techniques" && KNOWN_KEYS[8] == "any_tactics";
  }

  lemma OfferedCanBeOffered(a: Asset, v: Variant, assets: seq<Asset>, req: Request, planned: seq<string>)
    requires VariantOption(a, v, assets, req, planned).Some? && v.target.Some?
    ensures CanBeOffered(assets, v)
    ensures VariantOption(a, v, assets, req, planned).value.covered == CoveredBy(assets, v)
  {
    ExactMarkersMembers(v.requiredMarkers, req.profile);
    var markers := Dedupe(ExactMarkers(v.requiredMarkers, req.profile));
    if v.requiredMarkers != [] {
      assert markers[0] in markers;
      var m := markers[0];
      assert m in v.requiredMarkers && WasObserved(req.profile, m);
      var i :| 0 <= i < |v.requiredMarkers| && v.requiredMarkers[i] == m;
      KeyIsKnown(req.profile, m.key);
    }
  }

  // ----- What a tick exposes -----

  /** The scene stems from a profile, and without the prior there are no recommendations. */
  predicate IsScene(s: Scene) {
    && s.observed == ThresholdedObserved(s.config, s.request.profile.confidences)
    && (!s.config.usePriorSupport ==> s.recommendations == [])
  }

  function Exposing(unlocked: seq<string>, c: Option<Candidate>): seq<string> {
    if c.Some? then AppendNew(unlocked, [ExposedId(c.value)]) else unlocked
  }

  /** What is unlocked when the reveals of a tick were applied. */
  function UnlockedAfter(s: Scene, assets: seq<Asset>): seq<string> {
    var d := Decide(s, assets);
    Exposing(Exposing(s.request.unlocked, d.main), d.explore)
  }

  /** A reveal of a configuration with a target stems from a variant that can be revealed. */
  lemma TargetCanBeRevealed(
      s: Scene, assets: seq<Asset>, planned: seq<string>, strategy: Strategy, context: Option<Candidate>, c: Candidate)
    requires Pass(s, assets, planned, strategy, context) == Some(c)
    requires c.option.kind.ConfigureAsset? && c.option.variant.Some? && c.option.variant.value.target.Some?
    ensures CanBeRevealed(assets, c.option.asset, c.option.variant.value)
    ensures c.option.asset.id in s.request.unlocked
  {
    PassIsBest(s, assets, planned, strategy, context);
    CandidateIsGated(s, assets, planned, strategy, context, c);
    ScoredTechnique(s, c.option, strategy, context);
    var v := ConfigurationSource(s, assets, planned, strategy, context, c);
    VariantIsKept(c.option.asset, v, assets, s.request, planned);
    OfferedCanBeOffered(c.option.asset, v, assets, s.request, planned);
  }

  // ----- Dependencies -----

  lemma CoveredIsMet(assets: seq<Asset>, unlocked: seq<string>, a: Asset, v: Variant)
    requires DistinctAssets(assets) && CanBeRevealed(assets, a, v) && CoversTarget(assets, a, v)
    requires Closed(assets, unlocked) && a.id in unlocked
    ensures MetWith(assets, v.target.value, unlocked)
  {
    forall b, d | b in assets && b.id == v.target.value && d in b.dependencies
      ensures d == v.target.value || d in unlocked
    {
      assert b == TargetOf(assets, v);
      if d != v.target.value {
        ClosedHasNeeded(assets, unlocked, a.id, d);
      }
    }
  }

  /** What a pass chooses keeps a set closed that holds the unlocked assets and what was planned. */
  lemma PassKeepsClosed(
      s: Scene, assets: seq<Asset>, planned: seq<string>, strategy: Strategy, context: Option<Candidate>, c: Candidate,
      now: seq<string>)
    requires DistinctAssets(assets) && TargetsCovered(assets) && Closed(assets, s.request.unlocked)
    requires Pass(s, assets, planned, strategy, context) == Some(c)
    requires Closed(assets, now) && forall x :: x in planned || x in s.request.unlocked ==> x in now
    ensures ExposedId(c) in now || MetWith(assets, ExposedId(c), now)
  {
    PassIsBest(s, assets, planned, strategy, context);
    CandidateIsGated(s, assets, planned, strategy, context, c);
    if c.option.kind.UnlockAsset? {
      forall b, d | b in assets && b.id == c.option.asset.id && d in b.dependencies ensures d in now {
        var j :| 0 <= j < |b.dependencies| && b.dependencies[j] == d;
        assert b == c.option.asset && b.dependencies[j] in planned;
      }
    } else if c.option.variant.value.target.Some? {
      TargetCanBeRevealed(s, assets, planned, strategy, context, c);
      CoveredIsMet(assets, s.request.unlocked, c.option.asset, c.option.variant.value);
    }
  }

  lemma TickKeepsClosed(s: Scene, assets: seq<Asset>)
    requires DistinctAssets(assets) && TargetsCovered(assets) && Closed(assets, s.request.unlocked)
    ensures Closed(assets, UnlockedAfter(s, assets))
  {
    var d, unlocked := Decide(s, assets), s.request.unlocked;
    if d.main.Some? {
      PassKeepsClosed(s, assets, unlocked, Exploit, None, d.main.value, unlocked);
      AppendKeepsClosed(assets, unlocked, ExposedId(d.main.value));
      var now := Exposing(unlocked, d.main);
      if ExposedId(d.main.value) in unlocked {
        AddingKnown(unlocked, ExposedId(d.main.value));
      }
      if d.explore.Some? {
        RevealsAreGated(s, assets);
        var planned := PlannedAfter(unlocked, d.main.value);
        PassKeepsClosed(s, assets, planned, Explore, d.main, d.explore.value, now);
        AppendKeepsClosed(assets, now, ExposedId(d.explore.value));
      }
    }
  }

  lemma AddingKnown(unlocked: seq<string>, id: string)
    ensures AppendNew(unlocked, [id]) == if id in unlocked then unlocked else unlocked + [id]
  {
    assert [id][1..] == [];
  }

  /** From every situation in which the unlocked assets are closed, a tick leads to one in which
      they are. */
  ghost predicate TicksKeepClosed(c: Config, assets: seq<Asset>) {
    forall s :: IsScene(s) && s.config == c && Closed(assets, s.request.unlocked) ==>
      Closed(assets, UnlockedAfter(s, assets))
  }

  // ----- The cap -----

  /** A pass exposes nothing new, or does so below the cap. */
  lemma PassKeepsCap(
      s: Scene, assets: seq<Asset>, planned: seq<string>, strategy: Strategy, context: Option<Candidate>, c: Candidate)
    requires OwnTargets(assets) && Pass(s, assets, planned, strategy, context) == Some(c)
    ensures ExposedId(c) in s.request.unlocked || |planned| < s.config.unlockCap
    ensures c.option.kind.ConfigureAsset? ==> ExposedId(c) in s.request.unlocked
  {
    PassIsBest(s, assets, planned, strategy, context);
    CandidateIsGated(s, assets, planned, strategy, context, c);
    if c.option.kind.ConfigureAsset? && c.option.variant.value.target.Some? {
      TargetCanBeRevealed(s, assets, planned, strategy, context, c);
    }
  }

  lemma TickKeepsCap(s: Scene, assets: seq<Asset>)
    requires OwnTargets(assets) && |s.request.unlocked| <= s.config.unlockCap
    ensures |UnlockedAfter(s, assets)| <= s.config.unlockCap
  {
    var d, unlocked := Decide(s, assets), s.request.unlocked;
    if d.main.Some? {
      PassKeepsCap(s, assets, unlocked, Exploit, None, d.main.value);
      AddingKnown(unlocked, ExposedId(d.main.value));
      var now := Exposing(unlocked, d.main);
      if d.explore.Some? {
        RevealsAreGated(s, assets);
        var planned := PlannedAfter(unlocked, d.main.value);
        PassKeepsCap(s, assets, planned, Explore, d.main, d.explore.value);
        AddingKnown(now, ExposedId(d.explore.value));
        assert |now| <= |planned|;
      }
    }
  }

  /** From every situation within the cap, a tick leads to one within the cap. */
  ghost predicate TicksKeepCap(c: Config, assets: seq<Asset>) {
    forall s :: IsScene(s) && s.config == c && |s.request.unlocked| <= c.unlockCap ==>
      |UnlockedAfter(s, assets)| <= c.unlockCap
  }

  lemma NothingWithoutCap(s: Scene, assets: seq<Asset>)
    requires s.config.unlockCap <= 0 && s.request.unlocked == []
    ensures Decide(s, assets) == Decision(None, None)
  {
    var d := Decide(s, assets);
    if d.main.Some? {
      PassIsBest(s, assets, [], Exploit, None);
      CandidateIsGated(s, assets, [], Exploit, None, d.main.value);
      assert false;
    }
  }
}
