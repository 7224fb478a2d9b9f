/** Ticks that expose a given configuration target, and exactly which catalogues keep every tick from
    passing a gate by. */
module TargetTicks {
  import opened Wrappers
  import opened Iterables
  import opened Scoring
  import opened Controller
  import opened ControllerProperties
  import opened DependencyClosure
  import opened TargetGates

  // ----- A tick that exposes a given target -----

  function ConfigurationsOf(variants: seq<Variant>): seq<string> {
    if variants == [] then []
    else
      var n := |variants| - 1;
      ConfigurationsOf(variants[..n]) +
      if variants[n].configurationId.Some? then [variants[n].configurationId.value] else []
  }

  function AllConfigurations(assets: seq<Asset>): seq<string> {
    if assets == [] then []
    else AllConfigurations(assets[..|assets| - 1]) + ConfigurationsOf(assets[|assets| - 1].variants)
  }

  lemma {:induction false} ConfigurationListed(variants: seq<Variant>, v: Variant)
    requires v in variants && v.configurationId.Some?
    ensures v.configurationId.value in ConfigurationsOf(variants)
  {
    var n := |variants| - 1;
    if v != variants[n] {
      ConfigurationListed(variants[..n], v);
    }
  }

  lemma {:induction false} ConfigurationIsListed(assets: seq<Asset>, a: Asset, v: Variant)
    requires a in assets && v in a.variants && v.configurationId.Some?
    ensures v.configurationId.value in AllConfigurations(assets)
  {
    var n := |assets| - 1;
    if a == assets[n] {
      ConfigurationListed(a.variants, v);
    } else {
      ConfigurationIsListed(assets[..n], a, v);
    }
  }

  function Without(ids: seq<string>, id: string): (r: seq<string>)
    ensures forall x :: x in r <==> x in ids && x != id
  {
    if ids == [] then [] else (if ids[0] == id then [] else [ids[0]]) + Without(ids[1..], id)
  }

  function IdsOf(assets: seq<Asset>): (r: set<string>)
    ensures forall a :: a in assets ==> a.id in r
  {
    set a | a in assets :: a.id
  }

  /** All configurations of all assets were revealed, but for one of one asset. */
  function AllRevealedBut(assets: seq<Asset>, assetId: string, configurationId: string): map<string, seq<string>> {
    var all := Dedupe(AllConfigurations(assets));
    map x | x in IdsOf(assets) :: if x == assetId then Without(all, configurationId) else all
  }

  /** Enough to count as observed. */
  function Enough(c: Config): real {
    Max(c.observedThreshold, 0.5)
  }

  /** A profile in which one value has been seen everywhere, on the given asset, and one technique
      with some confidence. */
  function SeenEverywhere(value: string, assetId: string, technique: string, confidence: real): Profile {
    Profile([(technique, confidence)], [value], [value], ["e1"], [value], [value], [value], [value], [value], [value],
            [assetId, value])
  }

  function MarkerValue(v: Variant, i: nat): string {
    if i < |v.requiredMarkers| then v.requiredMarkers[i].value else ""
  }

  function TargetProfile(c: Config, assets: seq<Asset>, a: Asset, v: Variant, i: nat): Profile
    requires CanBeRevealed(assets, a, v)
  {
    SeenEverywhere(MarkerValue(v, i), a.id, CoveredBy(assets, v)[0], Enough(c))
  }

  /** A scene in which the given variant is the one configuration that is left. */
  function TargetScene(
      c: Config, assets: seq<Asset>, a: Asset, v: Variant, unlocked: seq<string>, i: nat, recommendations: Scores)
    : Scene
    requires CanBeRevealed(assets, a, v)
  {
    Scene(c, Request(TargetProfile(c, assets, a, v, i), unlocked,
                     AllRevealedBut(assets, a.id, v.configurationId.value)),
          [CoveredBy(assets, v)[0]], recommendations)
  }

  /** The marker with that index is one the profile shows, if any is asked for. */
  predicate ShowsMarker(v: Variant, i: nat) {
    v.requiredMarkers == [] || (i < |v.requiredMarkers| && v.requiredMarkers[i].key in KNOWN_KEYS)
  }

  lemma SomeMarkerShows(assets: seq<Asset>, a: Asset, v: Variant) returns (i: nat)
    requires CanBeRevealed(assets, a, v)
    ensures ShowsMarker(v, i)
  {
    i := 0;
    if v.requiredMarkers != [] {
      i :| 0 <= i < |v.requiredMarkers| && v.requiredMarkers[i].key in KNOWN_KEYS;
    }
  }

  lemma MarkerIsSeen(v: Variant, i: nat, assetId: string, technique: string, confidence: real)
    requires i < |v.requiredMarkers| && v.requiredMarkers[i].key in KNOWN_KEYS
    ensures var p := SeenEverywhere(MarkerValue(v, i), assetId, technique, confidence);
      Dedupe(ExactMarkers(v.requiredMarkers, p)) != []
  {
    var p := SeenEverywhere(MarkerValue(v, i), assetId, technique, confidence);
    ExactMarkersMembers(v.requiredMarkers, p);
    KeyIsKnown(p, v.requiredMarkers[i].key);
    assert v.requiredMarkers[i] in v.requiredMarkers && WasObserved(p, v.requiredMarkers[i]);
    assert v.requiredMarkers[i] in Dedupe(ExactMarkers(v.requiredMarkers, p));
  }

  /** The target is offered, and not gated by anything but being unlocked already. */
  ghost predicate Reachable(assets: seq<Asset>, a: Asset, v: Variant, unlocked: seq<string>) {
    && CanBeRevealed(assets, a, v) && a.id in unlocked
    && (v.target.value == a.id || v.target.value !in unlocked)
  }

  lemma TargetIsOffered(s: Scene, assets: seq<Asset>, a: Asset, v: Variant, unlocked: seq<string>, i: nat)
    requires Reachable(assets, a, v, unlocked) && ShowsMarker(v, i)
    requires s == TargetScene(s.config, assets, a, v, unlocked, i, s.recommendations)
    ensures var o := VariantOption(a, v, assets, s.request, unlocked);
      o.Some? && o.value.kind.ConfigureAsset? && o.value.variant == Some(v) && o.value.covered == CoveredBy(assets, v)
  {
    if v.requiredMarkers != [] {
      MarkerIsSeen(v, i, a.id, CoveredBy(assets, v)[0], Enough(s.config));
    }
    assert s.request.profile.assetIds[0] == a.id;
    assert VisibleOnActivePath(a.id, v, s.request.profile.assetIds);
    assert a.id in s.request.revealed;
  }

  /** No other option is left when the cap is reached. */
  lemma OnlyTargetIsOption(
      s: Scene, assets: seq<Asset>, a: Asset, v: Variant, unlocked: seq<string>, i: nat, o: RevealOption)
    requires DistinctAssets(assets) && DistinctConfigurations(assets) && CanBeRevealed(assets, a, v)
    requires s == TargetScene(s.config, assets, a, v, unlocked, i, s.recommendations)
    requires s.config.unlockCap <= |unlocked| && IsOption(s.config, assets, s.request, unlocked, o)
    ensures o.variant == Some(v) && o.asset == a
  {
    NoUnlockAtCap(s, assets, unlocked);
    var b :| b in assets && b.id in unlocked && FromVariant(o, b, assets, s.request, unlocked);
    var w :| w in b.variants && VariantOption(b, w, assets, s.request, unlocked) == Some(o);
    OtherIsRevealed(s.request, assets, a, v, b, w, unlocked);
    assert b == a && SameConfiguration(v, w);
    VariantIsOf(b, w, assets, s.request, unlocked);
  }

  lemma NoUnlockAtCap(s: Scene, assets: seq<Asset>, unlocked: seq<string>)
    requires s.config.unlockCap <= |unlocked|
    ensures forall a :: !Offers(s.config, a, s.request, unlocked)
  {
  }

  lemma OtherIsRevealed(
      req: Request, assets: seq<Asset>, a: Asset, v: Variant, b: Asset, w: Variant, planned: seq<string>)
    requires v.configurationId.Some? && req.revealed == AllRevealedBut(assets, a.id, v.configurationId.value)
    requires b in assets && w in b.variants && VariantOption(b, w, assets, req, planned).Some?
    ensures b.id == a.id && w.configurationId == v.configurationId
  {
    VariantIsKept(b, w, assets, req, planned);
    ConfigurationIsListed(assets, b, w);
    assert b.id in req.revealed;
  }

  lemma VariantIsOf(source: Asset, v: Variant, all: seq<Asset>, req: Request, planned: seq<string>)
    requires VariantOption(source, v, all, req, planned).Some?
    ensures var o := VariantOption(source, v, all, req, planned).value; o.variant == Some(v) && o.asset == source
  {
  }

  lemma TargetScores(s: Scene, o: RevealOption, technique: string)
    requires o.kind.ConfigureAsset? && technique in o.covered
    requires s.request.profile.confidences == [(technique, Enough(s.config))] && s.observed == [technique]
    ensures ScoreOption(s, o, Exploit, None).Some?
  {
    assert ScoreOf([(technique, Enough(s.config))], technique) == Enough(s.config) > 0.0;
    assert SameFamily(technique, s.observed[0]);
    assert Counts(s, o, None, technique);
    CountingIsAll(s, o, None, Dedupe(o.covered));
  }

  lemma TargetIsCandidate(s: Scene, assets: seq<Asset>, a: Asset, v: Variant, unlocked: seq<string>, i: nat)
    returns (x: Candidate)
    requires Reachable(assets, a, v, unlocked) && ShowsMarker(v, i)
    requires s == TargetScene(s.config, assets, a, v, unlocked, i, s.recommendations)
    ensures IsCandidate(s, assets, unlocked, Exploit, None, x)
  {
    TargetIsOffered(s, assets, a, v, unlocked, i);
    var o := VariantOption(a, v, assets, s.request, unlocked).value;
    assert FromVariant(o, a, assets, s.request, unlocked);
    TargetScores(s, o, CoveredBy(assets, v)[0]);
    x := ScoreOption(s, o, Exploit, None).value;
    ScoredTechnique(s, o, Exploit, None);
  }

  lemma TargetSceneFacts(
      c: Config, assets: seq<Asset>, a: Asset, v: Variant, unlocked: seq<string>, i: nat, recommendations: Scores)
    requires CanBeRevealed(assets, a, v)
    ensures var s := TargetScene(c, assets, a, v, unlocked, i, recommendations);
      && s.observed == ThresholdedObserved(c, s.request.profile.confidences) == [CoveredBy(assets, v)[0]]
      && !ScannerOnly(s.request.profile)
  {
    var technique := CoveredBy(assets, v)[0];
    assert ThresholdedObserved(c, [(technique, Enough(c))]) == [technique];
    assert TargetProfile(c, assets, a, v, i).publicIndicators != [];
  }

  lemma TargetIsMain(s: Scene, assets: seq<Asset>, a: Asset, v: Variant, unlocked: seq<string>, i: nat)
    requires DistinctAssets(assets) && DistinctConfigurations(assets) && Reachable(assets, a, v, unlocked)
    requires s == TargetScene(s.config, assets, a, v, unlocked, i, s.recommendations) && ShowsMarker(v, i)
    requires s.config.unlockCap <= |unlocked|
    ensures Decide(s, assets).main.Some? && Decide(s, assets).main.value.option.variant == Some(v)
    ensures Decide(s, assets).main.value.option.asset == a
    ensures Decide(s, assets).explore.None?
  {
    var x := TargetIsCandidate(s, assets, a, v, unlocked, i);
    TargetSceneFacts(s.config, assets, a, v, unlocked, i, s.recommendations);
    MainIsBest(s, assets);
    OnlyTargetIsOption(s, assets, a, v, unlocked, i, Decide(s, assets).main.value.option);
    OneFamilyNeverExplores(s, assets, CoveredBy(assets, v)[0]);
  }

  /** With any configuration of the controller, and whatever is unlocked once the cap is reached,
      there is a tick that exposes the target. */
  lemma TargetTick(c: Config, assets: seq<Asset>, a: Asset, v: Variant, unlocked: seq<string>) returns (s: Scene)
    requires DistinctAssets(assets) && DistinctConfigurations(assets) && Reachable(assets, a, v, unlocked)
    requires c.unlockCap <= |unlocked|
    ensures IsScene(s) && s.request.unlocked == unlocked && s.config == c
    ensures Decide(s, assets).main.Some? && Decide(s, assets).main.value.option.variant == Some(v)
    ensures UnlockedAfter(s, assets) == AppendNew(unlocked, [v.target.value])
  {
    var i := SomeMarkerShows(assets, a, v);
    s := TargetScene(c, assets, a, v, unlocked, i, []);
    TargetIsMain(s, assets, a, v, unlocked, i);
    TargetSceneFacts(c, assets, a, v, unlocked, i, []);
  }

  lemma OneFamilyNeverExplores(s: Scene, assets: seq<Asset>, technique: string)
    requires s.observed == [technique]
    ensures Decide(s, assets).explore.None?
  {
    var family := Family(technique);
    assert [family][1..] == [] && AppendNew([], [family]) == AppendNew([family], []);
    assert Families([technique]) == Families([]) + [family] == [family];
    ExploreTakesNewDirection(s, assets);
  }

  // ----- Fresh names -----

  function Longest(names: seq<string>): (r: nat)
    ensures forall n :: n in names ==> |n| <= r
  {
    if names == [] then 0
    else
      var r := Longest(names[1..]);
      if |names[0]| > r then |names[0]| else r
  }

  /** So many different names, all longer than the given length. */
  function Padding(count: nat, length: nat): (r: seq<string>)
    ensures |r| == count && Distinct(r)
    ensures forall n :: n in r ==> |n| > length
  {
    var r := seq(count, (i: nat) => seq(length + 1 + i, _ => 'x'));
    assert forall i :: 0 <= i < count ==> |r[i]| == length + 1 + i;
    r
  }

  function IdsIn(assets: seq<Asset>): (r: seq<string>)
    ensures forall a :: a in assets ==> a.id in r
  {
    if assets == [] then [] else [assets[0].id] + IdsIn(assets[1..])
  }

  /** The given assets and so many others, which no asset of the catalogue has anything to do with,
      that the cap is reached. */
  ghost function Padded(assets: seq<Asset>, unlocked: seq<string>, target: string, cap: int): (r: seq<string>)
    requires Distinct(unlocked)
    ensures |r| == (if cap > |unlocked| then cap else |unlocked|) && Distinct(r) && unlocked <= r
    ensures target in r <==> target in unlocked
    ensures forall a :: a in assets ==> (a.id in r <==> a.id in unlocked)
    ensures forall a, d :: a in assets && d in a.dependencies ==> (d in r <==> d in unlocked)
  {
    var names := IdsIn(assets) + AllDependencies(assets) + unlocked + [target];
    var padding := Padding(if cap > |unlocked| then cap - |unlocked| else 0, Longest(names));
    PaddedApart(assets, unlocked, target, names, padding);
    unlocked + padding
  }

  lemma PaddedApart(
      assets: seq<Asset>, unlocked: seq<string>, target: string, names: seq<string>, padding: seq<string>)
    requires names == IdsIn(assets) + AllDependencies(assets) + unlocked + [target] && Distinct(unlocked)
    requires Distinct(padding) && forall n :: n in padding ==> |n| > Longest(names)
    ensures Distinct(unlocked + padding) && target !in padding
    ensures forall a :: a in assets ==> a.id !in padding
    ensures forall a, d :: a in assets && d in a.dependencies ==> d !in padding
  {
    forall a, d | a in assets && d in a.dependencies ensures d !in padding {
      var i :| 0 <= i < |assets| && assets[i] == a;
      assert NeedsNext(assets, a.id, d);
      NextIsDependency(assets, a.id, d);
      assert d in names;
    }
    forall a | a in assets ensures a.id !in padding {
      assert a.id in names;
    }
    assert target in names;
    forall i, j | 0 <= i < |unlocked| && 0 <= j < |padding| ensures unlocked[i] != padding[j] {
      assert unlocked[i] in names && padding[j] in padding;
    }
  }

  lemma PaddedIsClosed(assets: seq<Asset>, unlocked: seq<string>, target: string, cap: int)
    requires Distinct(unlocked) && Closed(assets, unlocked)
    ensures Closed(assets, Padded(assets, unlocked, target, cap))
  {
  }

  // ----- Main results -----

  /** What the source needs, and enough others to reach the cap. */
  ghost function JustNeeded(assets: seq<Asset>, a: Asset, target: string, cap: int): (r: seq<string>)
    ensures Distinct(r) && |r| >= cap
  {
    AppendNewDistinct([], Closure(assets, a.id));
    Padded(assets, Dedupe(Closure(assets, a.id)), target, cap)
  }

  lemma JustNeededFacts(assets: seq<Asset>, a: Asset, target: string, cap: int)
    requires a in assets
    ensures var r := JustNeeded(assets, a, target, cap);
      && Closed(assets, r) && a.id in r && (target in r <==> Needs(assets, a.id, target))
      && forall b, d :: b in assets && d in b.dependencies ==> (d in r <==> Needs(assets, a.id, d))
  {
    var unlocked := Dedupe(Closure(assets, a.id));
    ClosureIsClosed(assets, a.id);
    AppendNewDistinct([], Closure(assets, a.id));
    assert Closed(assets, unlocked);
    PaddedIsClosed(assets, unlocked, target, cap);
    forall x ensures x in unlocked <==> Needs(assets, a.id, x) {
      ClosureMembers(assets, a.id, x);
    }
  }

  /** A target that is not covered is missing a dependency when just what its source needs is
      unlocked. */
  lemma UncoveredIsUnmet(assets: seq<Asset>, a: Asset, v: Variant, cap: int)
    requires CanBeRevealed(assets, a, v) && !CoversTarget(assets, a, v)
    ensures var r := JustNeeded(assets, a, v.target.value, cap);
      Reachable(assets, a, v, r) && Closed(assets, r) && !Closed(assets, AppendNew(r, [v.target.value]))
  {
    var t, target := TargetOf(assets, v), v.target.value;
    var r := JustNeeded(assets, a, target, cap);
    JustNeededFacts(assets, a, target, cap);
    var d :| d in t.dependencies && d != target && !Needs(assets, a.id, d);
    var k :| 0 <= k < |assets| && assets[k] == t;
    if target in r {
      NeedsFurther(assets, a.id, target, d);
    }
    AppendKeepsClosed(assets, r, target);
  }

  lemma ClosedAfterMeansCovered(c: Config, assets: seq<Asset>, a: Asset, v: Variant)
    requires DistinctAssets(assets) && DistinctConfigurations(assets) && TicksKeepClosed(c, assets)
    requires CanBeRevealed(assets, a, v)
    ensures CoversTarget(assets, a, v)
  {
    if !CoversTarget(assets, a, v) {
      UncoveredIsUnmet(assets, a, v, c.unlockCap);
      var s := TargetTick(c, assets, a, v, JustNeeded(assets, a, v.target.value, c.unlockCap));
      assert false;
    }
  }

  /** Main result: whatever the configuration of the controller, every tick keeps what is unlocked
      closed under dependencies, in every situation, exactly when every target that can be revealed
      needs only what its source needs. */
  lemma TicksKeepClosedIff(c: Config, assets: seq<Asset>)
    requires DistinctAssets(assets) && DistinctConfigurations(assets)
    ensures TicksKeepClosed(c, assets) <==> TargetsCovered(assets)
  {
    if TargetsCovered(assets) {
      forall s | IsScene(s) && s.config == c && Closed(assets, s.request.unlocked)
        ensures Closed(assets, UnlockedAfter(s, assets))
      {
        TickKeepsClosed(s, assets);
      }
    }
    if TicksKeepClosed(c, assets) {
      forall a, v | CanBeRevealed(assets, a, v) ensures CoversTarget(assets, a, v) {
        ClosedAfterMeansCovered(c, assets, a, v);
      }
    }
  }

  /** A target that is not its own source can be reached with just the cap unlocked. */
  lemma ForeignIsReachable(assets: seq<Asset>, a: Asset, v: Variant, cap: int)
    requires CanBeRevealed(assets, a, v) && v.target.value != a.id && cap > 0
    ensures var r := Padded(assets, [a.id], v.target.value, cap);
      Reachable(assets, a, v, r) && |r| == cap && |AppendNew(r, [v.target.value])| == cap + 1
  {
    AddingKnown(Padded(assets, [a.id], v.target.value, cap), v.target.value);
  }

  lemma CapAfterMeansOwn(c: Config, assets: seq<Asset>, a: Asset, v: Variant)
    requires DistinctAssets(assets) && DistinctConfigurations(assets) && TicksKeepCap(c, assets) && c.unlockCap > 0
    requires CanBeRevealed(assets, a, v)
    ensures v.target.value == a.id
  {
    if v.target.value != a.id {
      ForeignIsReachable(assets, a, v, c.unlockCap);
      var s := TargetTick(c, assets, a, v, Padded(assets, [a.id], v.target.value, c.unlockCap));
      assert false;
    }
  }

  /** Main result: whatever the configuration of the controller, every tick stays within the cap, in
      every situation within it, exactly when there is no room at all or every target that can be
      revealed is its own source. */
  lemma TicksKeepCapIff(c: Config, assets: seq<Asset>)
    requires DistinctAssets(assets) && DistinctConfigurations(assets)
    ensures TicksKeepCap(c, assets) <==> c.unlockCap <= 0 || OwnTargets(assets)
  {
    if c.unlockCap <= 0 || OwnTargets(assets) {
      forall s | IsScene(s) && s.config == c && |s.request.unlocked| <= c.unlockCap
        ensures |UnlockedAfter(s, assets)| <= c.unlockCap
      {
        if c.unlockCap <= 0 {
          NothingWithoutCap(s, assets);
        } else {
          TickKeepsCap(s, assets);
        }
      }
    }
    if TicksKeepCap(c, assets) && c.unlockCap > 0 {
      forall a, v | CanBeRevealed(assets, a, v) ensures v.target.value == a.id {
        CapAfterMeansOwn(c, assets, a, v);
      }
    }
  }

  // ----- Instances -----

  function Plain(id: string, dependencies: seq<string>, covered: seq<string>, variants: seq<Variant>): Asset {
    Asset(id, true, true, dependencies, true, [], [], covered, 0.0, "web", variants, [])
  }

  const PORTAL := Variant(Some("portal"), Some("vault"), [], [], [], None, None)

  /** The wiki leads on to the vault. */
  function Catalogue(dependencies: seq<string>): seq<Asset> {
    [Plain("wiki", [], [], [PORTAL]), Plain("vault", dependencies, ["T1005"], [])]
  }

  lemma CatalogueFacts(dependencies: seq<string>)
    ensures var assets := Catalogue(dependencies);
      && DistinctAssets(assets) && DistinctConfigurations(assets) && CanBeRevealed(assets, assets[0], PORTAL)
      && TargetOf(assets, PORTAL) == assets[1]
      && forall a, v :: CanBeRevealed(assets, a, v) ==> a == assets[0] && v == PORTAL
  {
    var assets := Catalogue(dependencies);
    assert forall a :: a in assets <==> a == assets[0] || a == assets[1];
    assert FindAsset(assets, "vault") == Some(assets[1]);
  }

  /** A tick whose main reveal exposes an asset with a missing dependency although the cap on
      unlocked assets is reached. */
  lemma TargetsBypassGates() returns (s: Scene)
    ensures var assets := Catalogue(["vpn"]);
      && IsScene(s) && s.request.unlocked == ["wiki"] && s.config == Config(0.5, 1, false)
      && Decide(s, assets).main.Some? && ExposedId(Decide(s, assets).main.value) == assets[1].id
      && assets[1].id !in s.request.unlocked && !DependenciesMet(assets[1], s.request.unlocked)
  {
    var assets := Catalogue(["vpn"]);
    CatalogueFacts(["vpn"]);
    s := TargetTick(Config(0.5, 1, false), assets, assets[0], PORTAL, ["wiki"]);
    assert assets[1].dependencies[0] !in ["wiki"];
  }

  /** A catalogue that is harmless for the dependencies and not for the cap. */
  lemma CoveredTargetPassesCap()
    ensures TargetsCovered(Catalogue([])) && !TicksKeepCap(Config(0.5, 1, false), Catalogue([]))
  {
    CatalogueFacts([]);
    TicksKeepCapIff(Config(0.5, 1, false), Catalogue([]));
  }
}
