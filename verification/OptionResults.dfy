/** Which unlocks and configurations a controller pass has to choose from, in terms of the catalogue,
    the profile and what is open already. */
module OptionResults {
  import opened Wrappers
  import opened Iterables
  import opened Scoring
  import opened Controller
  import opened ControllerProperties
  import opened ScoreResults

  // ----- Signals -----

  /** The profile has the value under the key, exactly. */
  ghost predicate Has(p: Profile, key: string, value: string) {
    || (key == "any_http_paths" && value in p.publicPaths)
    || (key == "any_http_rules" && value in p.publicRules)
    || (key == "any_http_indicators" && value in p.publicIndicators)
    || (key == "any_internal_http_paths" && value in p.internalPaths)
    || (key == "any_internal_http_rules" && value in p.internalRules)
    || (key == "any_internal_http_indicators" && value in p.internalIndicators)
    || (key == "any_asset_ids" && value in p.assetIds)
    || (key == "any_techniques" && value in p.techniques)
    || (key == "any_tactics" && value in p.tactics)
  }

  predicate IsKnown(key: string) {
    key in ["any_http_paths", "any_http_rules", "any_http_indicators", "any_internal_http_paths",
            "any_internal_http_rules", "any_internal_http_indicators", "any_asset_ids", "any_techniques",
            "any_tactics"]
  }

  /** Of techniques, also one of the same family. */
  ghost predicate Shows(p: Profile, key: string, value: string) {
    Has(p, key, value) || (key == "any_techniques" && exists x :: x in p.techniques && SameRoot(x, value))
  }

  lemma ObservedIff(p: Profile, key: string)
    ensures Observed(p, key).Some? <==> IsKnown(key)
    ensures Observed(p, key).Some? ==> forall v :: v in Observed(p, key).value <==> Has(p, key, v)
    ensures key == "any_techniques" ==> Observed(p, key) == Some(p.techniques)
  {
  }

  lemma OneMatches(p: Profile, key: string, value: string)
    requires Observed(p, key).Some?
    ensures SignalsMatch(Observed(p, key).value, [value], key) <==> Shows(p, key, value)
  {
    ObservedIff(p, key);
    var observed := Observed(p, key).value;
    assert [value][0] == value;
    if i :| 0 <= i < |observed| && SameFamily(observed[i], value) {
      SameFamilyIff(observed[i], value);
      assert observed[i] in observed;
    }
    if x :| x in observed && SameRoot(x, value) {
      var i :| 0 <= i < |observed| && observed[i] == x;
      SameFamilyIff(observed[i], value);
      assert SameFamily(observed[i], [value][0]);
    }
  }

  ghost predicate AnyShown(p: Profile, key: string, values: seq<string>) {
    exists v :: v in values && Shows(p, key, v)
  }

  lemma MatchIff(p: Profile, key: string, values: seq<string>)
    requires Observed(p, key).Some?
    ensures SignalsMatch(Observed(p, key).value, values, key) <==> AnyShown(p, key, values)
  {
    ObservedIff(p, key);
    var observed := Observed(p, key).value;
    if i :| 0 <= i < |values| && values[i] in observed {
      assert values[i] in values && Shows(p, key, values[i]);
    }
    if i, j :| 0 <= i < |observed| && 0 <= j < |values| && SameFamily(observed[i], values[j]) {
      SameFamilyIff(observed[i], values[j]);
      if key == "any_techniques" {
        assert observed[i] in p.techniques;
        assert values[j] in values && Shows(p, key, values[j]);
      }
    }
    if v :| v in values && Shows(p, key, v) {
      var j :| 0 <= j < |values| && values[j] == v;
      if !Has(p, key, v) {
        var x :| x in p.techniques && SameRoot(x, v);
        var i :| 0 <= i < |observed| && observed[i] == x;
        SameFamilyIff(observed[i], values[j]);
      }
    }
  }

  /** The attacker did something that the asset waits for. Without signals anything will do; signals
      without values, or of unknown keys, ask for nothing. */
  ghost predicate IsCalledFor(a: Asset, p: Profile) {
    if a.unlockSignals == [] then p.evidenceIds != [] || p.techniques != []
    else
      || (forall x :: x in a.unlockSignals ==> !IsKnown(x.0) || x.1 == [])
      || exists x :: x in a.unlockSignals && IsKnown(x.0) && AnyShown(p, x.0, x.1)
  }

  lemma CalledForIff(a: Asset, p: Profile)
    ensures MatchesUnlockSignals(a, p) <==> IsCalledFor(a, p)
  {
    var signals := a.unlockSignals;
    forall i | 0 <= i < |signals|
      ensures signals[i] in signals
      ensures ConfiguredSignal(p, signals[i]) <==> IsKnown(signals[i].0) && signals[i].1 != []
      ensures IsKnown(signals[i].0) ==>
        Observed(p, signals[i].0).Some?
        && (SignalsMatch(Observed(p, signals[i].0).value, signals[i].1, signals[i].0) <==>
            AnyShown(p, signals[i].0, signals[i].1))
    {
      ObservedIff(p, signals[i].0);
      if IsKnown(signals[i].0) {
        MatchIff(p, signals[i].0, signals[i].1);
      }
    }
    if x :| x in signals && IsKnown(x.0) && AnyShown(p, x.0, x.1) {
      var i :| 0 <= i < |signals| && signals[i] == x;
      assert signals[i].1 != [];
    }
  }

  // ----- Markers -----

  ghost predicate IsMarkerOf(signals: seq<(string, seq<string>)>, p: Profile, m: Marker) {
    exists x :: x in signals && x.0 == m.key && IsKnown(m.key) && m.value in x.1 && Shows(p, m.key, m.value)
  }

  lemma {:induction false} MatchedValuesMembers(p: Profile, key: string, values: seq<string>, m: Marker)
    requires Observed(p, key).Some?
    ensures m in MatchedValues(p, key, values) <==> m.key == key && m.value in values && Shows(p, key, m.value)
  {
    if values != [] {
      var n := |values| - 1;
      MatchedValuesMembers(p, key, values[..n], m);
      OneMatches(p, key, values[n]);
      assert values == values[..n] + [values[n]];
    }
  }

  lemma {:induction false} MatchedSignalsMembers(p: Profile, signals: seq<(string, seq<string>)>, m: Marker)
    ensures m in MatchedSignals(p, signals) <==> IsMarkerOf(signals, p, m)
  {
    if signals != [] {
      var n := |signals| - 1;
      MatchedSignalsMembers(p, signals[..n], m);
      ObservedIff(p, signals[n].0);
      if Observed(p, signals[n].0).Some? {
        MatchedValuesMembers(p, signals[n].0, signals[n].1, m);
      }
      assert signals == signals[..n] + [signals[n]];
      assert signals[n] in signals;
    }
  }

  /** The markers of an unlock: the values that were seen, each once. */
  ghost predicate AreMarkersOf(markers: seq<Marker>, a: Asset, p: Profile) {
    && Distinct(markers)
    && forall m :: m in markers <==> IsMarkerOf(a.unlockSignals, p, m) || IsMarkerOf(a.optionalSignals, p, m)
  }

  lemma MarkersAre(a: Asset, p: Profile)
    ensures AreMarkersOf(MatchedMarkers(a, p), a, p)
  {
    AppendNewDistinct([], MatchedSignals(p, a.unlockSignals) + MatchedSignals(p, a.optionalSignals));
    forall m ensures m in MatchedMarkers(a, p) <==>
                     IsMarkerOf(a.unlockSignals, p, m) || IsMarkerOf(a.optionalSignals, p, m)
    {
      MatchedSignalsMembers(p, a.unlockSignals, m);
      MatchedSignalsMembers(p, a.optionalSignals, m);
    }
  }

  // ----- Unlocks -----

  /** The asset may be unlocked now. */
  ghost predicate MayUnlock(c: Config, a: Asset, req: Request, open: seq<string>) {
    && a.isInternal && a.isReady && a.runtimeAvailable && a.id !in open && |open| < c.unlockCap
    && (forall d :: d in a.dependencies ==> d in open)
    && (OpensPortal(a, req) || IsCalledFor(a, req.profile))
    && a.covered != []
  }

  lemma OffersIff(c: Config, a: Asset, req: Request, open: seq<string>)
    ensures Offers(c, a, req, open) <==> MayUnlock(c, a, req, open)
  {
    CalledForIff(a, req.profile);
    PortalIff(a, req);
    assert DependenciesMet(a, open) <==> forall d :: d in a.dependencies ==> d in open;
  }

  /** An open asset declares it as its upgrade, for anything or for a concrete marker that was matched. */
  ghost predicate IsUpgradeOfOpen(a: Asset, assets: seq<Asset>, open: seq<string>, markers: seq<Marker>) {
    exists x, u :: x in assets && x.id in open && u in x.upgrades && u.assetId == a.id && Asks(u, markers)
  }

  ghost predicate Asks(u: Upgrade, markers: seq<Marker>) {
    u.requiredMarkers == [] ||
    exists m :: m in u.requiredMarkers && m in markers && m.key != "any_techniques" && m.key != "any_tactics"
  }

  lemma AppliesIff(u: Upgrade, a: Asset, markers: seq<Marker>)
    ensures UpgradeApplies(u, a, markers) <==> u.assetId == a.id && Asks(u, markers)
  {
    if m :| m in u.requiredMarkers && m in markers && m.key != "any_techniques" && m.key != "any_tactics" {
      var i :| 0 <= i < |u.requiredMarkers| && u.requiredMarkers[i] == m;
      assert u.requiredMarkers[i] in markers;
    }
  }

  lemma UpgradeIff(a: Asset, assets: seq<Asset>, open: seq<string>, markers: seq<Marker>)
    ensures HasUpgradeContext(a, assets, open, markers) <==> IsUpgradeOfOpen(a, assets, open, markers)
  {
    if i :| 0 <= i < |assets| && assets[i].id in open && Upgrades(assets[i], a, markers) {
      var j :| 0 <= j < |assets[i].upgrades| && UpgradeApplies(assets[i].upgrades[j], a, markers);
      AppliesIff(assets[i].upgrades[j], a, markers);
      assert assets[i] in assets && assets[i].upgrades[j] in assets[i].upgrades;
    }
    if x, u :| x in assets && x.id in open && u in x.upgrades && u.assetId == a.id && Asks(u, markers) {
      var i :| 0 <= i < |assets| && assets[i] == x;
      var j :| 0 <= j < |x.upgrades| && x.upgrades[j] == u;
      AppliesIff(u, a, markers);
      assert UpgradeApplies(assets[i].upgrades[j], a, markers);
      assert Upgrades(assets[i], a, markers);
    }
  }

  /** The option is to unlock the asset. */
  ghost predicate IsUnlockOf(o: RevealOption, a: Asset, assets: seq<Asset>, req: Request, open: seq<string>) {
    && o == RevealOption(a, UnlockAsset, a.covered, a.telemetry, o.markers, a.group, o.isUpgrade, None)
    && AreMarkersOf(o.markers, a, req.profile)
    && (o.isUpgrade <==> IsUpgradeOfOpen(a, assets, open, o.markers))
  }

  /** Main result on unlocks: an asset of the catalogue can be chosen for an unlock exactly if it may be
      unlocked. */
  lemma UnlockIsOptionIff(c: Config, assets: seq<Asset>, req: Request, open: seq<string>, a: Asset)
    ensures (exists o :: IsOption(c, assets, req, open, o) && o.kind == UnlockAsset && o.asset == a) <==>
            a in assets && MayUnlock(c, a, req, open)
    ensures forall o :: IsOption(c, assets, req, open, o) && o.kind == UnlockAsset ==>
              IsUnlockOf(o, o.asset, assets, req, open)
  {
    OffersIff(c, a, req, open);
    if a in assets && MayUnlock(c, a, req, open) {
      assert IsOption(c, assets, req, open, UnlockOption(a, assets, req, open));
    }
    forall o | IsOption(c, assets, req, open, o) && o.kind == UnlockAsset
      ensures o.asset in assets && Offers(c, o.asset, req, open) && IsUnlockOf(o, o.asset, assets, req, open)
    {
      UnlockStems(c, assets, req, open, o);
      MarkersAre(o.asset, req.profile);
      UpgradeIff(o.asset, assets, open, o.markers);
    }
  }

  lemma UnlockStems(c: Config, assets: seq<Asset>, req: Request, open: seq<string>, o: RevealOption)
    requires IsOption(c, assets, req, open, o) && o.kind == UnlockAsset
    ensures o.asset in assets && Offers(c, o.asset, req, open) && o == UnlockOption(o.asset, assets, req, open)
  {
    if a :| a in assets && a.id in req.unlocked && FromVariant(o, a, assets, req, open) {
      var v :| v in a.variants && VariantOption(a, v, assets, req, open) == Some(o);
    }
  }

  // ----- Rejections -----

  /** The first gate that the asset does not pass. */
  ghost predicate FailsAt(c: Config, a: Asset, req: Request, open: seq<string>, v: Verdict) {
    var met := forall d :: d in a.dependencies ==> d in open;
    var called := OpensPortal(a, req) || IsCalledFor(a, req.profile);
    match v
    case NotInternal => !a.isInternal
    case NotReady => a.isInternal && !a.isReady
    case AlreadyUnlocked => a.isInternal && a.isReady && a.id in open
    case CapReached => a.isInternal && a.isReady && a.id !in open && |open| >= c.unlockCap
    case MissingDependencies => a.isInternal && a.isReady && a.id !in open && |open| < c.unlockCap && !met
    case RuntimeUnavailable =>
      a.isInternal && a.isReady && a.id !in open && |open| < c.unlockCap && met && !a.runtimeAvailable
    case NoSignal =>
      a.isInternal && a.isReady && a.id !in open && |open| < c.unlockCap && met && a.runtimeAvailable && !called
    case Eligible =>
      a.isInternal && a.isReady && a.id !in open && |open| < c.unlockCap && met && a.runtimeAvailable && called
  }

  lemma VerdictIs(c: Config, a: Asset, req: Request, open: seq<string>)
    ensures FailsAt(c, a, req, open, Eligibility(c, a, req, open))
  {
    CalledForIff(a, req.profile);
    PortalIff(a, req);
    assert DependenciesMet(a, open) <==> forall d :: d in a.dependencies ==> d in open;
  }

  /** An asset of the catalogue is rejected for this reason, and no later one of its id for another. */
  ghost predicate IsRejectedAt(
      c: Config, assets: seq<Asset>, req: Request, open: seq<string>, id: string, v: Verdict, i: nat)
  {
    && i < |assets| && assets[i].id == id && v != Eligible && FailsAt(c, assets[i], req, open, v)
    && forall j :: i < j < |assets| && assets[j].id == id ==> FailsAt(c, assets[j], req, open, Eligible)
  }

  /** What a pass adds to the rejections, and what it keeps of the earlier ones. */
  ghost predicate AreRejected(
      c: Config, assets: seq<Asset>, req: Request, open: seq<string>, before: map<string, Verdict>,
      after: map<string, Verdict>, id: string, i: nat)
  {
    if forall a :: a in assets && a.id == id ==> FailsAt(c, a, req, open, Eligible) then
      (id in after <==> id in before) && (id in after ==> after[id] == before[id])
    else id in after && IsRejectedAt(c, assets, req, open, id, after[id], i)
  }

  lemma {:induction false} RejectedAre(
      c: Config, assets: seq<Asset>, req: Request, open: seq<string>, before: map<string, Verdict>, id: string)
    returns (i: nat)
    ensures AreRejected(c, assets, req, open, before, RejectedAfter(c, assets, req, open, before), id, i)
  {
    i := 0;
    if assets != [] {
      var n: nat := |assets| - 1;
      i := RejectedAre(c, assets[..n], req, open, before, id);
      var front := RejectedAfter(c, assets[..n], req, open, before);
      i := OneMoreRejected(c, assets, req, open, before, front, id, i);
    }
  }

  lemma OneMoreRejected(
      c: Config, assets: seq<Asset>, req: Request, open: seq<string>, before: map<string, Verdict>,
      front: map<string, Verdict>, id: string, i: nat) returns (k: nat)
    requires assets != [] && AreRejected(c, assets[..|assets| - 1], req, open, before, front, id, i)
    ensures var last := assets[|assets| - 1]; var verdict := Eligibility(c, last, req, open);
      AreRejected(c, assets, req, open, before, if verdict == Eligible then front else front[last.id := verdict], id, k)
  {
    var n: nat := |assets| - 1;
    VerdictIs(c, assets[n], req, open);
    k := i;
    if assets[n].id == id && Eligibility(c, assets[n], req, open) != Eligible {
      k := n;
      assert assets[n] in assets;
    } else {
      RejectedOfFront(c, assets, req, open, id);
    }
  }

  /** An asset that is eligible, or of another id, changes nothing. */
  lemma RejectedOfFront(c: Config, assets: seq<Asset>, req: Request, open: seq<string>, id: string)
    requires assets != []
    requires var last := assets[|assets| - 1]; last.id == id ==> FailsAt(c, last, req, open, Eligible)
    ensures var front := assets[..|assets| - 1];
      && ((forall a :: a in assets && a.id == id ==> FailsAt(c, a, req, open, Eligible)) <==>
          (forall a :: a in front && a.id == id ==> FailsAt(c, a, req, open, Eligible)))
      && forall v, i: nat :: IsRejectedAt(c, front, req, open, id, v, i) ==>
           IsRejectedAt(c, assets, req, open, id, v, i)
  {
    var n := |assets| - 1;
    assert assets == assets[..n] + [assets[n]];
  }

  // ----- Configurations -----

  /** The catalogue's entry for the id: of several the last. */
  ghost predicate IsEntry(assets: seq<Asset>, id: string, a: Asset) {
    exists i: nat :: IsLastAt(assets, id, a, i)
  }

  ghost predicate IsLastAt(assets: seq<Asset>, id: string, a: Asset, i: nat) {
    i < |assets| && assets[i] == a && a.id == id && forall j :: i < j < |assets| ==> assets[j].id != id
  }

  /** The variant of an open asset may be configured now, and `shown` is what it shows. */
  ghost predicate MayConfigure(
      source: Asset, v: Variant, shown: Asset, assets: seq<Asset>, req: Request, open: seq<string>) {
    && v.configurationId.Some?
    && (source.id in req.revealed ==> v.configurationId.value !in req.revealed[source.id])
    && (exists x :: x in req.profile.assetIds && (x == source.id || x in v.visibleFrom))
    && (v.requiredMarkers != [] ==> exists m :: m in v.requiredMarkers && Has(req.profile, m.key, m.value))
    && (if v.target.None? then shown == source
        else IsEntry(assets, v.target.value, shown) && shown.runtimeAvailable
             && (shown.id == source.id || shown.id !in open))
  }

  /** The option is to configure the variant. */
  ghost predicate IsConfigurationOf(o: RevealOption, source: Asset, v: Variant, shown: Asset, req: Request) {
    && o.asset == source && o.kind == ConfigureAsset && o.variant == Some(v)
    && o.covered == (if v.covered != [] then v.covered else shown.covered)
    && o.telemetry == (if v.telemetry.Some? then v.telemetry.value else shown.telemetry)
    && o.group == shown.group && (o.isUpgrade <==> v.target.Some?)
    && Distinct(o.markers)
    && forall m :: m in o.markers <==> m in v.requiredMarkers && Has(req.profile, m.key, m.value)
  }

  lemma WasObservedIff(p: Profile, m: Marker)
    ensures WasObserved(p, m) <==> Has(p, m.key, m.value)
  {
    ObservedIff(p, m.key);
  }

  lemma ExactMarkersAre(v: Variant, p: Profile)
    ensures var markers := Dedupe(ExactMarkers(v.requiredMarkers, p));
      Distinct(markers) && forall m :: m in markers <==> m in v.requiredMarkers && Has(p, m.key, m.value)
  {
    ExactMarkersMembers(v.requiredMarkers, p);
    AppendNewDistinct([], ExactMarkers(v.requiredMarkers, p));
    forall m ensures WasObserved(p, m) <==> Has(p, m.key, m.value) {
      WasObservedIff(p, m);
    }
  }

  lemma VisibleIff(id: string, v: Variant, active: seq<string>)
    ensures VisibleOnActivePath(id, v, active) <==> exists x :: x in active && (x == id || x in v.visibleFrom)
  {
    if x :| x in active && (x == id || x in v.visibleFrom) {
      var i :| 0 <= i < |active| && active[i] == x;
    }
    if i :| 0 <= i < |active| && (active[i] == id || active[i] in v.visibleFrom) {
      assert active[i] in active;
    }
  }

  lemma {:induction false} EntryIsFound(assets: seq<Asset>, id: string, a: Asset)
    ensures IsEntry(assets, id, a) <==> FindAsset(assets, id) == Some(a)
  {
    if assets != [] {
      var n := |assets| - 1;
      if assets[n].id == id {
        assert IsLastAt(assets, id, assets[n], n);
        assert forall i: nat :: IsLastAt(assets, id, a, i) ==> i == n;
      } else {
        EntryIsFound(assets[..n], id, a);
        EntryOfFront(assets, id, a);
      }
    }
  }

  lemma EntryOfFront(assets: seq<Asset>, id: string, a: Asset)
    requires assets != [] && assets[|assets| - 1].id != id
    ensures IsEntry(assets, id, a) <==> IsEntry(assets[..|assets| - 1], id, a)
  {
    var front := assets[..|assets| - 1];
    if i: nat :| IsLastAt(front, id, a, i) {
      assert IsLastAt(assets, id, a, i);
    }
    if i: nat :| IsLastAt(assets, id, a, i) {
      assert IsLastAt(front, id, a, i);
    }
  }

  lemma VariantOptionIff(source: Asset, v: Variant, shown: Asset, assets: seq<Asset>, req: Request, open: seq<string>)
    requires if v.target.None? then shown == source else FindAsset(assets, v.target.value) == Some(shown)
    ensures var o := VariantOption(source, v, assets, req, open);
      && (o.Some? <==> MayConfigure(source, v, shown, assets, req, open))
      && (o.Some? ==> IsConfigurationOf(o.value, source, v, shown, req))
  {
    var markers := Dedupe(ExactMarkers(v.requiredMarkers, req.profile));
    ExactMarkersAre(v, req.profile);
    VisibleIff(source.id, v, req.profile.assetIds);
    if markers != [] {
      assert markers[0] in markers;
    }
    if v.target.Some? {
      EntryIsFound(assets, v.target.value, shown);
    }
  }

  /** What the variant would show, if there is such a thing. */
  lemma ShownBy(source: Asset, v: Variant, assets: seq<Asset>, req: Request, open: seq<string>) returns (shown: Asset)
    ensures (v.target.Some? ==> FindAsset(assets, v.target.value).Some?) ==>
            if v.target.None? then shown == source else FindAsset(assets, v.target.value) == Some(shown)
    ensures v.target.Some? && FindAsset(assets, v.target.value).None? ==>
            VariantOption(source, v, assets, req, open) == None && forall x :: !IsEntry(assets, v.target.value, x)
  {
    shown := source;
    if v.target.Some? {
      var found := FindAsset(assets, v.target.value);
      if found.Some? {
        shown := found.value;
      } else {
        forall x ensures !IsEntry(assets, v.target.value, x) {
          EntryIsFound(assets, v.target.value, x);
        }
      }
    }
  }

  ghost predicate IsConfigurable(
      source: Asset, v: Variant, assets: seq<Asset>, req: Request, open: seq<string>) {
    exists shown :: MayConfigure(source, v, shown, assets, req, open)
  }

  lemma ConfigurableIff(source: Asset, v: Variant, assets: seq<Asset>, req: Request, open: seq<string>)
    ensures var o := VariantOption(source, v, assets, req, open);
      && (o.Some? <==> IsConfigurable(source, v, assets, req, open))
      && (o.Some? ==> exists shown :: MayConfigure(source, v, shown, assets, req, open)
                                      && IsConfigurationOf(o.value, source, v, shown, req))
  {
    var shown := ShownBy(source, v, assets, req, open);
    if v.target.None? || FindAsset(assets, v.target.value).Some? {
      VariantOptionIff(source, v, shown, assets, req, open);
      forall x | MayConfigure(source, v, x, assets, req, open) ensures x == shown {
        if v.target.Some? {
          EntryIsFound(assets, v.target.value, x);
        }
      }
    }
  }

  /** Main result on configurations: a variant of an open asset can be chosen exactly if it may be
      configured. */
  lemma ConfigurationIsOptionIff(
      c: Config, assets: seq<Asset>, req: Request, open: seq<string>, source: Asset, v: Variant)
    ensures (exists o :: IsOption(c, assets, req, open, o) && o.kind == ConfigureAsset && o.asset == source
                         && o.variant == Some(v)) <==>
            source in assets && source.id in req.unlocked && v in source.variants
            && IsConfigurable(source, v, assets, req, open)
  {
    ConfigurableIff(source, v, assets, req, open);
    if o :| IsOption(c, assets, req, open, o) && o.kind == ConfigureAsset && o.asset == source && o.variant == Some(v) {
      ConfigurationStems(c, assets, req, open, o);
    }
    if source in assets && source.id in req.unlocked && v in source.variants
       && IsConfigurable(source, v, assets, req, open) {
      var o := VariantOption(source, v, assets, req, open).value;
      assert FromVariant(o, source, assets, req, open);
      assert IsOption(c, assets, req, open, o);
    }
  }

  lemma ConfigurationStems(c: Config, assets: seq<Asset>, req: Request, open: seq<string>, o: RevealOption)
    requires IsOption(c, assets, req, open, o) && o.kind == ConfigureAsset
    ensures o.asset in assets && o.asset.id in req.unlocked && o.variant.Some? && o.variant.value in o.asset.variants
    ensures VariantOption(o.asset, o.variant.value, assets, req, open) == Some(o)
  {
    var a :| a in assets && a.id in req.unlocked && FromVariant(o, a, assets, req, open);
    var v :| v in a.variants && VariantOption(a, v, assets, req, open) == Some(o);
  }

  /** And the option has its markers, and what the variant leaves open from what it shows. */
  lemma ConfigurationIsOf(c: Config, assets: seq<Asset>, req: Request, open: seq<string>, o: RevealOption)
    returns (shown: Asset)
    requires IsOption(c, assets, req, open, o) && o.kind == ConfigureAsset
    ensures o.variant.Some? && MayConfigure(o.asset, o.variant.value, shown, assets, req, open)
    ensures IsConfigurationOf(o, o.asset, o.variant.value, shown, req)
  {
    ConfigurationStems(c, assets, req, open, o);
    ConfigurableIff(o.asset, o.variant.value, assets, req, open);
    shown :| MayConfigure(o.asset, o.variant.value, shown, assets, req, open)
             && IsConfigurationOf(o, o.asset, o.variant.value, shown, req);
  }
}
