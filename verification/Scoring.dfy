/** How the controller turns the catalogue, the attacker's profile and the technique prior into
    scored reveal candidates. Scores are exact reals; they are rounded where the source rounds. */
module Scoring {
  import opened Wrappers
  import opened Iterables
  import opened Sorting
  import opened Rounding
  import opened Runtime

  /** A dictionary with its insertion order: technique scores. */
  type Scores = seq<(string, real)>

  datatype Marker = Marker(key: string, value: string)

  /** A follow-on configuration; `configurationId` is absent when the catalogue entry has none. */
  datatype Variant = Variant(
    configurationId: Option<string>, target: Option<string>, requiredMarkers: seq<Marker>, visibleFrom: seq<string>,
    covered: seq<string>, telemetry: Option<real>, targetRuntime: Option<RuntimeSpec>)

  datatype Upgrade = Upgrade(assetId: string, requiredMarkers: seq<Marker>)

  datatype Asset = Asset(
    id: string, isInternal: bool, isReady: bool, dependencies: seq<string>, runtimeAvailable: bool,
    unlockSignals: seq<(string, seq<string>)>, optionalSignals: seq<(string, seq<string>)>,
    covered: seq<string>, telemetry: real, group: string, variants: seq<Variant>, upgrades: seq<Upgrade>)

  datatype Profile = Profile(
    confidences: Scores, tactics: seq<string>, techniques: seq<string>, evidenceIds: seq<string>,
    publicPaths: seq<string>, publicRules: seq<string>, publicIndicators: seq<string>,
    internalPaths: seq<string>, internalRules: seq<string>, internalIndicators: seq<string>, assetIds: seq<string>)

  datatype Request = Request(profile: Profile, unlocked: seq<string>, revealed: map<string, seq<string>>)

  datatype Config = Config(observedThreshold: real, unlockCap: int, usePriorSupport: bool)

  datatype Strategy = Exploit | Explore

  // ----- Techniques -----

  /** The parent technique: everything before the first dot. */
  function Family(technique: string): string {
    if technique == "" || technique[0] == '.' then "" else [technique[0]] + Family(technique[1..])
  }

  predicate SameFamily(a: string, b: string) {
    Family(a) == Family(b)
  }

  function ScoreOf(scores: Scores, technique: string): real {
    if scores == [] then 0.0
    else if scores[|scores| - 1].0 == technique then scores[|scores| - 1].1
    else ScoreOf(scores[..|scores| - 1], technique)
  }

  /** The best discounted score of another technique of the family. */
  function BestFamilyScore(technique: string, scores: Scores): real {
    if scores == [] then 0.0
    else
      var n := |scores| - 1;
      var best := BestFamilyScore(technique, scores[..n]);
      if scores[n].0 == technique || !SameFamily(scores[n].0, technique) then best
      else if scores[n].1 * 0.75 > best then scores[n].1 * 0.75 else best
  }

  function Max(a: real, b: real): real {
    if a >= b then a else b
  }

  function Min(a: real, b: real): real {
    if a <= b then a else b
  }

  function Round4(x: real): real {
    RoundTo(x, 10000.0)
  }

  function PriorSupport(c: Config, technique: string, recommendations: Scores): real {
    if c.usePriorSupport then
      Max(ScoreOf(recommendations, technique), BestFamilyScore(technique, recommendations))
    else 1.0
  }

  function Novelty(technique: string, confidences: Scores): real {
    Max(0.0, 1.0 - ScoreOf(confidences, technique))
  }

  /** Prior support times what is not yet known of the technique. */
  function TechniqueGain(c: Config, technique: string, confidences: Scores, recommendations: Scores): real {
    PriorSupport(c, technique, recommendations) * Novelty(technique, confidences)
  }

  function ExpectedGain(c: Config, techniques: seq<string>, confidences: Scores, recommendations: Scores): real {
    if techniques == [] then 0.0
    else
      var n := |techniques| - 1;
      ExpectedGain(c, techniques[..n], confidences, recommendations)
      + TechniqueGain(c, techniques[n], confidences, recommendations)
  }

  function ThresholdedObserved(c: Config, confidences: Scores): seq<string> {
    if confidences == [] then []
    else
      var n := |confidences| - 1;
      ThresholdedObserved(c, confidences[..n]) +
      if confidences[n].1 >= c.observedThreshold then [confidences[n].0] else []
  }

  // ----- Signals -----

  /** The profile's values for a signal key the controller knows. */
  function Observed(p: Profile, key: string): Option<seq<string>> {
    if key == "any_http_paths" then Some(p.publicPaths)
    else if key == "any_http_rules" then Some(p.publicRules)
    else if key == "any_http_indicators" then Some(p.publicIndicators)
    else if key == "any_internal_http_paths" then Some(p.internalPaths)
    else if key == "any_internal_http_rules" then Some(p.internalRules)
    else if key == "any_internal_http_indicators" then Some(p.internalIndicators)
    else if key == "any_asset_ids" then Some(p.assetIds)
    else if key == "any_techniques" then Some(p.techniques)
    else if key == "any_tactics" then Some(p.tactics)
    else None
  }

  predicate SignalsMatch(observed: seq<string>, required: seq<string>, key: string) {
    || (exists i :: 0 <= i < |required| && required[i] in observed)
    || (key == "any_techniques" &&
        exists i, j :: 0 <= i < |observed| && 0 <= j < |required| && SameFamily(observed[i], required[j]))
  }

  predicate ConfiguredSignal(p: Profile, signal: (string, seq<string>)) {
    Observed(p, signal.0).Some? && signal.1 != []
  }

  predicate MatchesUnlockSignals(a: Asset, p: Profile) {
    if a.unlockSignals == [] then p.evidenceIds != [] || p.techniques != []
    else if forall i :: 0 <= i < |a.unlockSignals| ==> !ConfiguredSignal(p, a.unlockSignals[i]) then true
    else
      exists i :: 0 <= i < |a.unlockSignals| && ConfiguredSignal(p, a.unlockSignals[i])
        && SignalsMatch(Observed(p, a.unlockSignals[i].0).value, a.unlockSignals[i].1, a.unlockSignals[i].0)
  }

  function MatchedValues(p: Profile, key: string, values: seq<string>): seq<Marker>
    requires Observed(p, key).Some?
  {
    if values == [] then []
    else
      var n := |values| - 1;
      MatchedValues(p, key, values[..n]) +
      if SignalsMatch(Observed(p, key).value, [values[n]], key) then [Marker(key, values[n])] else []
  }

  function MatchedSignals(p: Profile, signals: seq<(string, seq<string>)>): seq<Marker> {
    if signals == [] then []
    else
      var n := |signals| - 1;
      MatchedSignals(p, signals[..n]) +
      if Observed(p, signals[n].0).None? then [] else MatchedValues(p, signals[n].0, signals[n].1)
  }

  function MatchedMarkers(a: Asset, p: Profile): seq<Marker> {
    Dedupe(MatchedSignals(p, a.unlockSignals) + MatchedSignals(p, a.optionalSignals))
  }

  /** A breadcrumb other than a technique or tactic. */
  predicate HasConcreteMarker(markers: seq<Marker>) {
    exists i :: 0 <= i < |markers| && markers[i].key != "any_techniques" && markers[i].key != "any_tactics"
  }

  predicate ScannerOnly(p: Profile) {
    && p.techniques != []
    && (forall i :: 0 <= i < |p.techniques| ==>
          p.techniques[i] in ["T1190", "T1189", "T1046", "T1595", "T1595.001", "T1595.002", "T1595.003"])
    && p.publicIndicators == [] && p.publicRules == []
    && p.internalIndicators == [] && p.internalPaths == [] && p.internalRules == []
  }

  // ----- Options -----

  datatype OptionKind = UnlockAsset | ConfigureAsset

  datatype RevealOption = RevealOption(
    asset: Asset, kind: OptionKind, covered: seq<string>, telemetry: real, markers: seq<Marker>, group: string,
    isUpgrade: bool, variant: Option<Variant>)

  datatype Verdict =
    | Eligible
    | NotInternal | NotReady | AlreadyUnlocked | CapReached | MissingDependencies | RuntimeUnavailable | NoSignal

  predicate IsBootstrap(a: Asset, req: Request) {
    && a.id == "internal-portal" && req.unlocked == []
    && (req.profile.evidenceIds != [] || req.profile.techniques != [] || req.profile.tactics != [])
  }

  predicate DependenciesMet(a: Asset, unlocked: seq<string>) {
    forall i :: 0 <= i < |a.dependencies| ==> a.dependencies[i] in unlocked
  }

  function Eligibility(c: Config, a: Asset, req: Request, planned: seq<string>): Verdict {
    if !a.isInternal then NotInternal
    else if !a.isReady then NotReady
    else if a.id in planned then AlreadyUnlocked
    else if |planned| >= c.unlockCap then CapReached
    else if !DependenciesMet(a, planned) then MissingDependencies
    else if !a.runtimeAvailable then RuntimeUnavailable
    else if IsBootstrap(a, req) then Eligible
    else if !MatchesUnlockSignals(a, req.profile) then NoSignal
    else Eligible
  }

  /** An open asset of the catalogue declares the candidate as its upgrade, on markers that were
      matched and are concrete. */
  predicate HasUpgradeContext(candidate: Asset, all: seq<Asset>, planned: seq<string>, markers: seq<Marker>) {
    exists i :: 0 <= i < |all| && all[i].id in planned && Upgrades(all[i], candidate, markers)
  }

  predicate Upgrades(source: Asset, candidate: Asset, markers: seq<Marker>) {
    exists j :: 0 <= j < |source.upgrades| && UpgradeApplies(source.upgrades[j], candidate, markers)
  }

  predicate UpgradeApplies(u: Upgrade, candidate: Asset, markers: seq<Marker>) {
    && u.assetId == candidate.id
    && (u.requiredMarkers != [] ==>
          exists i :: 0 <= i < |u.requiredMarkers| && u.requiredMarkers[i] in markers
            && u.requiredMarkers[i].key != "any_techniques" && u.requiredMarkers[i].key != "any_tactics")
  }

  function UnlockOption(a: Asset, all: seq<Asset>, req: Request, planned: seq<string>): RevealOption {
    var markers := MatchedMarkers(a, req.profile);
    RevealOption(a, UnlockAsset, a.covered, a.telemetry, markers, a.group,
                 HasUpgradeContext(a, all, planned, markers), None)
  }

  function FindAsset(all: seq<Asset>, id: string): (r: Option<Asset>)
    ensures r.Some? ==> r.value in all && r.value.id == id
    ensures r.None? ==> forall a :: a in all ==> a.id != id
  {
    if all == [] then None
    else if all[|all| - 1].id == id then Some(all[|all| - 1])
    else FindAsset(all[..|all| - 1], id)
  }

  predicate VisibleOnActivePath(sourceId: string, v: Variant, active: seq<string>) {
    exists i :: 0 <= i < |active| && (active[i] == sourceId || active[i] in v.visibleFrom)
  }

  function ExactMarkers(markers: seq<Marker>, p: Profile): seq<Marker> {
    if markers == [] then []
    else
      var n := |markers| - 1;
      var seen := Observed(p, markers[n].key);
      ExactMarkers(markers[..n], p) + if seen.Some? && markers[n].value in seen.value then [markers[n]] else []
  }

  /** The configuration option a variant of an open asset gives rise to, if it passes its gates. */
  function VariantOption(
      source: Asset, v: Variant, all: seq<Asset>, req: Request, planned: seq<string>): Option<RevealOption> {
    var revealed := if source.id in req.revealed then req.revealed[source.id] else [];
    var markers := Dedupe(ExactMarkers(v.requiredMarkers, req.profile));
    var target := if v.target.Some? then FindAsset(all, v.target.value) else None;
    if v.configurationId.None? || v.configurationId.value in revealed then None
    else if !VisibleOnActivePath(source.id, v, req.profile.assetIds) then None
    else if v.requiredMarkers != [] && markers == [] then None
    else if v.target.Some? && (target.None? || (v.target.value != source.id && v.target.value in planned)) then None
    else if target.Some? && !target.value.runtimeAvailable then None
    else
      var shown := target.GetOr(source);
      Some(RevealOption(source, ConfigureAsset, if v.covered != [] then v.covered else shown.covered,
                        v.telemetry.GetOr(shown.telemetry), markers, shown.group, target.Some?, Some(v)))
  }

  // ----- Scoring one option -----

  datatype CandidateKind =
    Unsupported | Continuation | GateOnly | Recommended | WeakEvidence | BootstrapKind | Configuration

  datatype Parts = Parts(signal: real, kind: CandidateKind)

  /** Whether and how strongly a technique speaks for an option. */
  function TechniqueParts(
      c: Config, technique: string, confidences: Scores, observed: seq<string>, recommendations: Scores, concrete: bool)
    : Parts
  {
    var confidence := Max(ScoreOf(confidences, technique), BestFamilyScore(technique, confidences));
    var support := if c.usePriorSupport
                   then Max(ScoreOf(recommendations, technique), BestFamilyScore(technique, recommendations)) else 0.0;
    if exists i :: 0 <= i < |observed| && SameFamily(technique, observed[i]) then
      Parts(Min(1.0, confidence), Continuation)
    else if !c.usePriorSupport then Parts(1.0, GateOnly)
    else if support > 0.0 then Parts(support, Recommended)
    else if concrete && confidence > 0.0 then Parts(Min(1.0, confidence), WeakEvidence)
    else Parts(0.0, Unsupported)
  }

  datatype Candidate = Candidate(
    option: RevealOption, kind: CandidateKind, selected: string, gain: real, telemetry: real, markerCount: nat)

  /** What scoring sees besides the option. */
  datatype Scene = Scene(config: Config, request: Request, observed: seq<string>, recommendations: Scores)

  function OptionParts(s: Scene, o: RevealOption, technique: string): Parts {
    var parts := TechniqueParts(s.config, technique, s.request.profile.confidences, s.observed, s.recommendations,
                                HasConcreteMarker(o.markers));
    if o.kind.UnlockAsset? && IsBootstrap(o.asset, s.request) then Parts(1.0, BootstrapKind) else parts
  }

  predicate NewDirection(technique: string, main: Candidate) {
    && (main.selected == "" || !SameFamily(technique, main.selected))
    && forall i :: 0 <= i < |main.option.covered| ==> !SameFamily(technique, main.option.covered[i])
  }

  /** The techniques of an option that count: supported ones and, for a second reveal, only those
      of families the first reveal does not cover. */
  predicate Counts(s: Scene, o: RevealOption, context: Option<Candidate>, technique: string) {
    var parts := OptionParts(s, o, technique);
    !parts.kind.Unsupported? && parts.signal > 0.0 && (context.Some? ==> NewDirection(technique, context.value))
  }

  function CountingTechniques(
      s: Scene, o: RevealOption, context: Option<Candidate>, techniques: seq<string>): (r: seq<string>)
    ensures forall t :: t in r ==> t in techniques && Counts(s, o, context, t)
  {
    if techniques == [] then []
    else
      var n := |techniques| - 1;
      CountingTechniques(s, o, context, techniques[..n]) +
      if Counts(s, o, context, techniques[n]) then [techniques[n]] else []
  }

  function Families(techniques: seq<string>): seq<string> {
    if techniques == [] then [] else Families(techniques[..|techniques| - 1]) + [Family(techniques[|techniques| - 1])]
  }

  /** A second reveal needs two observed families and a concrete reason. */
  predicate MayExplore(s: Scene, o: RevealOption) {
    && |Dedupe(Families(s.observed))| >= 2
    && (HasConcreteMarker(o.markers) || o.isUpgrade)
    && (o.kind.UnlockAsset? && o.group in ["generic-capture", "payload-transfer-high"] ==> o.isUpgrade)
  }

  /** `a` is preferred to `b` as the technique that explains the option. */
  predicate BetterTechnique(s: Scene, o: RevealOption, a: string, b: string) {
    var ga := TechniqueGain(s.config, a, s.request.profile.confidences, s.recommendations);
    var gb := TechniqueGain(s.config, b, s.request.profile.confidences, s.recommendations);
    var sa, sb := OptionParts(s, o, a).signal, OptionParts(s, o, b).signal;
    ga > gb || (ga == gb && (sa > sb || (sa == sb && a != b && LexLe(b, a))))
  }

  function BestTechnique(s: Scene, o: RevealOption, techniques: seq<string>): (r: string)
    requires techniques != []
    ensures r in techniques
  {
    var n := |techniques| - 1;
    if n == 0 then techniques[0]
    else
      var best := BestTechnique(s, o, techniques[..n]);
      if BetterTechnique(s, o, techniques[n], best) then techniques[n] else best
  }

  /** `context` is the first reveal when the second is being chosen. */
  function ScoreOption(s: Scene, o: RevealOption, strategy: Strategy, context: Option<Candidate>): Option<Candidate> {
    if strategy.Explore? && (context.None? || !MayExplore(s, o)) then None
    else
      var techniques := CountingTechniques(s, o, if strategy.Explore? then context else None, Dedupe(o.covered));
      if techniques == [] then None
      else
        var selected := BestTechnique(s, o, techniques);
        Some(Candidate(
          o, if o.kind.ConfigureAsset? then Configuration else OptionParts(s, o, selected).kind, selected,
          Round4(ExpectedGain(s.config, techniques, s.request.profile.confidences, s.recommendations)),
          Round4(o.telemetry), |o.markers|))
  }

  // ----- The order of candidates -----

  function Rank(c: Candidate): int {
    if c.kind.BootstrapKind? then 2 else if c.option.kind.ConfigureAsset? then 1 else 0
  }

  /** The asset a candidate exposes to the attacker. */
  function ExposedId(c: Candidate): string {
    if c.option.variant.Some? && c.option.variant.value.target.Some? then c.option.variant.value.target.value
    else c.option.asset.id
  }

  /** `a` sorts strictly before `b`. */
  predicate Precedes(a: Candidate, b: Candidate) {
    Rank(a) > Rank(b) || (Rank(a) == Rank(b) &&
      (a.gain > b.gain || (a.gain == b.gain &&
        (a.markerCount > b.markerCount || (a.markerCount == b.markerCount &&
          (a.telemetry > b.telemetry || (a.telemetry == b.telemetry &&
            ExposedId(a) != ExposedId(b) && LexLe(ExposedId(a), ExposedId(b)))))))))
  }

  /** Same ordering key. */
  predicate Ties(a: Candidate, b: Candidate) {
    Rank(a) == Rank(b) && a.gain == b.gain && a.markerCount == b.markerCount && a.telemetry == b.telemetry
    && ExposedId(a) == ExposedId(b)
  }

  lemma PrecedesIsStrictOrder(a: Candidate, b: Candidate, c: Candidate)
    ensures !Precedes(a, a)
    ensures Precedes(a, b) ==> !Precedes(b, a)
    ensures Precedes(a, b) || Precedes(b, a) || Ties(a, b)
    ensures Precedes(a, b) && !Precedes(c, b) ==> Precedes(a, c)
  {
    LexTotal(ExposedId(a), ExposedId(b));
    LexTotal(ExposedId(b), ExposedId(c));
    LexTotal(ExposedId(a), ExposedId(c));
    if LexLe(ExposedId(a), ExposedId(b)) && LexLe(ExposedId(b), ExposedId(a)) {
      LexAntisymmetric(ExposedId(a), ExposedId(b));
    }
    if LexLe(ExposedId(a), ExposedId(b)) && LexLe(ExposedId(b), ExposedId(c)) {
      LexTransitive(ExposedId(a), ExposedId(b), ExposedId(c));
      if ExposedId(a) == ExposedId(c) {
        LexAntisymmetric(ExposedId(a), ExposedId(b));
      }
    }
  }
}
