/** What a controller tick reveals, in terms of the catalogue, the profile and the scores: which options
    there are, and which of their candidates comes first. */
module TickResults {
  import opened Wrappers
  import opened Sorting
  import opened Scoring
  import opened Controller
  import opened ControllerProperties
  import opened ScoreResults

  // ----- The order of candidates -----

  /** What the attacker gets to see: the target of a configuration, else the asset. */
  ghost function Seen(c: Candidate): string {
    if c.option.variant.Some? && c.option.variant.value.target.Some? then c.option.variant.value.target.value
    else c.option.asset.id
  }

  /** The portal first, then configurations, then the rest. */
  ghost function Class(c: Candidate): nat {
    if c.kind == BootstrapKind then 0 else if c.option.kind == ConfigureAsset then 1 else 2
  }

  /** The text `a` does not come behind `b`. */
  ghost predicate NotBehind(a: string, b: string) {
    exists k: nat :: k <= |a| && k <= |b| && SplitsAt(a, b, k)
  }

  /** Nothing puts `x` before `c`: it is of no earlier class; in the same class it gains no more; at the
      same gain it has no more markers; at as many no more telemetry; and at the same of that its name
      does not sort earlier. */
  ghost predicate ComesFirst(c: Candidate, x: Candidate) {
    && Class(c) <= Class(x)
    && (Class(c) == Class(x) ==> x.gain <= c.gain)
    && (Class(c) == Class(x) && x.gain == c.gain ==> x.markerCount <= c.markerCount)
    && (Class(c) == Class(x) && x.gain == c.gain && x.markerCount == c.markerCount ==> x.telemetry <= c.telemetry)
    && (Class(c) == Class(x) && x.gain == c.gain && x.markerCount == c.markerCount && x.telemetry == c.telemetry ==>
          NotBehind(Seen(c), Seen(x)))
  }

  lemma NotPrecededComesFirst(c: Candidate, x: Candidate)
    requires !Precedes(x, c)
    ensures ComesFirst(c, x)
  {
    LexTotal(Seen(c), Seen(x));
    LexLeIff(Seen(c), Seen(x));
    if k: nat :| SplitsAt(Seen(c), Seen(x), k) {
      assert NotBehind(Seen(c), Seen(x));
    }
  }

  /** A profile with nothing but scanning techniques and no trace of anything else. */
  ghost predicate JustScans(p: Profile) {
    && p.techniques != []
    && (forall t :: t in p.techniques ==>
          t in ["T1190", "T1189", "T1046", "T1595", "T1595.001", "T1595.002", "T1595.003"])
    && p.publicIndicators == [] && p.publicRules == []
    && p.internalIndicators == [] && p.internalPaths == [] && p.internalRules == []
  }

  lemma ScansIff(p: Profile)
    ensures ScannerOnly(p) <==> JustScans(p)
  {
  }

  /** Main result on the main reveal: of every option that scores, none comes before it; and there is a
      main reveal unless the profile just scans or no option scores. */
  lemma MainComesFirst(s: Scene, assets: seq<Asset>, o: RevealOption)
    returns (c: Candidate, ts: seq<string>, gains: seq<real>)
    requires !JustScans(s.request.profile) && IsOption(s.config, assets, s.request, s.request.unlocked, o)
    requires exists t :: t in o.covered && Matters(s, o, None, t)
    ensures IsScored(s, o, None, ts, gains, c)
    ensures Decide(s, assets).main.Some? && ComesFirst(Decide(s, assets).main.value, c)
  {
    ScansIff(s.request.profile);
    IsCandidateIff(s, o, Exploit, None);
    c := ScoreOption(s, o, Exploit, None).value;
    ts, gains := CandidateIsScored(s, o, Exploit, None, c);
    MainIsBest(s, assets);
    assert IsCandidate(s, assets, s.request.unlocked, Exploit, None, c);
    NotPrecededComesFirst(Decide(s, assets).main.value, c);
  }

  /** The main reveal is itself an option that scores. */
  lemma MainIsOption(s: Scene, assets: seq<Asset>) returns (ts: seq<string>, gains: seq<real>)
    requires Decide(s, assets).main.Some?
    ensures var c := Decide(s, assets).main.value;
      && !JustScans(s.request.profile) && IsOption(s.config, assets, s.request, s.request.unlocked, c.option)
      && IsScored(s, c.option, None, ts, gains, c) && ts != []
  {
    ScansIff(s.request.profile);
    MainIsBest(s, assets);
    var c := Decide(s, assets).main.value;
    ts, gains := CandidateIsScored(s, c.option, Exploit, None, c);
  }

  /** What the main reveal opens counts as open for the explore reveal. */
  ghost function OpenAfter(unlocked: seq<string>, c: Candidate): seq<string> {
    if c.option.kind == UnlockAsset || (c.option.variant.Some? && c.option.variant.value.target.Some?) then
      unlocked + [Seen(c)]
    else unlocked
  }

  lemma UnlocksHaveNoVariant(s: Scene, assets: seq<Asset>)
    requires Decide(s, assets).main.Some?
    ensures var c := Decide(s, assets).main.value;
      PlannedAfter(s.request.unlocked, c) == OpenAfter(s.request.unlocked, c)
  {
    RevealsAreGated(s, assets);
  }

  /** Main result on the explore reveal: with the main reveal open, of every option that scores for new
      families and has a concrete reason, none comes before it. */
  lemma ExploreComesFirst(s: Scene, assets: seq<Asset>, o: RevealOption)
    returns (c: Candidate, ts: seq<string>, gains: seq<real>)
    requires Decide(s, assets).main.Some?
    requires IsOption(s.config, assets, s.request, OpenAfter(s.request.unlocked, Decide(s, assets).main.value), o)
    requires HasConcreteReason(s, o) && exists t :: t in o.covered && Matters(s, o, Decide(s, assets).main, t)
    ensures IsScored(s, o, Decide(s, assets).main, ts, gains, c)
    ensures Decide(s, assets).explore.Some? && ComesFirst(Decide(s, assets).explore.value, c)
  {
    var main := Decide(s, assets).main;
    var planned := PlannedAfter(s.request.unlocked, main.value);
    UnlocksHaveNoVariant(s, assets);
    IsCandidateIff(s, o, Explore, main);
    c := ScoreOption(s, o, Explore, main).value;
    ts, gains := CandidateIsScored(s, o, Explore, main, c);
    PassIsBest(s, assets, planned, Explore, main);
    assert IsCandidate(s, assets, planned, Explore, main, c);
    NotPrecededComesFirst(Decide(s, assets).explore.value, c);
  }

  lemma ExploreIsOption(s: Scene, assets: seq<Asset>) returns (ts: seq<string>, gains: seq<real>)
    requires Decide(s, assets).explore.Some?
    ensures Decide(s, assets).main.Some?
    ensures var main, c := Decide(s, assets).main, Decide(s, assets).explore.value;
      && IsOption(s.config, assets, s.request, OpenAfter(s.request.unlocked, main.value), c.option)
      && HasConcreteReason(s, c.option) && IsScored(s, c.option, main, ts, gains, c) && ts != []
  {
    var main, c := Decide(s, assets).main, Decide(s, assets).explore.value;
    UnlocksHaveNoVariant(s, assets);
    PassIsBest(s, assets, PlannedAfter(s.request.unlocked, main.value), Explore, main);
    IsCandidateIff(s, c.option, Explore, main);
    ts, gains := CandidateIsScored(s, c.option, Explore, main, c);
  }
}
