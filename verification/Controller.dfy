/** The controller's tick: a main reveal, and after it at most one explore reveal. */
module Controller {
  import opened Wrappers
  import opened Scoring

  // ----- The options of a pass -----

  predicate Offers(c: Config, a: Asset, req: Request, planned: seq<string>) {
    Eligibility(c, a, req, planned).Eligible? && a.covered != []
  }

  function UnlockOptions(
      c: Config, assets: seq<Asset>, all: seq<Asset>, req: Request, planned: seq<string>): seq<RevealOption> {
    if assets == [] then []
    else
      var n := |assets| - 1;
      UnlockOptions(c, assets[..n], all, req, planned) +
      if Offers(c, assets[n], req, planned) then [UnlockOption(assets[n], all, req, planned)] else []
  }

  function VariantOptions(
      source: Asset, variants: seq<Variant>, all: seq<Asset>, req: Request, planned: seq<string>): seq<RevealOption> {
    if variants == [] then []
    else
      var n := |variants| - 1;
      var o := VariantOption(source, variants[n], all, req, planned);
      VariantOptions(source, variants[..n], all, req, planned) + if o.Some? then [o.value] else []
  }

  function ConfigurationOptions(
      assets: seq<Asset>, all: seq<Asset>, req: Request, planned: seq<string>): seq<RevealOption> {
    if assets == [] then []
    else
      var n := |assets| - 1;
      ConfigurationOptions(assets[..n], all, req, planned) +
      if assets[n].id in req.unlocked then VariantOptions(assets[n], assets[n].variants, all, req, planned) else []
  }

  function RevealOptions(c: Config, assets: seq<Asset>, req: Request, planned: seq<string>): seq<RevealOption> {
    UnlockOptions(c, assets, assets, req, planned) + ConfigurationOptions(assets, assets, req, planned)
  }

  function RejectedAfter(
      c: Config, assets: seq<Asset>, req: Request, planned: seq<string>, rejected: map<string, Verdict>)
    : map<string, Verdict>
  {
    if assets == [] then rejected
    else
      var n := |assets| - 1;
      var before := RejectedAfter(c, assets[..n], req, planned, rejected);
      var verdict := Eligibility(c, assets[n], req, planned);
      if verdict.Eligible? then before else before[assets[n].id := verdict]
  }

  // ----- One pass -----

  function Candidates(
      s: Scene, options: seq<RevealOption>, strategy: Strategy, context: Option<Candidate>): seq<Candidate> {
    if options == [] then []
    else
      var n := |options| - 1;
      var c := ScoreOption(s, options[n], strategy, context);
      Candidates(s, options[..n], strategy, context) + if c.Some? then [c.value] else []
  }

  /** The first candidate that nothing precedes. */
  function Best(candidates: seq<Candidate>): (r: Option<Candidate>)
    ensures r.None? <==> candidates == []
    ensures r.Some? ==> r.value in candidates
  {
    if candidates == [] then None
    else
      var n := |candidates| - 1;
      var best := Best(candidates[..n]);
      if best.None? || Precedes(candidates[n], best.value) then Some(candidates[n]) else best
  }

  function Pass(
      s: Scene, assets: seq<Asset>, planned: seq<string>, strategy: Strategy,
      context: Option<Candidate>): Option<Candidate> {
    Best(Candidates(s, RevealOptions(s.config, assets, s.request, planned), strategy, context))
  }

  /** What a chosen candidate adds to the assets the second pass takes as unlocked. */
  function PlannedAfter(planned: seq<string>, c: Candidate): seq<string> {
    if c.option.kind.UnlockAsset? then planned + [c.option.asset.id]
    else if c.option.variant.Some? && c.option.variant.value.target.Some?
         then planned + [c.option.variant.value.target.value]
    else planned
  }

  datatype Decision = Decision(main: Option<Candidate>, explore: Option<Candidate>)

  function MakeScene(c: Config, req: Request, prior: seq<string> -> Scores): Scene {
    var observed := ThresholdedObserved(c, req.profile.confidences);
    Scene(c, req, observed, if c.usePriorSupport then prior(observed) else [])
  }

  function Decide(s: Scene, assets: seq<Asset>): Decision {
    if ScannerOnly(s.request.profile) then Decision(None, None)
    else
      var main := Pass(s, assets, s.request.unlocked, Exploit, None);
      if main.None? then Decision(None, None)
      else Decision(main, Pass(s, assets, PlannedAfter(s.request.unlocked, main.value), Explore, main))
  }

  // ----- The loops -----

  method ComputeRevealOptions(
      c: Config, assets: seq<Asset>, req: Request, planned: seq<string>, rejected0: map<string, Verdict>)
    returns (options: seq<RevealOption>, rejected: map<string, Verdict>)
    ensures options == RevealOptions(c, assets, req, planned)
    ensures rejected == RejectedAfter(c, assets, req, planned, rejected0)
  {
    options, rejected := [], rejected0;
    for i := 0 to |assets|
      invariant options == UnlockOptions(c, assets[..i], assets, req, planned)
      invariant rejected == RejectedAfter(c, assets[..i], req, planned, rejected0)
    {
      assert assets[..i + 1][..i] == assets[..i];
      var verdict := Eligibility(c, assets[i], req, planned);
      if !verdict.Eligible? {
        rejected := rejected[assets[i].id := verdict];
        continue;
      }
      if assets[i].covered != [] {
        options := options + [UnlockOption(assets[i], assets, req, planned)];
      }
    }
    assert assets[..|assets|] == assets;
    var more := ComputeConfigurationOptions(assets, req, planned);
    options := options + more;
  }

  method ComputeConfigurationOptions(
      assets: seq<Asset>, req: Request, planned: seq<string>) returns (options: seq<RevealOption>)
    ensures options == ConfigurationOptions(assets, assets, req, planned)
  {
    options := [];
    for i := 0 to |assets|
      invariant options == ConfigurationOptions(assets[..i], assets, req, planned)
    {
      assert assets[..i + 1][..i] == assets[..i];
      var source := assets[i];
      if source.id !in req.unlocked {
        continue;
      }
      var own: seq<RevealOption> := [];
      for j := 0 to |source.variants|
        invariant own == VariantOptions(source, source.variants[..j], assets, req, planned)
      {
        assert source.variants[..j + 1][..j] == source.variants[..j];
        var o := VariantOption(source, source.variants[j], assets, req, planned);
        if o.Some? {
          own := own + [o.value];
        }
      }
      assert source.variants[..|source.variants|] == source.variants;
      options := options + own;
    }
    assert assets[..|assets|] == assets;
  }

  lemma CandidatesStep(s: Scene, options: seq<RevealOption>, strategy: Strategy, context: Option<Candidate>, i: nat)
    requires i < |options|
    ensures Candidates(s, options[..i + 1], strategy, context) ==
            Candidates(s, options[..i], strategy, context) +
            var c := ScoreOption(s, options[i], strategy, context);
            if c.Some? then [c.value] else []
  {
    assert options[..i + 1][..i] == options[..i];
  }

  method ComputeCandidates(s: Scene, options: seq<RevealOption>, strategy: Strategy, context: Option<Candidate>)
    returns (candidates: seq<Candidate>)
    ensures candidates == Candidates(s, options, strategy, context)
  {
    candidates := [];
    for i := 0 to |options|
      invariant candidates == Candidates(s, options[..i], strategy, context)
    {
      CandidatesStep(s, options, strategy, context, i);
      var c := ScoreOption(s, options[i], strategy, context);
      if c.Some? {
        candidates := candidates + [c.value];
      }
    }
    assert options[..|options|] == options;
  }

  /** The reveals of one tick, none when the controller answers with a no-op. */
  method Tick(
      c: Config, assets: seq<Asset>, req: Request, prior: seq<string> -> Scores) returns (actions: seq<Candidate>)
    ensures actions == Reveals(Decide(MakeScene(c, req, prior), assets))
  {
    var planned := req.unlocked;
    var rejected: map<string, Verdict> := map[];
    var s := MakeScene(c, req, prior);
    actions := [];
    if ScannerOnly(req.profile) {
      return;
    }
    var context: Option<Candidate> := None;
    var strategies := [Exploit, Explore];
    for i := 0 to 2
      invariant |actions| <= i
      invariant i == 0 ==> actions == [] && planned == req.unlocked && context == None
      invariant i == 1 ==>
        var main := Pass(s, assets, req.unlocked, Exploit, None);
        main.Some? && actions == [main.value] && context == main && planned == PlannedAfter(req.unlocked, main.value)
      invariant i == 2 ==> actions == Reveals(Decide(s, assets))
    {
      var strategy := strategies[i];
      var options;
      options, rejected := ComputeRevealOptions(c, assets, req, planned, rejected);
      var candidates := ComputeCandidates(s, options, strategy, context);
      var selected := Best(candidates);
      if selected.None? {
        if strategy.Exploit? {
          return;
        }
        continue;
      }
      actions := actions + [selected.value];
      planned := PlannedAfter(planned, selected.value);
      if strategy.Exploit? {
        context := selected;
      }
    }
  }

  function Reveals(d: Decision): seq<Candidate> {
    (if d.main.Some? then [d.main.value] else []) + (if d.explore.Some? then [d.explore.value] else [])
  }

  // ----- Where options and candidates come from -----

  lemma {:induction false} UnlockOptionsMembers(
      c: Config, assets: seq<Asset>, all: seq<Asset>, req: Request, planned: seq<string>)
    ensures forall o :: o in UnlockOptions(c, assets, all, req, planned) <==>
              exists a :: a in assets && Offers(c, a, req, planned) && o == UnlockOption(a, all, req, planned)
  {
    if assets != [] {
      var n := |assets| - 1;
      UnlockOptionsMembers(c, assets[..n], all, req, planned);
      assert assets == assets[..n] + [assets[n]];
    }
  }

  /** `o` is what some variant of `source` offers. */
  ghost predicate FromVariant(o: RevealOption, source: Asset, all: seq<Asset>, req: Request, planned: seq<string>) {
    exists v :: v in source.variants && VariantOption(source, v, all, req, planned) == Some(o)
  }

  lemma {:induction false} VariantOptionsMembers(
      source: Asset, variants: seq<Variant>, all: seq<Asset>, req: Request, planned: seq<string>)
    ensures forall o :: o in VariantOptions(source, variants, all, req, planned) <==>
              exists v :: v in variants && VariantOption(source, v, all, req, planned) == Some(o)
  {
    if variants != [] {
      var n := |variants| - 1;
      VariantOptionsMembers(source, variants[..n], all, req, planned);
      assert variants == variants[..n] + [variants[n]];
    }
  }

  lemma {:induction false} ConfigurationOptionsMembers(
      assets: seq<Asset>, all: seq<Asset>, req: Request, planned: seq<string>)
    ensures forall o :: o in ConfigurationOptions(assets, all, req, planned) <==>
              exists a :: a in assets && a.id in req.unlocked && FromVariant(o, a, all, req, planned)
  {
    if assets != [] {
      var n := |assets| - 1;
      ConfigurationOptionsMembers(assets[..n], all, req, planned);
      VariantOptionsMembers(assets[n], assets[n].variants, all, req, planned);
      assert assets == assets[..n] + [assets[n]];
    }
  }

  ghost predicate IsOption(c: Config, assets: seq<Asset>, req: Request, planned: seq<string>, o: RevealOption) {
    || (exists a :: a in assets && Offers(c, a, req, planned) && o == UnlockOption(a, assets, req, planned))
    || (exists a :: a in assets && a.id in req.unlocked && FromVariant(o, a, assets, req, planned))
  }

  lemma OptionsMembers(c: Config, assets: seq<Asset>, req: Request, planned: seq<string>)
    ensures forall o :: o in RevealOptions(c, assets, req, planned) <==> IsOption(c, assets, req, planned, o)
  {
    UnlockOptionsMembers(c, assets, assets, req, planned);
    ConfigurationOptionsMembers(assets, assets, req, planned);
  }

  /** The candidate stems from one of the options. */
  ghost predicate Scored(
      s: Scene, options: seq<RevealOption>, strategy: Strategy, context: Option<Candidate>, x: Candidate)
  {
    exists o :: o in options && ScoreOption(s, o, strategy, context) == Some(x)
  }

  lemma ScoredLast(s: Scene, options: seq<RevealOption>, strategy: Strategy, context: Option<Candidate>, x: Candidate)
    requires options != []
    ensures var n := |options| - 1;
      Scored(s, options, strategy, context, x) <==>
      Scored(s, options[..n], strategy, context, x) || ScoreOption(s, options[n], strategy, context) == Some(x)
  {
    var n := |options| - 1;
    assert options == options[..n] + [options[n]];
  }

  lemma {:induction false} CandidatesMember(
      s: Scene, options: seq<RevealOption>, strategy: Strategy, context: Option<Candidate>, x: Candidate)
    ensures x in Candidates(s, options, strategy, context) <==> Scored(s, options, strategy, context, x)
  {
    if options != [] {
      var n := |options| - 1;
      CandidatesMember(s, options[..n], strategy, context, x);
      ScoredLast(s, options, strategy, context, x);
      CandidatesStep(s, options, strategy, context, n);
      assert options[..n + 1] == options;
    }
  }

  lemma CandidatesMembers(s: Scene, options: seq<RevealOption>, strategy: Strategy, context: Option<Candidate>)
    ensures forall x :: x in Candidates(s, options, strategy, context) <==> Scored(s, options, strategy, context, x)
  {
    forall x ensures x in Candidates(s, options, strategy, context) <==> Scored(s, options, strategy, context, x) {
      CandidatesMember(s, options, strategy, context, x);
    }
  }

  ghost predicate IsCandidate(
      s: Scene, assets: seq<Asset>, planned: seq<string>, strategy: Strategy, context: Option<Candidate>, x: Candidate)
  {
    IsOption(s.config, assets, s.request, planned, x.option) && ScoreOption(s, x.option, strategy, context) == Some(x)
  }

  lemma PassCandidates(
      s: Scene, assets: seq<Asset>, planned: seq<string>, strategy: Strategy, context: Option<Candidate>)
    ensures forall x :: x in Candidates(s, RevealOptions(s.config, assets, s.request, planned), strategy, context) <==>
              IsCandidate(s, assets, planned, strategy, context, x)
  {
    OptionsMembers(s.config, assets, s.request, planned);
    CandidatesMembers(s, RevealOptions(s.config, assets, s.request, planned), strategy, context);
  }

  lemma {:induction false} BestIsFirst(candidates: seq<Candidate>)
    ensures Best(candidates).Some? ==> forall x :: x in candidates ==> !Precedes(x, Best(candidates).value)
  {
    if candidates != [] {
      var n := |candidates| - 1;
      BestIsFirst(candidates[..n]);
      assert candidates == candidates[..n] + [candidates[n]];
      var best := Best(candidates[..n]);
      if best.Some? {
        forall x | x in candidates[..n] ensures !Precedes(x, Best(candidates).value) {
          PrecedesIsStrictOrder(candidates[n], best.value, x);
          PrecedesIsStrictOrder(x, candidates[n], x);
        }
        PrecedesIsStrictOrder(candidates[n], candidates[n], candidates[n]);
      } else {
        PrecedesIsStrictOrder(candidates[n], candidates[n], candidates[n]);
      }
    }
  }

  /** The chosen candidate is eligible and nothing eligible sorts before it: bootstrap first, then
      configurations, then by expected gain, matched markers, telemetry and name. */
  lemma PassIsBest(s: Scene, assets: seq<Asset>, planned: seq<string>, strategy: Strategy, context: Option<Candidate>)
    ensures var r := Pass(s, assets, planned, strategy, context);
      && (r.Some? ==> IsCandidate(s, assets, planned, strategy, context, r.value)
                      && forall x :: IsCandidate(s, assets, planned, strategy, context, x) ==> !Precedes(x, r.value))
      && (r.None? ==> forall x :: !IsCandidate(s, assets, planned, strategy, context, x))
  {
    PassCandidates(s, assets, planned, strategy, context);
    BestIsFirst(Candidates(s, RevealOptions(s.config, assets, s.request, planned), strategy, context));
  }
}
