/** The loops that expand a Sigma condition and that evaluate the resulting plans on one HTTP
    event, each proved against the expansion and the meaning defined in `SigmaPlans`. */
module SigmaMatching {
  import opened Iterables
  import opened SigmaPlans

  // ----- From plans over names to plans over selections -----

  predicate Known(names: seq<string>, known: seq<string>) {
    forall n :: n in names ==> n in known
  }

  predicate KnownPlans(plans: seq<NamePlan>, known: seq<string>) {
    forall i :: 0 <= i < |plans| ==> Known(plans[i].positives, known) && Known(plans[i].negatives, known)
                                     && plans[i].positives != []
  }

  predicate KnownLists(lists: seq<seq<string>>, known: seq<string>) {
    forall i :: 0 <= i < |lists| ==> Known(lists[i], known)
  }

  ghost predicate KnownOptions(options: seq<seq<seq<string>>>, known: seq<string>) {
    forall i :: 0 <= i < |options| ==> KnownLists(options[i], known)
  }

  lemma {:induction false} CollectKnown(terms: seq<seq<string>>, known: seq<string>)
    ensures Collect(terms, known).Collected? ==>
              KnownOptions(Collect(terms, known).options, known) && Known(Collect(terms, known).negatives, known)
  {
    if terms != [] {
      CollectKnown(terms[..|terms| - 1], known);
    }
  }

  lemma {:induction false} FlattenKnown(lists: seq<seq<string>>, known: seq<string>)
    requires KnownLists(lists, known)
    ensures Known(Flatten(lists), known)
  {
    if lists != [] {
      FlattenKnown(lists[1..], known);
    }
  }

  lemma PickedKnown(options: seq<seq<seq<string>>>, group: seq<seq<string>>, known: seq<string>)
    requires group in Product(options) && KnownOptions(options, known)
    ensures KnownLists(group, known)
  {
    ProductMembers(options, group);
    forall i | 0 <= i < |group| ensures Known(group[i], known) {
      assert group[i] in options[i] && KnownLists(options[i], known);
      var j :| 0 <= j < |options[i]| && options[i][j] == group[i];
    }
  }

  lemma {:induction false} GroupPlansKnown(groups: seq<seq<seq<string>>>, negatives: seq<string>, known: seq<string>)
    requires Known(negatives, known)
    requires forall i :: 0 <= i < |groups| ==> KnownLists(groups[i], known)
    ensures KnownPlans(GroupPlans(groups, negatives), known)
  {
    if groups != [] {
      var n := |groups| - 1;
      GroupPlansKnown(groups[..n], negatives, known);
      FlattenKnown(groups[n], known);
    }
  }

  lemma BranchPlansKnown(branch: seq<string>, known: seq<string>)
    ensures KnownPlans(BranchPlans(branch, known), known)
  {
    var terms := SplitOn(branch, "and");
    CollectKnown(terms, known);
    if Collect(terms, known).Collected? {
      var Collected(options, negatives) := Collect(terms, known);
      forall i | 0 <= i < |Product(options)| ensures KnownLists(Product(options)[i], known) {
        PickedKnown(options, Product(options)[i], known);
      }
      GroupPlansKnown(Product(options), negatives, known);
    }
  }

  lemma {:induction false} BranchesPlansKnown(branches: seq<seq<string>>, known: seq<string>)
    ensures KnownPlans(BranchesPlans(branches, known), known)
  {
    if branches != [] {
      BranchesPlansKnown(branches[..|branches| - 1], known);
      BranchPlansKnown(branches[|branches| - 1], known);
    }
  }

  lemma ConditionPlansKnown(condition: seq<string>, known: seq<string>)
    ensures KnownPlans(ConditionPlans(condition, known), known)
  {
    if condition == [] {
      var selections := Filter(known, n => !IsFilterName(n));
      assert forall i :: 0 <= i < |selections| ==> selections[i] in selections;
    } else {
      BranchesPlansKnown(SplitOn(condition, "or"), known);
    }
  }

  function Lookup<S>(names: seq<string>, selection: map<string, S>): (r: seq<S>)
    requires forall n :: n in names ==> n in selection
    ensures |r| == |names| && forall i :: 0 <= i < |r| ==> r[i] == selection[names[i]]
  {
    seq(|names|, i requires 0 <= i < |names| => assert names[i] in names; selection[names[i]])
  }

  function RenderPlan<S>(plan: NamePlan, d: Detection<S>): Plan<S>
    requires d.Valid() && Known(plan.positives, d.names) && Known(plan.negatives, d.names)
  {
    MakePlan(plan.positives, plan.negatives, d)
  }

  function Render<S>(plans: seq<NamePlan>, d: Detection<S>): (r: seq<Plan<S>>)
    requires d.Valid() && KnownPlans(plans, d.names)
    ensures |r| == |plans| && forall i :: 0 <= i < |r| ==> r[i] == RenderPlan(plans[i], d)
  {
    seq(|plans|, i requires 0 <= i < |plans| => RenderPlan(plans[i], d))
  }

  lemma RenderConcat<S>(front: seq<NamePlan>, last: seq<NamePlan>, d: Detection<S>)
    requires d.Valid() && KnownPlans(front, d.names) && KnownPlans(last, d.names)
    ensures KnownPlans(front + last, d.names)
    ensures Render(front + last, d) == Render(front, d) + Render(last, d)
  {
    assert |Render(front + last, d)| == |Render(front, d) + Render(last, d)|;
  }

  lemma RenderLast<S>(front: seq<NamePlan>, last: NamePlan, d: Detection<S>)
    requires d.Valid() && KnownPlans(front, d.names)
    requires last.positives != [] && Known(last.positives, d.names) && Known(last.negatives, d.names)
    ensures KnownPlans(front + [last], d.names)
    ensures Render(front + [last], d) == Render(front, d) + [RenderPlan(last, d)]
  {
    RenderConcat(front, [last], d);
  }

  /** The terms of one branch, given up at the first one that is not supported. */
  method CollectTerms(terms: seq<seq<string>>, names: seq<string>) returns (c: Collected)
    ensures c == Collect(terms, names)
  {
    var options: seq<seq<seq<string>>> := [];
    var negatives: seq<string> := [];
    for i := 0 to |terms|
      invariant Collect(terms[..i], names) == Collected(options, negatives)
    {
      var term := terms[i];
      assert terms[..i + 1][..i] == terms[..i] && terms[..i + 1][i] == term;
      if Collect(terms[..i + 1], names).Unsupported? {
        UnsupportedPrefix(terms[..i + 1], terms[i + 1..], names);
        assert terms[..i + 1] + terms[i + 1..] == terms;
      }
      if term == [] {
        return Unsupported;
      }
      if IsNot(term) {
        var found := NamesForTerm(term[1..], names, true);
        if |found| != 1 {
          return Unsupported;
        }
        negatives := negatives + found;
        continue;
      }
      var found := PositiveOptions(term, names);
      if found == [] {
        return Unsupported;
      }
      options := options + [found];
    }
    assert terms[..|terms|] == terms;
    return Collected(options, negatives);
  }

  method PlansFromAndBranch<S>(branch: seq<string>, d: Detection<S>) returns (plans: seq<Plan<S>>)
    requires d.Valid() && branch != []
    ensures KnownPlans(BranchPlans(branch, d.names), d.names)
    ensures plans == Render(BranchPlans(branch, d.names), d)
  {
    BranchPlansKnown(branch, d.names);
    var terms := SplitOn(branch, "and");
    CollectKnown(terms, d.names);
    var c := CollectTerms(terms, d.names);
    if c.Unsupported? || c.options == [] {
      return [];
    }
    plans := PlansFromOptions(c.options, c.negatives, d);
  }

  /** One plan for each way of choosing among the options of the positive terms. */
  method PlansFromOptions<S>(options: seq<seq<seq<string>>>, negatives: seq<string>, d: Detection<S>)
    returns (plans: seq<Plan<S>>)
    requires d.Valid() && KnownOptions(options, d.names) && Known(negatives, d.names)
    ensures KnownPlans(GroupPlans(Product(options), negatives), d.names)
    ensures plans == Render(GroupPlans(Product(options), negatives), d)
  {
    var groups := Product(options);
    plans := [];
    ghost var named: seq<NamePlan> := [];
    for i := 0 to |groups|
      invariant named == GroupPlans(groups[..i], negatives)
      invariant KnownPlans(named, d.names)
      invariant plans == Render(named, d)
    {
      GroupPlansStep(groups, i, negatives);
      var positives := DedupePreserve(Flatten(groups[i]));
      if positives != [] {
        GroupKnown(options, groups[i], d.names);
        plans := plans + [MakePlan(positives, negatives, d)];
        RenderLast(named, NamePlan(positives, negatives), d);
        named := named + [NamePlan(positives, negatives)];
      }
    }
    assert groups[..|groups|] == groups;
  }

  function MakePlan<S>(positives: seq<string>, negatives: seq<string>, d: Detection<S>): Plan<S>
    requires d.Valid() && Known(positives, d.names) && Known(negatives, d.names)
  {
    Plan(Join(positives + negatives, "_and_"), Lookup(positives, d.selection), Lookup(negatives, d.selection))
  }

  lemma GroupPlansStep(groups: seq<seq<seq<string>>>, i: nat, negatives: seq<string>)
    requires i < |groups|
    ensures GroupPlans(groups[..i + 1], negatives) == GroupPlans(groups[..i], negatives) +
              if Dedupe(Flatten(groups[i])) == [] then [] else [NamePlan(Dedupe(Flatten(groups[i])), negatives)]
  {
    assert groups[..i + 1][..i] == groups[..i];
  }

  lemma GroupKnown(options: seq<seq<seq<string>>>, group: seq<seq<string>>, known: seq<string>)
    requires group in Product(options) && KnownOptions(options, known)
    ensures Known(Dedupe(Flatten(group)), known)
  {
    PickedKnown(options, group, known);
    FlattenKnown(group, known);
  }

  /** A branch that has been given up stays so, whatever terms follow. */
  lemma {:induction false} UnsupportedPrefix(front: seq<seq<string>>, rest: seq<seq<string>>, names: seq<string>)
    requires Collect(front, names).Unsupported?
    ensures Collect(front + rest, names).Unsupported?
    decreases |rest|
  {
    if rest == [] {
      assert front + rest == front;
    } else {
      var n := |rest| - 1;
      UnsupportedPrefix(front, rest[..n], names);
      assert (front + rest)[..|front + rest| - 1] == front + rest[..n];
      UnsupportedStays(front + rest, names);
    }
  }

  lemma UnsupportedStays(terms: seq<seq<string>>, names: seq<string>)
    requires terms != [] && Collect(terms[..|terms| - 1], names).Unsupported?
    ensures Collect(terms, names).Unsupported?
  {
  }

  method SigmaSelectionPlans<S>(condition: seq<string>, d: Detection<S>) returns (plans: seq<Plan<S>>)
    requires d.Valid()
    ensures KnownPlans(ConditionPlans(condition, d.names), d.names)
    ensures plans == Render(ConditionPlans(condition, d.names), d)
  {
    ConditionPlansKnown(condition, d.names);
    if condition == [] {
      var selections := Filter(d.names, n => !IsFilterName(n));
      plans := seq(|selections|, i requires 0 <= i < |selections| =>
        assert selections[i] in selections;
        Plan(selections[i], [d.selection[selections[i]]], []));
      forall i | 0 <= i < |selections|
        ensures plans[i] == RenderPlan(NamePlan([selections[i]], []), d)
      {
        assert [selections[i]] + [] == [selections[i]];
      }
      return;
    }
    var branches := SplitOn(condition, "or");
    SplitIsExact(condition, "or");
    plans := [];
    for i := 0 to |branches|
      invariant KnownPlans(BranchesPlans(branches[..i], d.names), d.names)
      invariant plans == Render(BranchesPlans(branches[..i], d.names), d)
    {
      assert branches[..i + 1][..i] == branches[..i];
      var more := PlansFromAndBranch(branches[i], d);
      RenderConcat(BranchesPlans(branches[..i], d.names), BranchPlans(branches[i], d.names), d);
      plans := plans + more;
    }
    assert branches[..|branches|] == branches;
  }

  // ----- Evaluating plans on an event -----

  /** A plan holds when all its positive and none of its negative selections match. */
  ghost predicate Holds<S>(plan: Plan<S>, hit: S -> bool) {
    && (forall i :: 0 <= i < |plan.positives| ==> hit(plan.positives[i]))
    && (forall i :: 0 <= i < |plan.negatives| ==> !hit(plan.negatives[i]))
  }

  /** A selection matches an event when it has some indicators in it. */
  function Hit<S>(indicators: S -> seq<string>): S -> bool {
    s => indicators(s) != []
  }

  function IndicatorsOf<S>(selections: seq<S>, indicators: S -> seq<string>): seq<string> {
    if selections == [] then []
    else var n := |selections| - 1; IndicatorsOf(selections[..n], indicators) + indicators(selections[n])
  }

  /** The indicators of the positive selections of those plans that hold, in order. `indicators`
      gives for each selection the markers found in the event; a selection matches when it has
      some. */
  ghost function MatchedIndicators<S>(plans: seq<Plan<S>>, indicators: S -> seq<string>): seq<string> {
    if plans == [] then []
    else
      var n := |plans| - 1;
      MatchedIndicators(plans[..n], indicators) +
      if Holds(plans[n], Hit(indicators)) then IndicatorsOf(plans[n].positives, indicators) else []
  }

  method RuleIndicators<S>(plans: seq<Plan<S>>, indicators: S -> seq<string>) returns (matched: seq<string>)
    ensures matched == Dedupe(MatchedIndicators(plans, indicators))
  {
    var found: seq<string> := [];
    for i := 0 to |plans|
      invariant found == MatchedIndicators(plans[..i], indicators)
    {
      assert plans[..i + 1][..i] == plans[..i];
      var plan := plans[i];
      var own: seq<string> := [];
      var j := 0;
      while j < |plan.positives|
        invariant 0 <= j <= |plan.positives|
        invariant own == IndicatorsOf(plan.positives[..j], indicators)
        invariant forall k :: 0 <= k < j ==> indicators(plan.positives[k]) != []
      {
        assert plan.positives[..j + 1][..j] == plan.positives[..j];
        var next := indicators(plan.positives[j]);
        if next == [] {
          own := [];
          break;
        }
        own := own + next;
        j := j + 1;
      }
      if own == [] {
        assert j == |plan.positives| ==> plan.positives[..j] == plan.positives;
        continue;
      }
      assert plan.positives[..j] == plan.positives;
      if exists k :: 0 <= k < |plan.negatives| && indicators(plan.negatives[k]) != [] {
        continue;
      }
      found := found + own;
    }
    assert plans[..|plans|] == plans;
    matched := DedupePreserve(found);
  }

  // ----- Main result: from the condition text to the event -----

  ghost function Hits<S>(d: Detection<S>, hit: S -> bool): set<string>
    requires d.Valid()
  {
    set n | n in d.names && hit(d.selection[n])
  }

  lemma HoldsIffFires<S>(plan: NamePlan, d: Detection<S>, hit: S -> bool)
    requires d.Valid() && Known(plan.positives, d.names) && Known(plan.negatives, d.names)
    ensures Holds(RenderPlan(plan, d), hit) <==> PlanFires(plan, Hits(d, hit))
  {
    var p, hits := RenderPlan(plan, d), Hits(d, hit);
    assert forall i :: 0 <= i < |plan.positives| ==> plan.positives[i] in plan.positives;
    assert forall i :: 0 <= i < |plan.negatives| ==> plan.negatives[i] in plan.negatives;
    if Holds(p, hit) {
      forall n | n in plan.positives ensures n in hits {
        var i :| 0 <= i < |plan.positives| && plan.positives[i] == n;
        assert hit(p.positives[i]);
      }
      forall n | n in plan.negatives ensures n !in hits {
        var i :| 0 <= i < |plan.negatives| && plan.negatives[i] == n;
        assert !hit(p.negatives[i]);
      }
    }
  }

  lemma MatchedLast<S>(front: seq<Plan<S>>, last: Plan<S>, indicators: S -> seq<string>)
    ensures MatchedIndicators(front + [last], indicators) == MatchedIndicators(front, indicators) +
              if Holds(last, Hit(indicators)) then IndicatorsOf(last.positives, indicators) else []
  {
    assert (front + [last])[..|front|] == front;
  }

  lemma {:induction false} MatchedIffSomeFires<S>(plans: seq<NamePlan>, d: Detection<S>, indicators: S -> seq<string>)
    requires d.Valid() && KnownPlans(plans, d.names)
    ensures MatchedIndicators(Render(plans, d), indicators) != [] <==> SomePlanFires(plans, Hits(d, Hit(indicators)))
  {
    if plans != [] {
      var n := |plans| - 1;
      var front, last, hits := plans[..n], plans[n], Hits(d, Hit(indicators));
      assert plans == front + [last];
      MatchedIffSomeFires(front, d, indicators);
      SomePlanFiresConcat(front, [last], hits);
      assert SomePlanFires([last], hits) <==> PlanFires([last][0], hits);
      RenderLast(front, last, d);
      MatchedLast(Render(front, d), RenderPlan(last, d), indicators);
      HoldsIffFires(last, d, Hit(indicators));
      HoldingPlanHasIndicators(RenderPlan(last, d), indicators);
    }
  }

  lemma HoldingPlanHasIndicators<S>(plan: Plan<S>, indicators: S -> seq<string>)
    requires plan.positives != []
    ensures Holds(plan, Hit(indicators)) ==> IndicatorsOf(plan.positives, indicators) != []
  {
    if Holds(plan, Hit(indicators)) {
      assert Hit(indicators)(plan.positives[|plan.positives| - 1]);
    }
  }

  /** A rule reports indicators for an event exactly when its condition holds of the event. */
  lemma RuleMatchesIffConditionHolds<S>(condition: seq<string>, d: Detection<S>, indicators: S -> seq<string>)
    requires d.Valid() && AllSupported(condition, d.names)
    ensures KnownPlans(ConditionPlans(condition, d.names), d.names)
    ensures MatchedIndicators(Render(ConditionPlans(condition, d.names), d), indicators) != []
       <==> ConditionHolds(condition, d.names, Hits(d, Hit(indicators)))
  {
    ConditionPlansKnown(condition, d.names);
    MatchedIffSomeFires(ConditionPlans(condition, d.names), d, indicators);
    PlansMeanCondition(condition, d.names, Hits(d, Hit(indicators)));
  }

  lemma SplitExample()
    ensures SplitOn(["sel", "and", "typo"], "or") == [["sel", "and", "typo"]]
    ensures SplitOn(["sel", "and", "typo"], "and") == [["sel"], ["typo"]]
  {
    var tokens := ["sel", "and", "typo"];
    assert tokens[1..] == ["and", "typo"] && ["and", "typo"][1..] == ["typo"] && ["typo"][1..] == [];
    assert [] + ["sel"] == ["sel"] && ["sel"] + ["and"] == ["sel", "and"] && ["sel", "and"] + ["typo"] == tokens;
    assert SplitFrom(["sel", "and"], ["typo"], "or") == [tokens];
    assert SplitFrom(["sel"], ["and", "typo"], "or") == [tokens];
    assert "sel"[0] != "and"[0] && [] + ["typo"] == ["typo"];
    assert SplitFrom([], ["typo"], "and") == [["typo"]];
    assert SplitFrom(["sel"], ["and", "typo"], "and") == [["sel"], ["typo"]];
  }

  lemma CollectExample()
    ensures Collect([["sel"], ["typo"]], ["sel"]) == Collected([[["sel"]], [[]]], [])
    ensures !Resolves(["typo"], ["sel"], false)
  {
    var terms, names := [["sel"], ["typo"]], ["sel"];
    assert "sel" in names && !IsFilterName("sel");
    assert NamesForPattern("sel", names, false) == ["sel"];
    assert |"typo"| != |"sel"| && NamesForPattern("typo", names, false) == [];
    assert terms[..1] == [["sel"]] && terms[..1][..0] == [];
    assert Collect(terms[..1], names) == Collected([[["sel"]]], []);
  }

  lemma PlanExample(options: seq<seq<seq<string>>>)
    requires options == [[["sel"]], [[]]]
    ensures NamePlan(["sel"], []) in GroupPlans(Product(options), [])
  {
    var group := [["sel"], []];
    ProductMembers(options, group);
    assert group[1..] == [[]] && group[1..][1..] == [];
    assert Flatten(group) == ["sel"];
    assert MadeFrom(NamePlan(["sel"], []), Product(options));
    GroupPlansMembers(Product(options), [], NamePlan(["sel"], []));
  }

  /** An unknown name weakens a rule: `sel and typo` expands to the plan for `sel` alone and fires
      although the condition, which asks for both, does not hold. */
  lemma UnknownNameWeakens(condition: seq<string>, names: seq<string>)
    requires condition == ["sel", "and", "typo"] && names == ["sel"]
    ensures SomePlanFires(ConditionPlans(condition, names), {"sel"})
    ensures !ConditionHolds(condition, names, {"sel"})
  {
    SplitExample();
    CollectExample();
    var options := [[["sel"]], [[]]];
    PlanExample(options);
    var plans := BranchPlans(condition, names);
    assert plans == GroupPlans(Product(options), []);
    var i :| 0 <= i < |plans| && plans[i] == NamePlan(["sel"], []);
    assert PlanFires(plans[i], {"sel"});
    var branches := SplitOn(condition, "or");
    assert branches == [condition];
    assert condition in branches && SomePlanFires(BranchPlans(condition, names), {"sel"});
    BranchesFire(branches, names, {"sel"});
    UnresolvedBranchNeverHolds([["sel"], ["typo"]], names, {"sel"});
    assert !BranchHolds(branches[0], names, {"sel"});
  }
}
