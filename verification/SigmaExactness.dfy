/** Exactly when expanding a branch into plans keeps its meaning, as conditions on its terms. */
module SigmaExactness {
  import opened Iterables
  import opened SigmaPlans

  // ----- Conditions on the terms of a branch -----

  /** A negation is not about one selection, or a `1 of` term stands for none: the branch is then
      given up. */
  ghost predicate GivenUp(terms: seq<seq<string>>, names: seq<string>) {
    || !NegationsAreSingle(terms, names)
    || exists i :: 0 <= i < |terms| && !IsNot(terms[i]) && IsOneOf(terms[i]) && !Resolves(terms[i], names, false)
  }

  ghost predicate NothingResolves(terms: seq<seq<string>>, names: seq<string>) {
    forall i :: 0 <= i < |terms| && !IsNot(terms[i]) ==> !Resolves(terms[i], names, false)
  }

  predicate Negated(terms: seq<seq<string>>, names: seq<string>, n: string) {
    exists i :: 0 <= i < |terms| && IsNot(terms[i]) && n in NamesForTerm(terms[i][1..], names, true)
  }

  /** The positive term asks for a selection that is negated: any of a `1 of` term, some of any
      other. */
  predicate Clashes(term: seq<string>, terms: seq<seq<string>>, names: seq<string>) {
    !IsNot(term) &&
    if IsOneOf(term) then forall n :: n in NamesForTerm(term[2..], names, false) ==> Negated(terms, names, n)
    else exists n :: n in NamesForTerm(term, names, false) && Negated(terms, names, n)
  }

  ghost predicate SomeTermClashes(terms: seq<seq<string>>, names: seq<string>) {
    exists i :: 0 <= i < |terms| && Clashes(terms[i], terms, names)
  }

  // ----- What is collected -----

  ghost predicate GivenUpAt(term: seq<string>, names: seq<string>) {
    if IsNot(term) then |NamesForTerm(term[1..], names, true)| != 1
    else IsOneOf(term) && !Resolves(term, names, false)
  }

  lemma GivenUpLast(terms: seq<seq<string>>, names: seq<string>)
    requires terms != []
    ensures GivenUp(terms, names) <==> GivenUp(terms[..|terms| - 1], names) || GivenUpAt(terms[|terms| - 1], names)
  {
    var n := |terms| - 1;
    var front := terms[..n];
    assert forall i :: 0 <= i < n ==> front[i] == terms[i];
    if i :| 0 <= i < |front| && !IsNot(front[i]) && IsOneOf(front[i]) && !Resolves(front[i], names, false) {
      assert terms[i] == front[i];
    }
  }

  lemma NoOptions(term: seq<string>, names: seq<string>)
    ensures PositiveOptions(term, names) == [] <==> IsOneOf(term) && !Resolves(term, names, false)
  {
    PositiveTerm(term, names, {});
  }

  lemma {:induction false} CollectedIff(terms: seq<seq<string>>, names: seq<string>)
    requires NoEmptyTerm(terms)
    ensures Collect(terms, names).Collected? <==> !GivenUp(terms, names)
  {
    if terms != [] {
      var n := |terms| - 1;
      CollectedIff(terms[..n], names);
      GivenUpLast(terms, names);
      NoOptions(terms[n], names);
    }
  }

  /** An option list stems from a positive term. */
  ghost predicate OptionsOf(options: seq<seq<string>>, terms: seq<seq<string>>, names: seq<string>) {
    exists i :: 0 <= i < |terms| && !IsNot(terms[i]) && options == PositiveOptions(terms[i], names)
  }

  lemma OptionsOfLast(options: seq<seq<string>>, terms: seq<seq<string>>, names: seq<string>)
    requires terms != []
    ensures var n := |terms| - 1;
      OptionsOf(options, terms, names) <==>
      OptionsOf(options, terms[..n], names) || (!IsNot(terms[n]) && options == PositiveOptions(terms[n], names))
  {
    var n := |terms| - 1;
    if i :| 0 <= i < n && !IsNot(terms[..n][i]) && options == PositiveOptions(terms[..n][i], names) {
      assert terms[i] == terms[..n][i];
    }
    if i :| 0 <= i < |terms| && !IsNot(terms[i]) && options == PositiveOptions(terms[i], names) && i < n {
      assert terms[..n][i] == terms[i];
    }
  }

  lemma {:induction false} CollectedOptions(terms: seq<seq<string>>, names: seq<string>, options: seq<seq<string>>)
    requires Collect(terms, names).Collected?
    ensures options in Collect(terms, names).options <==> OptionsOf(options, terms, names)
  {
    if terms != [] {
      var n := |terms| - 1;
      CollectedOptions(terms[..n], names, options);
      OptionsOfLast(options, terms, names);
    }
  }

  lemma NegatedLast(terms: seq<seq<string>>, names: seq<string>, x: string)
    requires terms != []
    ensures var n := |terms| - 1;
      Negated(terms, names, x) <==>
      Negated(terms[..n], names, x) || (IsNot(terms[n]) && x in NamesForTerm(terms[n][1..], names, true))
  {
    var n := |terms| - 1;
    if i :| 0 <= i < n && IsNot(terms[..n][i]) && x in NamesForTerm(terms[..n][i][1..], names, true) {
      assert terms[i] == terms[..n][i];
    }
    if i :| 0 <= i < |terms| && IsNot(terms[i]) && x in NamesForTerm(terms[i][1..], names, true) && i < n {
      assert terms[..n][i] == terms[i];
    }
  }

  lemma {:induction false} CollectedNegatives(terms: seq<seq<string>>, names: seq<string>, x: string)
    requires Collect(terms, names).Collected?
    ensures x in Collect(terms, names).negatives <==> Negated(terms, names, x)
  {
    if terms != [] {
      CollectedNegatives(terms[..|terms| - 1], names, x);
      NegatedLast(terms, names, x);
    }
  }

  // ----- Which plans there are -----

  /** The option does without every negated name. */
  predicate Free(option: seq<string>, negatives: seq<string>) {
    forall n :: n in option ==> n !in negatives
  }

  ghost predicate HasFree(options: seq<seq<string>>, negatives: seq<string>) {
    exists o :: o in options && Free(o, negatives)
  }

  lemma ClashMeansNoFree(term: seq<string>, terms: seq<seq<string>>, names: seq<string>, negatives: seq<string>)
    requires !IsNot(term) && forall x :: x in negatives <==> Negated(terms, names, x)
    ensures Clashes(term, terms, names) <==> !HasFree(PositiveOptions(term, names), negatives)
  {
    var options := PositiveOptions(term, names);
    if IsOneOf(term) {
      var found := NamesForTerm(term[2..], names, false);
      if HasFree(options, negatives) {
        var o :| o in options && Free(o, negatives);
        assert o[0] in found && o[0] in o;
      }
      if n :| n in found && n !in negatives {
        var i :| 0 <= i < |found| && found[i] == n;
        assert options[i] in options && Free(options[i], negatives);
      }
    } else {
      assert options[0] in options && forall o :: o in options ==> o == options[0];
    }
  }

  /** A choice of one free option from each list. */
  lemma {:induction false} FreeGroup(
      options: seq<seq<seq<string>>>, negatives: seq<string>) returns (group: seq<seq<string>>)
    requires forall i :: 0 <= i < |options| ==> HasFree(options[i], negatives)
    ensures Picks(group, options) && forall i :: 0 <= i < |group| ==> Free(group[i], negatives)
  {
    if options == [] {
      group := [];
    } else {
      var n := |options| - 1;
      var front := FreeGroup(options[..n], negatives);
      var o :| o in options[n] && Free(o, negatives);
      group := front + [o];
    }
  }

  /** The names of a group are those of its options. */
  lemma GroupNames(group: seq<seq<string>>, x: string)
    ensures x in Dedupe(Flatten(group)) <==> exists i :: 0 <= i < |group| && x in group[i]
  {
    FlattenMembers(group, x);
  }

  lemma FreeGroupIsConsistent(group: seq<seq<string>>, negatives: seq<string>)
    ensures (forall i :: 0 <= i < |group| ==> Free(group[i], negatives)) <==>
            !Contradictory(NamePlan(Dedupe(Flatten(group)), negatives))
  {
    var plan := NamePlan(Dedupe(Flatten(group)), negatives);
    if i, x :| 0 <= i < |group| && x in group[i] && x in negatives {
      GroupNames(group, x);
    }
    if x :| x in plan.positives && x in negatives {
      GroupNames(group, x);
    }
  }

  /** A plan that asks for a selection and forbids it. */
  ghost predicate Contradictory(plan: NamePlan) {
    exists n :: n in plan.positives && n in plan.negatives
  }

  ghost predicate AllContradict(plans: seq<NamePlan>) {
    forall i :: 0 <= i < |plans| ==> Contradictory(plans[i])
  }

  lemma NothingResolvesNoPlan(branch: seq<string>, names: seq<string>)
    requires branch != [] && NothingResolves(SplitOn(branch, "and"), names)
    ensures BranchPlans(branch, names) == []
  {
    var terms, plans := SplitOn(branch, "and"), BranchPlans(branch, names);
    if Collect(terms, names).Collected? && plans != [] {
      var Collected(options, negatives) := Collect(terms, names);
      GroupPlansMembers(Product(options), negatives, plans[0]);
      var g :| g in Product(options) && plans[0].positives == Dedupe(Flatten(g));
      ProductMembers(options, g);
      var x := plans[0].positives[0];
      GroupNames(g, x);
      var i :| 0 <= i < |g| && x in g[i];
      assert options[i] in options && g[i] in options[i];
      NonEmptyOptionResolves(terms, names, options[i], g[i]);
    }
  }

  lemma NonEmptyOptionResolves(terms: seq<seq<string>>, names: seq<string>, options: seq<seq<string>>, o: seq<string>)
    requires Collect(terms, names).Collected? && options in Collect(terms, names).options && o in options && o != []
    ensures !NothingResolves(terms, names)
  {
    CollectedOptions(terms, names, options);
    var i :| 0 <= i < |terms| && !IsNot(terms[i]) && options == PositiveOptions(terms[i], names);
    PositiveTerm(terms[i], names, {});
    if !IsOneOf(terms[i]) {
      assert o == NamesForTerm(terms[i], names, false) && o[0] in o;
    } else {
      var found := NamesForTerm(terms[i][2..], names, false);
      assert found[0] in found;
      assert OneOfPattern(terms[i], false) == PatternOf(terms[i][2..]);
    }
  }

  /** A branch that is collected, in which a term resolves and none clashes, has a plan without
      contradiction. */
  lemma ConsistentPlan(branch: seq<string>, names: seq<string>) returns (plan: NamePlan)
    requires branch != []
    requires var terms := SplitOn(branch, "and");
             !GivenUp(terms, names) && !NothingResolves(terms, names) && !SomeTermClashes(terms, names)
    ensures plan in BranchPlans(branch, names) && !Contradictory(plan)
  {
    var terms := SplitOn(branch, "and");
    SplitIsExact(branch, "and");
    CollectedIff(terms, names);
    var Collected(options, negatives) := Collect(terms, names);
    AllHaveFree(terms, names);
    var g := FreeGroup(options, negatives);
    FreeGroupIsConsistent(g, negatives);
    ProductMembers(options, g);
    SomeNameChosen(terms, names, g);
    plan := NamePlan(Dedupe(Flatten(g)), negatives);
    assert MadeFrom(plan, Product(options));
    GroupPlansMembers(Product(options), negatives, plan);
  }

  lemma AllHaveFree(terms: seq<seq<string>>, names: seq<string>)
    requires Collect(terms, names).Collected? && !SomeTermClashes(terms, names)
    ensures var c := Collect(terms, names);
      forall i :: 0 <= i < |c.options| ==> HasFree(c.options[i], c.negatives)
  {
    var Collected(options, negatives) := Collect(terms, names);
    forall x ensures x in negatives <==> Negated(terms, names, x) {
      CollectedNegatives(terms, names, x);
    }
    forall i | 0 <= i < |options| ensures HasFree(options[i], negatives) {
      CollectedOptions(terms, names, options[i]);
      var k :| 0 <= k < |terms| && !IsNot(terms[k]) && options[i] == PositiveOptions(terms[k], names);
      ClashMeansNoFree(terms[k], terms, names, negatives);
    }
  }

  /** When a term resolves, every choice takes some name. */
  lemma SomeNameChosen(terms: seq<seq<string>>, names: seq<string>, group: seq<seq<string>>)
    requires Collect(terms, names).Collected? && !NothingResolves(terms, names)
    requires Picks(group, Collect(terms, names).options)
    ensures Dedupe(Flatten(group)) != [] && Collect(terms, names).options != []
  {
    var options := Collect(terms, names).options;
    var k :| 0 <= k < |terms| && !IsNot(terms[k]) && Resolves(terms[k], names, false);
    PositiveTerm(terms[k], names, {});
    CollectedOptions(terms, names, PositiveOptions(terms[k], names));
    var i :| 0 <= i < |options| && options[i] == PositiveOptions(terms[k], names);
    assert group[i] in options[i] && group[i][0] in group[i];
    GroupNames(group, group[i][0]);
  }

  lemma ClashingPlansContradict(branch: seq<string>, names: seq<string>, plan: NamePlan)
    requires branch != [] && SomeTermClashes(SplitOn(branch, "and"), names) && plan in BranchPlans(branch, names)
    ensures Contradictory(plan)
  {
    var terms := SplitOn(branch, "and");
    var Collected(options, negatives) := Collect(terms, names);
    GroupPlansMembers(Product(options), negatives, plan);
    var g :| g in Product(options) && plan.positives == Dedupe(Flatten(g));
    ProductMembers(options, g);
    var k :| 0 <= k < |terms| && Clashes(terms[k], terms, names);
    forall x ensures x in negatives <==> Negated(terms, names, x) {
      CollectedNegatives(terms, names, x);
    }
    ClashMeansNoFree(terms[k], terms, names, negatives);
    CollectedOptions(terms, names, PositiveOptions(terms[k], names));
    var i :| 0 <= i < |options| && options[i] == PositiveOptions(terms[k], names);
    assert g[i] in options[i] && !Free(g[i], negatives);
    FreeGroupIsConsistent(g, negatives);
  }

  /** Every positive term has an option whose names all match, and no negated name matches. A term
      that stands for nothing has the empty option. */
  ghost predicate TermsAllow(terms: seq<seq<string>>, names: seq<string>, hits: set<string>) {
    && (forall i :: 0 <= i < |terms| && !IsNot(terms[i]) ==> OptionHolds(PositiveOptions(terms[i], names), hits))
    && forall n :: Negated(terms, names, n) ==> n !in hits
  }

  lemma AllowedIsCollected(terms: seq<seq<string>>, names: seq<string>, hits: set<string>)
    requires Collect(terms, names).Collected?
    ensures var c := Collect(terms, names);
      TermsAllow(terms, names, hits) <==> OptionsHold(c.options, hits) && NoneHit(c.negatives, hits)
  {
    var Collected(options, negatives) := Collect(terms, names);
    forall n ensures n in negatives <==> Negated(terms, names, n) {
      CollectedNegatives(terms, names, n);
    }
    forall o ensures o in options <==> OptionsOf(o, terms, names) {
      CollectedOptions(terms, names, o);
    }
    if OptionsHold(options, hits) {
      forall i | 0 <= i < |terms| && !IsNot(terms[i]) ensures OptionHolds(PositiveOptions(terms[i], names), hits) {
        assert PositiveOptions(terms[i], names) in options;
      }
    }
    if TermsAllow(terms, names, hits) {
      forall i | 0 <= i < |options| ensures OptionHolds(options[i], hits) {
        assert options[i] in options;
      }
    }
  }

  /** Main result: exactly when some plan of a branch fires, for every branch. */
  lemma BranchFiresIff(branch: seq<string>, names: seq<string>, hits: set<string>)
    requires branch != []
    ensures var terms := SplitOn(branch, "and");
      SomePlanFires(BranchPlans(branch, names), hits) <==>
      !GivenUp(terms, names) && !NothingResolves(terms, names) && TermsAllow(terms, names, hits)
  {
    var terms, plans := SplitOn(branch, "and"), BranchPlans(branch, names);
    SplitIsExact(branch, "and");
    CollectedIff(terms, names);
    NoPlanIff(branch, names);
    if !GivenUp(terms, names) && !NothingResolves(terms, names) {
      AllowedIsCollected(terms, names, hits);
      var Collected(options, negatives) := Collect(terms, names);
      if TermsAllow(terms, names, hits) {
        AllowedFires(branch, names, hits);
      }
      if i :| 0 <= i < |plans| && PlanFires(plans[i], hits) {
        FiringPlanCovers(options, negatives, plans[i], hits);
      }
    }
  }

  lemma AllowedFires(branch: seq<string>, names: seq<string>, hits: set<string>)
    requires branch != [] && Collect(SplitOn(branch, "and"), names).Collected?
    requires !NothingResolves(SplitOn(branch, "and"), names)
    requires var c := Collect(SplitOn(branch, "and"), names);
             OptionsHold(c.options, hits) && NoneHit(c.negatives, hits)
    ensures SomePlanFires(BranchPlans(branch, names), hits)
  {
    var terms := SplitOn(branch, "and");
    var Collected(options, negatives) := Collect(terms, names);
    var group := CoveredGroup(options, hits);
    ProductMembers(options, group);
    SomeNameChosen(terms, names, group);
    var plan := NamePlan(Dedupe(Flatten(group)), negatives);
    PlanFiresIffGroupCovered(group, negatives, hits);
    assert MadeFrom(plan, Product(options));
    GroupPlansMembers(Product(options), negatives, plan);
    assert plan in BranchPlans(branch, names);
  }

  /** A branch has no plan exactly when it is given up or no positive term resolves. */
  lemma NoPlanIff(branch: seq<string>, names: seq<string>)
    requires branch != []
    ensures var terms := SplitOn(branch, "and");
      BranchPlans(branch, names) == [] <==> GivenUp(terms, names) || NothingResolves(terms, names)
  {
    var terms := SplitOn(branch, "and");
    SplitIsExact(branch, "and");
    CollectedIff(terms, names);
    if NothingResolves(terms, names) {
      NothingResolvesNoPlan(branch, names);
    } else if !GivenUp(terms, names) {
      var Collected(options, negatives) := Collect(terms, names);
      var g := AnyGroup(terms, names);
      ProductMembers(options, g);
      SomeNameChosen(terms, names, g);
      var plan := NamePlan(Dedupe(Flatten(g)), negatives);
      assert MadeFrom(plan, Product(options));
      GroupPlansMembers(Product(options), negatives, plan);
    }
  }

  lemma AnyGroup(terms: seq<seq<string>>, names: seq<string>) returns (group: seq<seq<string>>)
    requires Collect(terms, names).Collected?
    ensures Picks(group, Collect(terms, names).options)
  {
    var options := Collect(terms, names).options;
    forall i | 0 <= i < |options| ensures HasFree(options[i], []) {
      CollectedNotEmpty(terms, names, i);
      assert options[i][0] in options[i] && Free(options[i][0], []);
    }
    group := FreeGroup(options, []);
  }

  lemma {:induction false} CollectedNotEmpty(terms: seq<seq<string>>, names: seq<string>, i: nat)
    requires Collect(terms, names).Collected? && i < |Collect(terms, names).options|
    ensures Collect(terms, names).options[i] != []
  {
    var n := |terms| - 1;
    var front := Collect(terms[..n], names).options;
    if i < |front| {
      CollectedNotEmpty(terms[..n], names, i);
    }
  }

  lemma AllContradictIff(branch: seq<string>, names: seq<string>)
    requires branch != []
    ensures var terms := SplitOn(branch, "and");
      AllContradict(BranchPlans(branch, names)) <==>
      GivenUp(terms, names) || NothingResolves(terms, names) || SomeTermClashes(terms, names)
  {
    var terms, plans := SplitOn(branch, "and"), BranchPlans(branch, names);
    NoPlanIff(branch, names);
    if SomeTermClashes(terms, names) {
      forall i | 0 <= i < |plans| ensures Contradictory(plans[i]) {
        ClashingPlansContradict(branch, names, plans[i]);
      }
    } else if !GivenUp(terms, names) && !NothingResolves(terms, names) {
      var plan := ConsistentPlan(branch, names);
      var i :| 0 <= i < |plans| && plans[i] == plan;
    }
  }

  // ----- Main results -----

  /** Expansion weakens a branch in no case exactly when every positive term stands for some
      selection, or the branch is given up, or no positive term stands for any, or one asks for what
      is negated: a positive term that names nothing is otherwise dropped from the conjunction
      instead of making it unsatisfiable. */
  lemma ExpansionIsSoundIff(branch: seq<string>, names: seq<string>)
    requires branch != []
    ensures var terms := SplitOn(branch, "and");
      (forall hits :: SomePlanFires(BranchPlans(branch, names), hits) ==> BranchHolds(branch, names, hits))
      <==> AllResolve(terms, names) || GivenUp(terms, names) || NothingResolves(terms, names)
           || SomeTermClashes(terms, names)
  {
    var terms := SplitOn(branch, "and");
    AllContradictIff(branch, names);
    if AllResolve(terms, names) {
      forall hits | SomePlanFires(BranchPlans(branch, names), hits) ensures BranchHolds(branch, names, hits) {
        ExpansionIsSound(branch, names, hits);
      }
    } else {
      UnresolvedIsSoundIff(branch, names);
    }
  }

  /** A branch that cannot hold is expanded soundly exactly when its plans cannot fire. */
  lemma UnresolvedIsSoundIff(branch: seq<string>, names: seq<string>)
    requires branch != [] && !AllResolve(SplitOn(branch, "and"), names)
    ensures (forall hits :: SomePlanFires(BranchPlans(branch, names), hits) ==> BranchHolds(branch, names, hits))
       <==> AllContradict(BranchPlans(branch, names))
  {
    var terms, plans := SplitOn(branch, "and"), BranchPlans(branch, names);
    forall hits ensures !BranchHolds(branch, names, hits) {
      UnresolvedBranchNeverHolds(terms, names, hits);
    }
    forall i | 0 <= i < |plans| && !Contradictory(plans[i]) ensures exists hits :: SomePlanFires(plans, hits) {
      var hits := set n | n in plans[i].positives;
      assert PlanFires(plans[i], hits);
      assert SomePlanFires(plans, hits);
    }
    forall hits | SomePlanFires(plans, hits) ensures !AllContradict(plans) {
      var i :| 0 <= i < |plans| && PlanFires(plans[i], hits);
      assert !Contradictory(plans[i]);
    }
  }

  /** Negated terms are about other selections than positive ones, as with the `filter_*` naming
      convention. */
  ghost predicate FollowsConvention(terms: seq<seq<string>>, names: seq<string>) {
    forall i, n :: 0 <= i < |terms| && IsNot(terms[i]) && n in NamesForTerm(terms[i][1..], names, true) ==>
      IsFilterName(n)
  }

  /** For a branch that negates filters only, the plans mean exactly what the branch means when
      the branch is supported, and otherwise only when some positive term does not resolve and the
      branch is given up or none of them does. */
  lemma ExpansionIsExactIff(branch: seq<string>, names: seq<string>)
    requires branch != []
    requires FollowsConvention(SplitOn(branch, "and"), names)
    ensures (forall hits :: SomePlanFires(BranchPlans(branch, names), hits) <==> BranchHolds(branch, names, hits))
       <==> (Supported(branch, names)
             || (!AllResolve(SplitOn(branch, "and"), names)
                 && (GivenUp(SplitOn(branch, "and"), names) || NothingResolves(SplitOn(branch, "and"), names))))
  {
    var terms := SplitOn(branch, "and");
    var plans := BranchPlans(branch, names);
    SplitIsExact(branch, "and");
    NoPlanIff(branch, names);
    if Supported(branch, names) {
      forall hits ensures SomePlanFires(plans, hits) <==> BranchHolds(branch, names, hits) {
        BranchPlansFire(branch, names, hits);
      }
    } else if AllResolve(terms, names) {
      AllResolvedUnsupported(branch, names);
      var hits := set n | n in names && !IsFilterName(n);
      SelectionsOnlyHold(terms, names, hits);
      assert !SomePlanFires(plans, hits) && BranchHolds(branch, names, hits);
    } else {
      forall hits ensures !BranchHolds(branch, names, hits) {
        UnresolvedBranchNeverHolds(terms, names, hits);
      }
      if plans != [] {
        ConventionalPlanIsConsistent(branch, names, plans[0]);
        var hits := set n | n in plans[0].positives;
        assert PlanFires(plans[0], hits);
        assert SomePlanFires(plans, hits) && !BranchHolds(branch, names, hits);
      }
    }
  }

  /** When all selections match and no filter does, every literal of a conventional branch holds. */
  lemma SelectionsOnlyHold(terms: seq<seq<string>>, names: seq<string>, hits: set<string>)
    requires AllResolve(terms, names) && FollowsConvention(terms, names)
    requires hits == set n | n in names && !IsFilterName(n)
    ensures AllHold(terms, names, hits)
  {
    forall i | 0 <= i < |terms| ensures LiteralHolds(terms[i], names, hits) {
      if IsNot(terms[i]) {
        var t := terms[i][1..];
        assert forall n :: n in NamesForTerm(t, names, true) ==> n !in hits;
        if IsOneOf(t) {
          assert OneOfPattern(t, true) == PatternOf(t);
        }
      }
    }
  }

  lemma ConventionalPlanIsConsistent(branch: seq<string>, names: seq<string>, plan: NamePlan)
    requires branch != [] && FollowsConvention(SplitOn(branch, "and"), names)
    requires plan in BranchPlans(branch, names)
    ensures !Contradictory(plan)
  {
    var terms := SplitOn(branch, "and");
    var Collected(options, negatives) := Collect(terms, names);
    CollectNames(terms, names);
    GroupPlansMembers(Product(options), negatives, plan);
    var g :| g in Product(options) && plan.positives == Dedupe(Flatten(g));
    ProductMembers(options, g);
    forall n | n in plan.positives ensures !IsFilterName(n) {
      FlattenMembers(g, n);
      var i :| 0 <= i < |g| && n in g[i];
      assert g[i] in options[i];
    }
  }

  /** Where every positive term resolves, an unsupported branch is given up or has none. */
  lemma AllResolvedUnsupported(branch: seq<string>, names: seq<string>)
    requires branch != [] && AllResolve(SplitOn(branch, "and"), names) && !Supported(branch, names)
    ensures BranchPlans(branch, names) == []
  {
    NoPlanIff(branch, names);
  }

  /** Positive options never name a filter; with the convention, negatives name nothing else. */
  lemma {:induction false} CollectNames(terms: seq<seq<string>>, names: seq<string>)
    requires FollowsConvention(terms, names)
    requires Collect(terms, names).Collected?
    ensures forall i, o, n ::
      0 <= i < |Collect(terms, names).options| && o in Collect(terms, names).options[i] && n in o ==>
        !IsFilterName(n) && n in names
    ensures forall n :: n in Collect(terms, names).negatives ==> IsFilterName(n) && n in names
  {
    if terms != [] {
      var n := |terms| - 1;
      CollectNames(terms[..n], names);
    }
  }
}
