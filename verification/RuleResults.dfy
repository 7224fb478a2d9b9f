/** What the rules compiled from a Sigma condition report, from the words of the condition to the event
    or the command, with the techniques and indicators they name. */
module RuleResults {
  import opened SigmaPlans
  import opened SigmaMatching
  import opened SigmaTerms
  import opened CommandMatching
  import opened CowrieSigma

  // ----- HTTP events -----

  /** The plan holds of an event: each selection asked for has indicators in it, none that is excluded
      has. */
  ghost predicate IsMet<S>(p: Plan<S>, indicators: S -> seq<string>) {
    (forall s :: s in p.positives ==> indicators(s) != []) && forall s :: s in p.negatives ==> indicators(s) == []
  }

  lemma MetIff<S>(p: Plan<S>, indicators: S -> seq<string>)
    ensures Holds(p, Hit(indicators)) <==> IsMet(p, indicators)
  {
    if IsMet(p, indicators) {
      assert forall i :: 0 <= i < |p.positives| ==> p.positives[i] in p.positives;
      assert forall i :: 0 <= i < |p.negatives| ==> p.negatives[i] in p.negatives;
    }
    if Holds(p, Hit(indicators)) {
      forall s | s in p.positives ensures indicators(s) != [] {
        var i :| 0 <= i < |p.positives| && p.positives[i] == s;
        assert Hit(indicators)(p.positives[i]);
      }
      forall s | s in p.negatives ensures indicators(s) == [] {
        var i :| 0 <= i < |p.negatives| && p.negatives[i] == s;
        assert !Hit(indicators)(p.negatives[i]);
      }
    }
  }

  lemma {:induction false} IndicatorsMembers<S>(selections: seq<S>, indicators: S -> seq<string>, x: string)
    ensures x in IndicatorsOf(selections, indicators) <==> exists s :: s in selections && x in indicators(s)
  {
    if selections != [] {
      var n := |selections| - 1;
      IndicatorsMembers(selections[..n], indicators, x);
      assert selections == selections[..n] + [selections[n]];
      assert selections[n] in selections;
    }
  }

  ghost predicate Reports<S>(p: Plan<S>, indicators: S -> seq<string>, x: string) {
    IsMet(p, indicators) && exists s :: s in p.positives && x in indicators(s)
  }

  /** Main result: what is reported for an event is exactly what the selections of the plans that hold
      of it find in it, each once. */
  lemma {:induction false} ReportedIff<S>(plans: seq<Plan<S>>, indicators: S -> seq<string>, x: string)
    ensures x in MatchedIndicators(plans, indicators) <==> exists p :: p in plans && Reports(p, indicators, x)
  {
    if plans != [] {
      var n := |plans| - 1;
      ReportedIff(plans[..n], indicators, x);
      MetIff(plans[n], indicators);
      IndicatorsMembers(plans[n].positives, indicators, x);
      assert plans == plans[..n] + [plans[n]];
      assert plans[n] in plans;
    }
  }

  /** And a condition of written terms reports something exactly when its words allow it. */
  lemma WrittenRuleReportsIff<S>(branches: seq<seq<SigmaTerms.Item>>, d: Detection<S>, indicators: S -> seq<string>)
    requires d.Valid() && WellWritten(branches)
    ensures KnownPlans(ConditionPlans(ConditionText(branches), d.names), d.names)
    ensures MatchedIndicators(Render(ConditionPlans(ConditionText(branches), d.names), d), indicators) != []
       <==> SomeAllows(branches, d.names, set n | n in d.names && indicators(d.selection[n]) != [])
  {
    var plans := ConditionPlans(ConditionText(branches), d.names);
    var hits := set n | n in d.names && indicators(d.selection[n]) != [];
    ConditionPlansKnown(ConditionText(branches), d.names);
    MatchedIffSomeFires(plans, d, indicators);
    assert Hits(d, Hit(indicators)) == hits;
    FiresIff(plans, hits);
    ConditionFiresIff(branches, d.names, hits);
  }

  // ----- Shell commands -----

  /** The command is of one of the processes and holds one of the texts, as far as these are given. */
  ghost predicate Fits(c: Command, m: CommandMatch) {
    && (m.processNames != [] || m.containsAny != [])
    && (m.processNames != [] ==> c.processName in m.processNames)
    && (m.containsAny != [] ==> exists t :: t in m.containsAny && Includes(c.line, t))
  }

  ghost predicate Includes(line: string, t: string) {
    exists i, j :: 0 <= i <= j <= |line| && line[i..j] == t
  }

  lemma ContainsIff(line: string, t: string)
    ensures Contains(line, t) <==> Includes(line, t)
  {
    if i :| 0 <= i <= |line| && StartsWith(line[i..], t) {
      assert line[i..i + |t|] == line[i..][..|t|];
    }
    if i, j :| 0 <= i <= j <= |line| && line[i..j] == t {
      assert line[i..][..|t|] == line[i..j];
      assert StartsWith(line[i..], t);
    }
  }

  lemma FitsIff(c: Command, m: CommandMatch)
    requires m.regexAny == []
    ensures CommandMatches(c, m) <==> Fits(c, m)
  {
    if i :| 0 <= i < |m.containsAny| && Contains(c.line, m.containsAny[i]) {
      ContainsIff(c.line, m.containsAny[i]);
      assert m.containsAny[i] in m.containsAny;
    }
    if t :| t in m.containsAny && Includes(c.line, t) {
      var i :| 0 <= i < |m.containsAny| && m.containsAny[i] == t;
      ContainsIff(c.line, m.containsAny[i]);
    }
  }

  /** A rule for the technique matches the command. */
  ghost predicate IsReported(rules: seq<Rule>, technique: string, c: Command) {
    exists r :: r in rules && r.technique == technique
                && CommandMatches(c, r.positive) && (r.exclude.Some? ==> !CommandMatches(c, r.exclude.value))
  }

  lemma {:induction false} SomeRuleIsReported<S>(
      plans: seq<Plan<S>>, convert: S -> CommandMatch, techniques: seq<string>, t: string, c: Command)
    requires t in techniques
    ensures var rules := RulesOfPlans(plans, convert, techniques);
      SomeRuleMatches(rules, c) <==> IsReported(rules, t, c)
  {
    if plans != [] {
      var n := |plans| - 1;
      SomeRuleIsReported(plans[..n], convert, techniques, t, c);
      var front, last := RulesOfPlans(plans[..n], convert, techniques), PlanRules(plans[n], convert, techniques);
      var rules := RulesOfPlans(plans, convert, techniques);
      SomeRuleMatchesConcat(front, last, rules, c);
      RuleOfPlanIsReported(plans[n], convert, techniques, t, c);
      assert IsReported(rules, t, c) <==> IsReported(front, t, c) || IsReported(last, t, c);
    }
  }

  /** All rules of a plan match alike. */
  lemma RuleOfPlanIsReported<S>(
      plan: Plan<S>, convert: S -> CommandMatch, techniques: seq<string>, t: string, c: Command)
    requires t in techniques
    ensures var rules := PlanRules(plan, convert, techniques);
      SomeRuleMatches(rules, c) <==> IsReported(rules, t, c)
  {
    var rules := PlanRules(plan, convert, techniques);
    if rules != [] {
      var k :| 0 <= k < |techniques| && techniques[k] == t;
      assert rules[k] in rules && rules[k].technique == t;
      forall i | 0 <= i < |rules|
        ensures rules[i].positive == rules[k].positive && rules[i].exclude == rules[k].exclude
      {
      }
    }
    if r :| r in rules && r.technique == t && CommandMatches(c, r.positive)
            && (r.exclude.Some? ==> !CommandMatches(c, r.exclude.value)) {
      var i :| 0 <= i < |rules| && rules[i] == r;
      assert CommandMatchesRule(c, rules[i]);
    }
  }

  /** The selections that fit the command. */
  ghost function Fitting<S>(d: Detection<S>, convert: S -> CommandMatch, c: Command): set<string>
    requires d.Valid()
  {
    set n | n in d.names && Fits(c, convert(d.selection[n]))
  }

  /** Main result: from the words of a condition over selections of process names and texts to the
      command: every technique of the rule is reported for a command of one line exactly when the words
      allow the selections that fit it, provided the exclusions of each plan are merged without loss. */
  lemma WrittenCommandRulesFireIff<S>(
      branches: seq<seq<SigmaTerms.Item>>, d: Detection<S>, convert: S -> CommandMatch, techniques: seq<string>,
      c: Command, t: string)
    requires d.Valid() && WellWritten(branches) && UniformDetection(d, convert) && FullyConvertible(d, convert)
    requires forall n :: n in d.names ==> convert(d.selection[n]).regexAny == []
    requires ConditionIsExact(ConditionText(branches), d, convert, c) && '\n' !in c.line && t in techniques
    ensures KnownPlans(ConditionPlans(ConditionText(branches), d.names), d.names)
    ensures var rules := RulesOfPlans(Render(ConditionPlans(ConditionText(branches), d.names), d), convert, techniques);
      IsReported(rules, t, c) <==> SomeAllows(branches, d.names, Fitting(d, convert, c))
  {
    var condition := ConditionText(branches);
    var plans, hits := ConditionPlans(condition, d.names), Hits(d, Applies(convert, c));
    ConditionPlansKnown(condition, d.names);
    SomeRuleIsReported(Render(plans, d), convert, techniques, t, c);
    RulesFireIff(condition, d, convert, techniques, c);
    forall n | n in d.names ensures n in hits <==> n in Fitting(d, convert, c) {
      FitsIff(c, convert(d.selection[n]));
    }
    assert hits == Fitting(d, convert, c);
    FiresIff(plans, hits);
    ConditionFiresIff(branches, d.names, hits);
  }

  /** Rules fire exactly when a plan does. */
  lemma RulesFireIff<S>(
      condition: seq<string>, d: Detection<S>, convert: S -> CommandMatch, techniques: seq<string>, c: Command)
    requires d.Valid() && UniformDetection(d, convert) && FullyConvertible(d, convert) && techniques != []
    requires ConditionIsExact(condition, d, convert, c) && '\n' !in c.line
    ensures KnownPlans(ConditionPlans(condition, d.names), d.names)
    ensures SomeRuleMatches(RulesOfPlans(Render(ConditionPlans(condition, d.names), d), convert, techniques), c)
       <==> SomePlanFires(ConditionPlans(condition, d.names), Hits(d, Applies(convert, c)))
  {
    var plans, hits := ConditionPlans(condition, d.names), Hits(d, Applies(convert, c));
    ConditionPlansKnown(condition, d.names);
    var rendered := Render(plans, d);
    var rules := RulesOfPlans(rendered, convert, techniques);
    RulesOfPlansMatch(rendered, convert, techniques, rules, c);
    if SomeRuleMatches(rules, c) {
      var i :| 0 <= i < |rendered| && PlanApplies(rendered[i], convert, c);
      RuleIffPlanFires(plans[i], d, convert, c);
      assert PlanFires(plans[i], hits);
    }
    if i :| 0 <= i < |plans| && PlanFires(plans[i], hits) {
      RuleIffPlanFires(plans[i], d, convert, c);
      assert rendered[i] == RenderPlan(plans[i], d);
    }
  }
}
