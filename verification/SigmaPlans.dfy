/** Expansion of a Sigma detection condition into plans: each plan is a conjunction of selections
    that must match and selections that must not, and a rule fires when one of its plans holds.

    Conditions are sequences of tokens: the source lower-cases the text, turns parentheses into
    blanks and splits at white space before it looks at the condition. */
module SigmaPlans {
  import opened Iterables

  // ----- Text -----

  predicate StartsWith(s: string, prefix: string) {
    |prefix| <= |s| && s[..|prefix|] == prefix
  }

  predicate Contains(s: string, part: string) {
    exists i :: 0 <= i <= |s| && StartsWith(s[i..], part)
  }

  function Join(parts: seq<string>, separator: string): string {
    if parts == [] then "" else if |parts| == 1 then parts[0]
    else parts[0] + separator + Join(parts[1..], separator)
  }

  // ----- Splitting at `or` and `and` -----

  /** A separator word splits only when it stands between two other words of its segment. */
  function SplitFrom(current: seq<string>, tokens: seq<string>, separator: string): (r: seq<seq<string>>)
    decreases tokens
  {
    if tokens == [] then [current]
    else if tokens[0] == separator && current != [] && |tokens| > 1 then
      [current] + SplitFrom([], tokens[1..], separator)
    else SplitFrom(current + [tokens[0]], tokens[1..], separator)
  }

  function SplitOn(tokens: seq<string>, separator: string): seq<seq<string>> {
    SplitFrom([], tokens, separator)
  }

  function Unsplit(segments: seq<seq<string>>, separator: string): seq<string> {
    if segments == [] then [] else if |segments| == 1 then segments[0]
    else segments[0] + [separator] + Unsplit(segments[1..], separator)
  }

  /** No separator is left where it could have split. */
  ghost predicate FullySplit(segment: seq<string>, separator: string, last: bool) {
    forall i :: 0 < i < |segment| && (i < |segment| - 1 || !last) ==> segment[i] != separator
  }

  lemma SplitOffIsExact(current: seq<string>, tokens: seq<string>, separator: string)
    requires current != [] && |tokens| > 1 && tokens[0] == separator
    requires SplitFrom([], tokens[1..], separator) != []
    requires Unsplit(SplitFrom([], tokens[1..], separator), separator) == [] + tokens[1..]
    ensures Unsplit(SplitFrom(current, tokens, separator), separator) == current + tokens
  {
    var rest, r := SplitFrom([], tokens[1..], separator), SplitFrom(current, tokens, separator);
    assert r[1..] == rest;
    assert Unsplit(r, separator) == current + [separator] + Unsplit(rest, separator);
    assert current + tokens == current + [separator] + tokens[1..];
    assert [] + tokens[1..] == tokens[1..];
  }

  lemma {:induction false} SplitFromIsExact(current: seq<string>, tokens: seq<string>, separator: string)
    requires current + tokens != []
    requires tokens == [] || FullySplit(current, separator, false)
    requires FullySplit(current, separator, true)
    ensures SplitFrom(current, tokens, separator) != []
    ensures Unsplit(SplitFrom(current, tokens, separator), separator) == current + tokens
    ensures forall i :: 0 <= i < |SplitFrom(current, tokens, separator)| ==>
              SplitFrom(current, tokens, separator)[i] != []
    ensures forall i :: 0 <= i < |SplitFrom(current, tokens, separator)| ==>
              FullySplit(SplitFrom(current, tokens, separator)[i], separator,
                         i == |SplitFrom(current, tokens, separator)| - 1)
    decreases tokens
  {
    if tokens == [] {
      assert current + tokens == current;
    } else if tokens[0] == separator && current != [] && |tokens| > 1 {
      SplitFromIsExact([], tokens[1..], separator);
      SplitOffIsExact(current, tokens, separator);
    } else {
      SplitFromIsExact(current + [tokens[0]], tokens[1..], separator);
      assert current + [tokens[0]] + tokens[1..] == current + tokens;
    }
  }

  /** Splitting loses nothing, leaves no empty segment and misses no separator. */
  lemma SplitIsExact(tokens: seq<string>, separator: string)
    requires tokens != []
    ensures Unsplit(SplitOn(tokens, separator), separator) == tokens
    ensures forall i :: 0 <= i < |SplitOn(tokens, separator)| ==> SplitOn(tokens, separator)[i] != []
    ensures forall i :: 0 <= i < |SplitOn(tokens, separator)| ==>
              FullySplit(SplitOn(tokens, separator)[i], separator, i == |SplitOn(tokens, separator)| - 1)
  {
    SplitFromIsExact([], tokens, separator);
    assert [] + tokens == tokens;
  }

  // ----- Selections and terms -----

  /** The named selections of a rule, in their order, each name once. */
  datatype Detection<+S> = Detection(names: seq<string>, selection: map<string, S>) {
    ghost predicate Valid() {
      Distinct(names) && forall n :: n in names ==> n in selection
    }
  }

  predicate IsFilterName(name: string) {
    Contains(name, "filter")
  }

  function Filter(names: seq<string>, keep: string -> bool): (r: seq<string>)
    ensures forall n :: n in r <==> n in names && keep(n)
  {
    if names == [] then []
    else (if keep(names[0]) then [names[0]] else []) + Filter(names[1..], keep)
  }

  predicate Matches(pattern: string, name: string) {
    if pattern == "them" then true
    else if |pattern| > 0 && pattern[|pattern| - 1] == '*' then StartsWith(name, pattern[..|pattern| - 1])
    else pattern == name
  }

  /** The names a pattern stands for, in the order of the rule. */
  function NamesForPattern(pattern: string, names: seq<string>, includeFilters: bool): (r: seq<string>)
    ensures forall n :: n in r <==> n in names && (includeFilters || !IsFilterName(n)) && Matches(pattern, n)
  {
    var candidates := if includeFilters then names else Filter(names, n => !IsFilterName(n));
    if pattern == "them" then candidates
    else if |pattern| > 0 && pattern[|pattern| - 1] == '*' then
      Filter(candidates, n => StartsWith(n, pattern[..|pattern| - 1]))
    else if pattern in candidates && (includeFilters || !IsFilterName(pattern)) then [pattern] else []
  }

  predicate IsAllOf(term: seq<string>) {
    |term| > 2 && term[0] == "all" && term[1] == "of"
  }

  predicate IsOneOf(term: seq<string>) {
    |term| > 2 && term[0] == "1" && term[1] == "of"
  }

  predicate IsNot(term: seq<string>) {
    |term| > 1 && term[0] == "not"
  }

  function PatternOf(term: seq<string>): string {
    Join(if IsAllOf(term) || IsOneOf(term) then term[2..] else term, " ")
  }

  function NamesForTerm(term: seq<string>, names: seq<string>, includeFilters: bool): seq<string> {
    NamesForPattern(PatternOf(term), names, includeFilters)
  }

  /** The alternatives for a positive term: each is a list of selections that must all match. */
  function PositiveOptions(term: seq<string>, names: seq<string>): seq<seq<string>> {
    if IsOneOf(term) then
      var found := NamesForTerm(term[2..], names, false);
      seq(|found|, i requires 0 <= i < |found| => [found[i]])
    else [NamesForTerm(term, names, false)]
  }

  // ----- Plans -----

  /** A plan before the selections are looked up. */
  datatype NamePlan = NamePlan(positives: seq<string>, negatives: seq<string>)

  datatype Plan<+S> = Plan(name: string, positives: seq<S>, negatives: seq<S>)

  datatype Collected = Unsupported | Collected(options: seq<seq<seq<string>>>, negatives: seq<string>)

  function Collect(terms: seq<seq<string>>, names: seq<string>): Collected {
    if terms == [] then Collected([], [])
    else
      var n := |terms| - 1;
      var term := terms[n];
      match Collect(terms[..n], names)
      case Unsupported => Unsupported
      case Collected(options, negatives) =>
        if term == [] then Unsupported
        else if IsNot(term) then
          var found := NamesForTerm(term[1..], names, true);
          if |found| != 1 then Unsupported else Collected(options, negatives + found)
        else
          var found := PositiveOptions(term, names);
          if found == [] then Unsupported else Collected(options + [found], negatives)
  }

  /** Every way of taking one element from each list, the last list varying fastest. */
  function Product<T>(lists: seq<seq<T>>): seq<seq<T>> {
    if lists == [] then [[]]
    else var n := |lists| - 1; Extensions(Product(lists[..n]), lists[n])
  }

  function Extensions<T>(prefixes: seq<seq<T>>, last: seq<T>): seq<seq<T>> {
    if prefixes == [] then []
    else seq(|last|, i requires 0 <= i < |last| => prefixes[0] + [last[i]]) + Extensions(prefixes[1..], last)
  }

  function Flatten<T>(lists: seq<seq<T>>): seq<T> {
    if lists == [] then [] else lists[0] + Flatten(lists[1..])
  }

  /** One plan per non-empty group of positive names. */
  function GroupPlans(groups: seq<seq<seq<string>>>, negatives: seq<string>): seq<NamePlan> {
    if groups == [] then []
    else
      var n := |groups| - 1;
      var positives := Dedupe(Flatten(groups[n]));
      GroupPlans(groups[..n], negatives) + if positives == [] then [] else [NamePlan(positives, negatives)]
  }

  function BranchPlans(branch: seq<string>, names: seq<string>): seq<NamePlan> {
    match Collect(SplitOn(branch, "and"), names)
    case Unsupported => []
    case Collected(options, negatives) => if options == [] then [] else GroupPlans(Product(options), negatives)
  }

  function BranchesPlans(branches: seq<seq<string>>, names: seq<string>): seq<NamePlan> {
    if branches == [] then []
    else var n := |branches| - 1; BranchesPlans(branches[..n], names) + BranchPlans(branches[n], names)
  }

  function ConditionPlans(condition: seq<string>, names: seq<string>): seq<NamePlan> {
    if condition == [] then
      var selections := Filter(names, n => !IsFilterName(n));
      seq(|selections|, i requires 0 <= i < |selections| => NamePlan([selections[i]], []))
    else BranchesPlans(SplitOn(condition, "or"), names)
  }

  // ----- What a condition means -----

  /** `hits` are the selections that match the event under consideration. A quantifier over no
      selection at all, like an unknown name, never holds. */
  ghost predicate TermHolds(term: seq<string>, names: seq<string>, includeFilters: bool, hits: set<string>) {
    if IsOneOf(term) then
      exists n :: n in names && (includeFilters || !IsFilterName(n)) && Matches(OneOfPattern(term, includeFilters), n)
                  && n in hits
    else
      && Resolves(term, names, includeFilters)
      && forall n :: n in names && (includeFilters || !IsFilterName(n)) && Matches(PatternOf(term), n) ==> n in hits
  }

  /** A positive `1 of` term is resolved once more after its quantifier is taken off. */
  function OneOfPattern(term: seq<string>, includeFilters: bool): string
    requires IsOneOf(term)
  {
    if includeFilters then PatternOf(term) else PatternOf(term[2..])
  }

  ghost predicate Resolves(term: seq<string>, names: seq<string>, includeFilters: bool) {
    exists n :: n in names && (includeFilters || !IsFilterName(n))
                && Matches(if IsOneOf(term) then OneOfPattern(term, includeFilters) else PatternOf(term), n)
  }

  ghost predicate LiteralHolds(term: seq<string>, names: seq<string>, hits: set<string>) {
    if IsNot(term) then !TermHolds(term[1..], names, true, hits) else TermHolds(term, names, false, hits)
  }

  ghost predicate AllHold(terms: seq<seq<string>>, names: seq<string>, hits: set<string>) {
    forall i :: 0 <= i < |terms| ==> LiteralHolds(terms[i], names, hits)
  }

  ghost predicate BranchHolds(branch: seq<string>, names: seq<string>, hits: set<string>) {
    AllHold(SplitOn(branch, "and"), names, hits)
  }

  ghost predicate ConditionHolds(condition: seq<string>, names: seq<string>, hits: set<string>) {
    if condition == [] then exists n :: n in names && !IsFilterName(n) && n in hits
    else
      var branches := SplitOn(condition, "or");
      exists i :: 0 <= i < |branches| && BranchHolds(branches[i], names, hits)
  }

  ghost predicate PlanFires(plan: NamePlan, hits: set<string>) {
    (forall n :: n in plan.positives ==> n in hits) && (forall n :: n in plan.negatives ==> n !in hits)
  }

  ghost predicate SomePlanFires(plans: seq<NamePlan>, hits: set<string>) {
    exists i :: 0 <= i < |plans| && PlanFires(plans[i], hits)
  }

  // ----- Groups and products -----

  /** `group` takes one element from each list. */
  ghost predicate Picks<T>(group: seq<T>, lists: seq<seq<T>>) {
    |group| == |lists| && forall i :: 0 <= i < |lists| ==> group[i] in lists[i]
  }

  lemma {:induction false} ExtensionsMembers<T>(prefixes: seq<seq<T>>, last: seq<T>, group: seq<T>)
    ensures group in Extensions(prefixes, last) <==>
            group != [] && group[..|group| - 1] in prefixes && group[|group| - 1] in last
  {
    if prefixes != [] {
      ExtensionsMembers(prefixes[1..], last, group);
      var here := seq(|last|, i requires 0 <= i < |last| => prefixes[0] + [last[i]]);
      assert Extensions(prefixes, last) == here + Extensions(prefixes[1..], last);
      if group in here {
        var i :| 0 <= i < |last| && group == prefixes[0] + [last[i]];
        assert group[..|group| - 1] == prefixes[0];
      }
      if group != [] && group[..|group| - 1] == prefixes[0] && group[|group| - 1] in last {
        var i :| 0 <= i < |last| && last[i] == group[|group| - 1];
        assert here[i] == group;
      }
      assert forall p :: p in prefixes <==> p == prefixes[0] || p in prefixes[1..];
    }
  }

  lemma {:induction false} ProductMembers<T>(lists: seq<seq<T>>, group: seq<T>)
    ensures group in Product(lists) <==> Picks(group, lists)
  {
    if lists != [] {
      var n := |lists| - 1;
      ExtensionsMembers(Product(lists[..n]), lists[n], group);
      if group != [] {
        ProductMembers(lists[..n], group[..|group| - 1]);
        PicksLast(lists, group);
      }
    }
  }

  lemma PicksLast<T>(lists: seq<seq<T>>, group: seq<T>)
    requires lists != [] && group != []
    ensures Picks(group, lists) <==>
            Picks(group[..|group| - 1], lists[..|lists| - 1]) && group[|group| - 1] in lists[|lists| - 1]
  {
    if |group| == |lists| {
      var n := |lists| - 1;
      assert forall i :: 0 <= i < n ==> group[..n][i] == group[i] && lists[..n][i] == lists[i];
    }
  }

  lemma {:induction false} FlattenMembers<T>(lists: seq<seq<T>>, x: T)
    ensures x in Flatten(lists) <==> exists i :: 0 <= i < |lists| && x in lists[i]
  {
    if lists != [] {
      FlattenMembers(lists[1..], x);
      if i :| 0 <= i < |lists[1..]| && x in lists[1..][i] {
        assert x in lists[i + 1];
      }
      if i :| 0 <= i < |lists| && x in lists[i] {
        if i > 0 {
          assert x in lists[1..][i - 1];
        }
      }
    }
  }

  ghost predicate MadeFrom(plan: NamePlan, groups: seq<seq<seq<string>>>) {
    exists g :: g in groups && plan.positives == Dedupe(Flatten(g))
  }

  /** A plan is made of exactly the non-empty groups. */
  lemma {:induction false} GroupPlansMembers(groups: seq<seq<seq<string>>>, negatives: seq<string>, plan: NamePlan)
    ensures plan in GroupPlans(groups, negatives) <==>
            plan.negatives == negatives && plan.positives != [] && MadeFrom(plan, groups)
  {
    if groups != [] {
      var n := |groups| - 1;
      GroupPlansMembers(groups[..n], negatives, plan);
      assert forall g :: g in groups <==> g in groups[..n] || g == groups[n];
    }
  }

  // ----- From terms to options -----

  ghost predicate Covered(names: seq<string>, hits: set<string>) {
    forall n :: n in names ==> n in hits
  }

  ghost predicate OptionHolds(options: seq<seq<string>>, hits: set<string>) {
    exists o :: o in options && Covered(o, hits)
  }

  ghost predicate OptionsHold(options: seq<seq<seq<string>>>, hits: set<string>) {
    forall i :: 0 <= i < |options| ==> OptionHolds(options[i], hits)
  }

  ghost predicate NoneHit(names: seq<string>, hits: set<string>) {
    forall n :: n in names ==> n !in hits
  }

  lemma PositiveTerm(term: seq<string>, names: seq<string>, hits: set<string>)
    ensures TermHolds(term, names, false, hits) <==>
            Resolves(term, names, false) && OptionHolds(PositiveOptions(term, names), hits)
    ensures Resolves(term, names, false) <==>
            PositiveOptions(term, names) != [] && forall o :: o in PositiveOptions(term, names) ==> o != []
  {
    var options := PositiveOptions(term, names);
    if IsOneOf(term) {
      var found := NamesForTerm(term[2..], names, false);
      assert OneOfPattern(term, false) == PatternOf(term[2..]);
      assert forall i :: 0 <= i < |found| ==> options[i] == [found[i]];
      if OptionHolds(options, hits) {
        var o :| o in options && Covered(o, hits);
        assert o[0] in found && o[0] in hits;
      }
      if n :| n in found && n in hits {
        var i :| 0 <= i < |found| && found[i] == n;
        assert options[i] in options && Covered(options[i], hits);
      }
      if found != [] {
        assert found[0] in found;
      }
    } else {
      var found := NamesForTerm(term, names, false);
      assert options == [found];
      assert options[0] in options;
      if found != [] {
        assert found[0] in found;
      }
    }
  }

  /** A negated term that stands for one selection holds exactly when that one does not match. */
  lemma NegatedTerm(term: seq<string>, names: seq<string>, hits: set<string>)
    requires |NamesForTerm(term, names, true)| == 1
    ensures TermHolds(term, names, true, hits) <==> NamesForTerm(term, names, true)[0] in hits
  {
    var found := NamesForTerm(term, names, true);
    assert forall n :: n in found <==> n == found[0];
    assert found[0] in found;
    if IsOneOf(term) {
      assert OneOfPattern(term, true) == PatternOf(term);
    }
  }

  ghost predicate AllResolve(terms: seq<seq<string>>, names: seq<string>) {
    forall i :: 0 <= i < |terms| && !IsNot(terms[i]) ==> Resolves(terms[i], names, false)
  }

  predicate NegationsAreSingle(terms: seq<seq<string>>, names: seq<string>) {
    forall i :: 0 <= i < |terms| && IsNot(terms[i]) ==> |NamesForTerm(terms[i][1..], names, true)| == 1
  }

  predicate HasPositive(terms: seq<seq<string>>) {
    exists i :: 0 <= i < |terms| && !IsNot(terms[i])
  }

  predicate NoEmptyTerm(terms: seq<seq<string>>) {
    forall i :: 0 <= i < |terms| ==> terms[i] != []
  }

  /** The collected options and negatives say what the terms say. */
  lemma {:induction false} CollectMeaning(terms: seq<seq<string>>, names: seq<string>, hits: set<string>)
    requires Collect(terms, names).Collected?
    ensures NegationsAreSingle(terms, names)
    ensures AllHold(terms, names, hits) <==>
            AllResolve(terms, names) && OptionsHold(Collect(terms, names).options, hits)
            && NoneHit(Collect(terms, names).negatives, hits)
  {
    if terms != [] {
      var n := |terms| - 1;
      var term := terms[n];
      CollectMeaning(terms[..n], names, hits);
      CollectStep(terms, names, hits);
      var Collected(options, negatives) := Collect(terms[..n], names);
      if IsNot(term) {
        NegatedTerm(term[1..], names, hits);
        NoneHitMore(negatives, NamesForTerm(term[1..], names, true), hits);
      } else {
        PositiveTerm(term, names, hits);
        OptionsHoldLast(options, PositiveOptions(term, names), hits);
      }
    }
  }

  lemma NoneHitMore(negatives: seq<string>, found: seq<string>, hits: set<string>)
    requires |found| == 1
    ensures NoneHit(negatives + found, hits) <==> NoneHit(negatives, hits) && found[0] !in hits
  {
    assert found[0] in found && forall x :: x in found ==> x == found[0];
  }

  lemma OptionsHoldLast(options: seq<seq<seq<string>>>, last: seq<seq<string>>, hits: set<string>)
    ensures OptionsHold(options + [last], hits) <==> OptionsHold(options, hits) && OptionHolds(last, hits)
  {
    var all := options + [last];
    assert all[|options|] == last && forall i :: 0 <= i < |options| ==> all[i] == options[i];
  }

  /** There are options exactly when a term is positive, and resolved terms give non-empty ones. */
  lemma {:induction false} CollectShape(terms: seq<seq<string>>, names: seq<string>, hits: set<string>)
    requires Collect(terms, names).Collected?
    ensures Collect(terms, names).options != [] <==> HasPositive(terms)
    ensures AllResolve(terms, names) ==>
            forall i, o :: 0 <= i < |Collect(terms, names).options| && o in Collect(terms, names).options[i] ==> o != []
  {
    if terms != [] {
      var n := |terms| - 1;
      CollectShape(terms[..n], names, hits);
      CollectStep(terms, names, hits);
      if !IsNot(terms[n]) {
        PositiveTerm(terms[n], names, hits);
      }
    }
  }

  /** One more term, seen from the predicates over all terms. */
  lemma CollectStep(terms: seq<seq<string>>, names: seq<string>, hits: set<string>)
    requires terms != []
    ensures var n := |terms| - 1;
      && (AllHold(terms, names, hits) <==> AllHold(terms[..n], names, hits) && LiteralHolds(terms[n], names, hits))
      && (AllResolve(terms, names) <==>
            AllResolve(terms[..n], names) && (IsNot(terms[n]) || Resolves(terms[n], names, false)))
      && (HasPositive(terms) <==> HasPositive(terms[..n]) || !IsNot(terms[n]))
      && (NegationsAreSingle(terms, names) <==>
            NegationsAreSingle(terms[..n], names)
            && (IsNot(terms[n]) ==> |NamesForTerm(terms[n][1..], names, true)| == 1))
  {
    var n := |terms| - 1;
    var front := terms[..n];
    assert terms == front + [terms[n]];
    assert forall i :: 0 <= i < n ==> terms[i] == front[i];
    if HasPositive(front) {
      var i :| 0 <= i < |front| && !IsNot(front[i]);
      assert !IsNot(terms[i]);
    }
  }

  /** A branch is given up exactly when a negation is not about one selection or a `1 of` term
      finds none. */
  lemma {:induction false} CollectSupported(terms: seq<seq<string>>, names: seq<string>)
    requires NoEmptyTerm(terms)
    ensures AllResolve(terms, names) ==> (Collect(terms, names).Collected? <==> NegationsAreSingle(terms, names))
  {
    if terms != [] {
      var n := |terms| - 1;
      CollectSupported(terms[..n], names);
      CollectStep(terms, names, {});
      PositiveTerm(terms[n], names, {});
    }
  }

  // ----- Plans of one branch -----

  lemma PlanFiresIffGroupCovered(group: seq<seq<string>>, negatives: seq<string>, hits: set<string>)
    ensures PlanFires(NamePlan(Dedupe(Flatten(group)), negatives), hits) <==>
            NoneHit(negatives, hits) && forall i :: 0 <= i < |group| ==> Covered(group[i], hits)
  {
    forall x ensures x in Flatten(group) <==> exists i :: 0 <= i < |group| && x in group[i] {
      FlattenMembers(group, x);
    }
  }

  /** Some choice of options is covered exactly when every option list holds. */
  lemma {:induction false} CoveredGroup(
      options: seq<seq<seq<string>>>, hits: set<string>) returns (group: seq<seq<string>>)
    requires OptionsHold(options, hits)
    ensures Picks(group, options)
    ensures forall i :: 0 <= i < |group| ==> Covered(group[i], hits)
  {
    if options == [] {
      group := [];
    } else {
      var n := |options| - 1;
      var front := CoveredGroup(options[..n], hits);
      assert OptionHolds(options[n], hits);
      var o :| o in options[n] && Covered(o, hits);
      group := front + [o];
    }
  }

  lemma BranchPlansFire(branch: seq<string>, names: seq<string>, hits: set<string>)
    requires branch != []
    requires AllResolve(SplitOn(branch, "and"), names)
    requires NegationsAreSingle(SplitOn(branch, "and"), names) && HasPositive(SplitOn(branch, "and"))
    ensures SomePlanFires(BranchPlans(branch, names), hits) <==> BranchHolds(branch, names, hits)
  {
    var terms := SplitOn(branch, "and");
    SplitIsExact(branch, "and");
    CollectSupported(terms, names);
    CollectMeaning(terms, names, hits);
    CollectShape(terms, names, hits);
    var Collected(options, negatives) := Collect(terms, names);
    var plans := BranchPlans(branch, names);
    if BranchHolds(branch, names, hits) {
      var group := CoveredGroup(options, hits);
      ProductMembers(options, group);
      var plan := NamePlan(Dedupe(Flatten(group)), negatives);
      PlanFiresIffGroupCovered(group, negatives, hits);
      assert group[0] in options[0] && group[0] != [] && group[0][0] in group[0];
      FlattenMembers(group, group[0][0]);
      assert group in Product(options) && MadeFrom(plan, Product(options));
      assert plan.positives != [];
      GroupPlansMembers(Product(options), negatives, plan);
      assert plan in plans;
    }
    if i :| 0 <= i < |plans| && PlanFires(plans[i], hits) {
      FiringPlanCovers(options, negatives, plans[i], hits);
    }
  }

  lemma FiringPlanCovers(options: seq<seq<seq<string>>>, negatives: seq<string>, plan: NamePlan, hits: set<string>)
    requires plan in GroupPlans(Product(options), negatives) && PlanFires(plan, hits)
    ensures OptionsHold(options, hits) && NoneHit(negatives, hits)
  {
    GroupPlansMembers(Product(options), negatives, plan);
    var g :| g in Product(options) && plan.positives == Dedupe(Flatten(g));
    ProductMembers(options, g);
    PlanFiresIffGroupCovered(g, negatives, hits);
    forall i | 0 <= i < |options| ensures OptionHolds(options[i], hits) {
      assert g[i] in options[i] && Covered(g[i], hits);
    }
  }

  // ----- Main results: one branch -----

  /** What a caller can check of a branch before expanding it. */
  ghost predicate Supported(branch: seq<string>, names: seq<string>) {
    var terms := SplitOn(branch, "and");
    AllResolve(terms, names) && NegationsAreSingle(terms, names) && HasPositive(terms)
  }

  /** As long as every positive term stands for some selection, a plan never fires wrongly. */
  lemma ExpansionIsSound(branch: seq<string>, names: seq<string>, hits: set<string>)
    requires branch != [] && AllResolve(SplitOn(branch, "and"), names)
             && SomePlanFires(BranchPlans(branch, names), hits)
    ensures BranchHolds(branch, names, hits)
  {
    var terms := SplitOn(branch, "and");
    SplitIsExact(branch, "and");
    CollectMeaning(terms, names, hits);
    CollectShape(terms, names, hits);
    BranchPlansFire(branch, names, hits);
  }

  lemma UnresolvedBranchNeverHolds(terms: seq<seq<string>>, names: seq<string>, hits: set<string>)
    requires !AllResolve(terms, names)
    ensures !AllHold(terms, names, hits)
  {
    var i :| 0 <= i < |terms| && !IsNot(terms[i]) && !Resolves(terms[i], names, false);
    assert !LiteralHolds(terms[i], names, hits);
  }

  // ----- Main results: a whole condition -----

  ghost predicate SomeBranchFires(branches: seq<seq<string>>, names: seq<string>, hits: set<string>) {
    exists b :: b in branches && SomePlanFires(BranchPlans(b, names), hits)
  }

  lemma SomePlanFiresConcat(front: seq<NamePlan>, last: seq<NamePlan>, hits: set<string>)
    ensures SomePlanFires(front + last, hits) <==> SomePlanFires(front, hits) || SomePlanFires(last, hits)
  {
    var all := front + last;
    if j :| 0 <= j < |last| && PlanFires(last[j], hits) {
      assert PlanFires(all[|front| + j], hits);
    }
    if j :| 0 <= j < |front| && PlanFires(front[j], hits) {
      assert PlanFires(all[j], hits);
    }
  }

  lemma {:induction false} BranchesFire(branches: seq<seq<string>>, names: seq<string>, hits: set<string>)
    ensures SomePlanFires(BranchesPlans(branches, names), hits) <==> SomeBranchFires(branches, names, hits)
  {
    if branches != [] {
      var n := |branches| - 1;
      BranchesFire(branches[..n], names, hits);
      SomePlanFiresConcat(BranchesPlans(branches[..n], names), BranchPlans(branches[n], names), hits);
      SomeBranchFiresLast(branches, names, hits);
    }
  }

  lemma SomeBranchFiresLast(branches: seq<seq<string>>, names: seq<string>, hits: set<string>)
    requires branches != []
    ensures var n := |branches| - 1;
      SomeBranchFires(branches, names, hits) <==>
      SomeBranchFires(branches[..n], names, hits) || SomePlanFires(BranchPlans(branches[n], names), hits)
  {
    var n := |branches| - 1;
    assert branches == branches[..n] + [branches[n]];
    assert branches[n] in branches;
  }

  ghost predicate AllSupported(condition: seq<string>, names: seq<string>) {
    var branches := SplitOn(condition, "or");
    condition == [] || forall i :: 0 <= i < |branches| ==> Supported(branches[i], names)
  }

  ghost predicate AllBranchesResolve(condition: seq<string>, names: seq<string>) {
    var branches := SplitOn(condition, "or");
    condition == [] || forall i :: 0 <= i < |branches| ==> AllResolve(SplitOn(branches[i], "and"), names)
  }

  lemma EmptyConditionFires(names: seq<string>, hits: set<string>)
    ensures SomePlanFires(ConditionPlans([], names), hits) <==> ConditionHolds([], names, hits)
  {
    var selections := Filter(names, n => !IsFilterName(n));
    var plans := ConditionPlans([], names);
    if i :| 0 <= i < |plans| && PlanFires(plans[i], hits) {
      assert selections[i] in plans[i].positives && selections[i] in selections;
    }
    if n :| n in names && !IsFilterName(n) && n in hits {
      var i :| 0 <= i < |selections| && selections[i] == n;
      assert PlanFires(plans[i], hits);
    }
  }

  /** Main result: for a condition whose branches are all supported, on every event some plan
      fires exactly when the condition holds. */
  lemma PlansMeanCondition(condition: seq<string>, names: seq<string>, hits: set<string>)
    requires AllSupported(condition, names)
    ensures SomePlanFires(ConditionPlans(condition, names), hits) <==> ConditionHolds(condition, names, hits)
  {
    if condition == [] {
      EmptyConditionFires(names, hits);
    } else {
      var branches := SplitOn(condition, "or");
      SplitIsExact(condition, "or");
      BranchesFire(branches, names, hits);
      forall b | b in branches
        ensures SomePlanFires(BranchPlans(b, names), hits) <==> BranchHolds(b, names, hits)
      {
        BranchPlansFire(b, names, hits);
      }
    }
  }

  /** Without the other hypotheses, plans still imply the condition: unsupported branches are
      skipped, never weakened, as long as every positive term stands for some selection. */
  lemma PlansImplyCondition(condition: seq<string>, names: seq<string>, hits: set<string>)
    requires AllBranchesResolve(condition, names)
    requires SomePlanFires(ConditionPlans(condition, names), hits)
    ensures ConditionHolds(condition, names, hits)
  {
    if condition == [] {
      EmptyConditionFires(names, hits);
    } else {
      var branches := SplitOn(condition, "or");
      SplitIsExact(condition, "or");
      BranchesFire(branches, names, hits);
      var b :| b in branches && SomePlanFires(BranchPlans(b, names), hits);
      ExpansionIsSound(b, names, hits);
    }
  }
}
