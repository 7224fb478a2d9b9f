/** The plans of a condition that was written with parentheses: exactly when none of them fires
    wrongly. */
module ErasedPlans {
  import opened SigmaPlans
  import opened SigmaExactness
  import opened SigmaParentheses
  import opened SigmaErasure

  // ----- The plan of a branch -----

  /** The names that the plan of a branch asks for, and those it forbids. A filter that is not
      negated stands for nothing and is dropped. */
  function Asserted(branch: seq<Literal>): (r: set<string>)
    ensures forall n :: n in r <==>
              exists i :: 0 <= i < |branch| && branch[i].nots == 0 && NameOf(branch[i].words) == n && !IsFilterName(n)
  {
    set i | 0 <= i < |branch| && branch[i].nots == 0 && !IsFilterName(NameOf(branch[i].words))
      :: NameOf(branch[i].words)
  }

  function Denied(branch: seq<Literal>): (r: set<string>)
    ensures forall n :: n in r <==>
              exists i :: 0 <= i < |branch| && branch[i].nots == 1 && NameOf(branch[i].words) == n
  {
    set i | 0 <= i < |branch| && branch[i].nots == 1 :: NameOf(branch[i].words)
  }

  /** The branch has a plan: no name is negated twice in a row, and some name is asked for. */
  predicate HasPlan(branch: seq<Literal>) {
    (forall i :: 0 <= i < |branch| ==> branch[i].nots <= 1) && Asserted(branch) != {}
  }

  predicate AllPlain(branch: seq<Literal>, names: seq<string>) {
    forall i :: 0 <= i < |branch| ==> IsPlainTerm(branch[i].words, names)
  }

  lemma PlainNames(words: seq<string>, names: seq<string>, includeFilters: bool)
    requires IsPlainTerm(words, names)
    ensures NamesForTerm(words, names, includeFilters)
         == if includeFilters || !IsFilterName(words[0]) then words else []
    ensures Resolves(words, names, includeFilters) <==> includeFilters || !IsFilterName(words[0])
  {
    assert forall n :: Matches(words[0], n) <==> n == words[0];
    assert words == [words[0]];
  }

  lemma NoNamesBehindNots(k: nat, name: string, names: seq<string>)
    requires k > 0 && PlainName(name) && OneWordNames(names)
    ensures NamesForTerm(Nots(k) + [name], names, true) == []
  {
    var words := Nots(k) + [name];
    assert words[0] == "not";
    JoinedHasBlank(words);
    forall n | n in names ensures !Matches(PatternOf(words), n) {
    }
    assert forall n :: n !in NamesForTerm(words, names, true);
  }

  /** What a literal is to the source: a negation with the names it stands for, or a positive term
      with its one option. */
  lemma LiteralTerm(l: Literal, names: seq<string>)
    requires IsPlainTerm(l.words, names) && OneWordNames(names)
    ensures ReadableLiteral(l) && (IsNot(Text(l)) <==> l.nots > 0)
    ensures l.nots > 0 ==> NamesForTerm(Text(l)[1..], names, true) == if l.nots == 1 then l.words else []
    ensures l.nots == 0 ==> Text(l) == l.words && !IsOneOf(l.words)
  {
    if l.nots > 0 {
      assert Text(l)[1..] == Nots(l.nots - 1) + l.words;
      if l.nots == 1 {
        assert Text(l)[1..] == l.words;
        PlainNames(l.words, names, true);
      } else {
        assert l.words == [l.words[0]];
        NoNamesBehindNots(l.nots - 1, l.words[0], names);
      }
    } else {
      assert Text(l) == l.words;
    }
  }

  lemma LiteralOption(words: seq<string>, names: seq<string>, hits: set<string>)
    requires IsPlainTerm(words, names)
    ensures OptionHolds(PositiveOptions(words, names), hits) <==> IsFilterName(NameOf(words)) || NameOf(words) in hits
  {
    PlainNames(words, names, false);
    PlainTerm(words, names, false, hits);
    var options := PositiveOptions(words, names);
    assert options == [NamesForTerm(words, names, false)];
    assert options[0] in options && forall o :: o in options ==> o == options[0];
  }

  /** Which plan a branch has. */
  lemma BranchPlanFires(branch: seq<Literal>, names: seq<string>, hits: set<string>)
    requires branch != [] && AllPlain(branch, names) && OneWordNames(names)
    ensures SomePlanFires(BranchPlans(Unsplit(Texts(branch), "and"), names), hits) <==>
            HasPlan(branch) && Asserted(branch) <= hits && Denied(branch) !! hits
  {
    var terms := Texts(branch);
    forall i | 0 <= i < |branch| ensures ReadableLiteral(branch[i]) {
      LiteralTerm(branch[i], names);
    }
    TextsAreSegments(branch);
    BranchFiresIff(Unsplit(terms, "and"), names, hits);
    BranchGivenUp(branch, names);
    BranchResolves(branch, names);
    BranchAllows(branch, names, hits);
  }

  lemma BranchGivenUp(branch: seq<Literal>, names: seq<string>)
    requires AllPlain(branch, names) && OneWordNames(names)
    ensures GivenUp(Texts(branch), names) <==> exists i :: 0 <= i < |branch| && branch[i].nots > 1
  {
    forall i | 0 <= i < |branch|
      ensures IsNot(Texts(branch)[i]) <==> branch[i].nots > 0
      ensures branch[i].nots > 0 ==> |NamesForTerm(Texts(branch)[i][1..], names, true)|
                                     == if branch[i].nots == 1 then 1 else 0
      ensures branch[i].nots == 0 ==> !IsOneOf(Texts(branch)[i])
    {
      LiteralTerm(branch[i], names);
    }
    if i :| 0 <= i < |branch| && branch[i].nots > 1 {
      assert IsNot(Texts(branch)[i]);
    }
  }

  lemma BranchResolves(branch: seq<Literal>, names: seq<string>)
    requires AllPlain(branch, names) && OneWordNames(names)
    ensures NothingResolves(Texts(branch), names) <==> Asserted(branch) == {}
  {
    forall i | 0 <= i < |branch|
      ensures IsNot(Texts(branch)[i]) <==> branch[i].nots > 0
      ensures branch[i].nots == 0 ==>
                (Resolves(Texts(branch)[i], names, false) <==> !IsFilterName(NameOf(branch[i].words)))
    {
      LiteralTerm(branch[i], names);
      PlainNames(branch[i].words, names, false);
      PlainTerm(branch[i].words, names, false, {});
    }
    if n :| n in Asserted(branch) {
      var i :| 0 <= i < |branch| && branch[i].nots == 0 && NameOf(branch[i].words) == n && !IsFilterName(n);
      assert Resolves(Texts(branch)[i], names, false);
    }
    if !NothingResolves(Texts(branch), names) {
      var i :| 0 <= i < |branch| && !IsNot(Texts(branch)[i]) && Resolves(Texts(branch)[i], names, false);
      assert NameOf(branch[i].words) in Asserted(branch);
    }
  }

  lemma BranchNegated(branch: seq<Literal>, names: seq<string>, n: string)
    requires AllPlain(branch, names) && OneWordNames(names)
    ensures Negated(Texts(branch), names, n) <==> n in Denied(branch)
  {
    forall i | 0 <= i < |branch| ensures NegatesName(Texts(branch)[i], names, n) <==> DeniesName(branch[i], n) {
      LiteralNegates(branch[i], names, n);
    }
    if n in Denied(branch) {
      var i :| 0 <= i < |branch| && DeniesName(branch[i], n);
      assert NegatesName(Texts(branch)[i], names, n);
    }
    if Negated(Texts(branch), names, n) {
      var i :| 0 <= i < |branch| && NegatesName(Texts(branch)[i], names, n);
      assert DeniesName(branch[i], n);
    }
  }

  predicate NegatesName(term: seq<string>, names: seq<string>, n: string) {
    IsNot(term) && n in NamesForTerm(term[1..], names, true)
  }

  predicate DeniesName(l: Literal, n: string) {
    l.nots == 1 && NameOf(l.words) == n
  }

  lemma LiteralNegates(l: Literal, names: seq<string>, n: string)
    requires IsPlainTerm(l.words, names) && OneWordNames(names)
    ensures NegatesName(Text(l), names, n) <==> DeniesName(l, n)
  {
    LiteralTerm(l, names);
    PlainTerm(l.words, names, true, {});
  }

  lemma BranchAllows(branch: seq<Literal>, names: seq<string>, hits: set<string>)
    requires AllPlain(branch, names) && OneWordNames(names)
    ensures TermsAllow(Texts(branch), names, hits) <==> Asserted(branch) <= hits && Denied(branch) !! hits
  {
    var terms := Texts(branch);
    forall n ensures Negated(terms, names, n) <==> n in Denied(branch) {
      BranchNegated(branch, names, n);
    }
    forall i | 0 <= i < |branch|
      ensures IsNot(terms[i]) <==> branch[i].nots > 0
      ensures branch[i].nots == 0 ==>
                (OptionHolds(PositiveOptions(terms[i], names), hits) <==>
                   IsFilterName(NameOf(branch[i].words)) || NameOf(branch[i].words) in hits)
    {
      LiteralTerm(branch[i], names);
      LiteralOption(branch[i].words, names, hits);
    }
    if Asserted(branch) <= hits {
      forall i | 0 <= i < |branch| && branch[i].nots == 0
        ensures OptionHolds(PositiveOptions(terms[i], names), hits)
      {
        assert !IsFilterName(NameOf(branch[i].words)) ==> NameOf(branch[i].words) in Asserted(branch);
      }
    }
    if forall i :: 0 <= i < |terms| && !IsNot(terms[i]) ==> OptionHolds(PositiveOptions(terms[i], names), hits) {
      forall n | n in Asserted(branch) ensures n in hits {
        var i :| 0 <= i < |branch| && branch[i].nots == 0 && NameOf(branch[i].words) == n && !IsFilterName(n);
        assert !IsNot(terms[i]);
      }
    }
  }

  /** Which plans a condition has that was written with parentheses. */
  lemma ErasedPlansFire(t: Tree, names: seq<string>, hits: set<string>)
    requires IsPlain(t, names) && AllDifferent(t) && OneWordNames(names)
    ensures SomePlanFires(ConditionPlans(Erased(Written(t)), names), hits) <==>
            exists i :: 0 <= i < |Reading(t, 0)| && HasPlan(Reading(t, 0)[i])
                        && Asserted(Reading(t, 0)[i]) <= hits && Denied(Reading(t, 0)[i]) !! hits
  {
    var branches := Reading(t, 0);
    PlainTree(t, names, false, {});
    ErasedSplits(t);
    BranchesFire(BranchTexts(branches), names, hits);
    forall i | 0 <= i < |branches|
      ensures SomePlanFires(BranchPlans(BranchTexts(branches)[i], names), hits) <==>
              HasPlan(branches[i]) && Asserted(branches[i]) <= hits && Denied(branches[i]) !! hits
    {
      ReadingIsPlain(t, names, i);
      BranchPlanFires(branches[i], names, hits);
    }
    if i :| 0 <= i < |branches| && HasPlan(branches[i])
            && Asserted(branches[i]) <= hits && Denied(branches[i]) !! hits {
      assert BranchTexts(branches)[i] in BranchTexts(branches);
    }
  }

  lemma ReadingIsPlain(t: Tree, names: seq<string>, i: nat)
    requires IsPlain(t, names) && AllDifferent(t) && i < |Reading(t, 0)|
    ensures AllPlain(Reading(t, 0)[i], names)
  {
    var branch := Reading(t, 0)[i];
    forall j | 0 <= j < |branch| ensures IsPlainTerm(branch[j].words, names) {
      LiteralsOfReading(t, 0, names, branch, branch[j]);
    }
  }

  // ----- What a plan forces -----

  /** The tree has the given value whatever else matches, when the asserted names do and the denied
      ones do not. */
  predicate Forced(t: Tree, below: bool, asserted: set<string>, denied: set<string>, value: bool) {
    match t
    case Term(words) =>
      if !below && IsFilterName(NameOf(words)) then !value
      else if value then NameOf(words) in asserted else NameOf(words) in denied
    case Not(x) => Forced(x, true, asserted, denied, !value)
    case And(a, b) =>
      if value then Forced(a, below, asserted, denied, true) && Forced(b, below, asserted, denied, true)
      else Forced(a, below, asserted, denied, false) || Forced(b, below, asserted, denied, false)
    case Or(a, b) =>
      if value then Forced(a, below, asserted, denied, true) || Forced(b, below, asserted, denied, true)
      else Forced(a, below, asserted, denied, false) && Forced(b, below, asserted, denied, false)
  }

  lemma {:induction false} ForcedHolds(
      t: Tree, below: bool, asserted: set<string>, denied: set<string>, value: bool, hits: set<string>)
    requires Forced(t, below, asserted, denied, value) && asserted <= hits && denied !! hits
    ensures Means(t, below, hits) == value
  {
    match t
    case Term(_) =>
    case Not(x) => ForcedHolds(x, true, asserted, denied, !value, hits);
    case _ =>
      if Forced(t.left, below, asserted, denied, value) {
        ForcedHolds(t.left, below, asserted, denied, value, hits);
      }
      if Forced(t.right, below, asserted, denied, value) {
        ForcedHolds(t.right, below, asserted, denied, value, hits);
      }
  }

  /** As the plan of a branch says, among the names of the tree. */
  ghost predicate Respects(t: Tree, asserted: set<string>, denied: set<string>, hits: set<string>) {
    hits <= Leaves(t) && forall n :: n in Leaves(t) ==> (n in asserted ==> n in hits) && (n in denied ==> n !in hits)
  }

  /** What is not forced can be otherwise. */
  lemma {:induction false} Unforced(t: Tree, below: bool, asserted: set<string>, denied: set<string>, value: bool)
    returns (hits: set<string>)
    requires AllDifferent(t) && asserted !! denied && !Forced(t, below, asserted, denied, value)
    ensures Respects(t, asserted, denied, hits) && Means(t, below, hits) != value
  {
    match t
    case Term(words) =>
      var name := NameOf(words);
      hits := if name in asserted || (!value && name !in denied) then {name} else {};
    case Not(x) =>
      hits := Unforced(x, true, asserted, denied, !value);
    case _ =>
      var x := asserted * Leaves(t.left);
      var y := asserted * Leaves(t.right);
      if !Forced(t.left, below, asserted, denied, value) {
        x := Unforced(t.left, below, asserted, denied, value);
      }
      if !Forced(t.right, below, asserted, denied, value) {
        y := Unforced(t.right, below, asserted, denied, value);
      }
      hits := x + y;
      Together(t.left, t.right, below, x, y);
  }

  /** Every branch that has a plan forces the condition. */
  predicate PlansForce(t: Tree) {
    forall i :: 0 <= i < |Reading(t, 0)| && HasPlan(Reading(t, 0)[i]) ==>
      Forced(t, false, Asserted(Reading(t, 0)[i]), Denied(Reading(t, 0)[i]), true)
  }

  lemma BranchNames(t: Tree, names: seq<string>, i: nat)
    requires IsPlain(t, names) && AllDifferent(t) && i < |Reading(t, 0)|
    ensures var branch := Reading(t, 0)[i];
      Asserted(branch) <= Leaves(t) && Denied(branch) <= Leaves(t) && Asserted(branch) !! Denied(branch)
  {
    var branch := Reading(t, 0)[i];
    forall j | 0 <= j < |branch| ensures LiteralOf(branch[j], t, 0) {
      LiteralsOfReading(t, 0, names, branch, branch[j]);
    }
  }

  lemma ForcingPlansAreRight(t: Tree, names: seq<string>, hits: set<string>)
    requires IsPlain(t, names) && AllDifferent(t) && OneWordNames(names) && PlansForce(t)
    requires SomePlanFires(ConditionPlans(Erased(Written(t)), names), hits)
    ensures TreeHolds(t, names, false, hits)
  {
    PlainTree(t, names, false, hits);
    ErasedPlansFire(t, names, hits);
    var i :| 0 <= i < |Reading(t, 0)| && HasPlan(Reading(t, 0)[i])
             && Asserted(Reading(t, 0)[i]) <= hits && Denied(Reading(t, 0)[i]) !! hits;
    ForcedHolds(t, false, Asserted(Reading(t, 0)[i]), Denied(Reading(t, 0)[i]), true, hits);
  }

  /** A plan that does not force the condition fires on some event on which it does not hold. */
  lemma UnforcingPlanIsWrong(t: Tree, names: seq<string>) returns (hits: set<string>)
    requires IsPlain(t, names) && AllDifferent(t) && OneWordNames(names) && !PlansForce(t)
    ensures SomePlanFires(ConditionPlans(Erased(Written(t)), names), hits) && !TreeHolds(t, names, false, hits)
  {
    var i :| 0 <= i < |Reading(t, 0)| && HasPlan(Reading(t, 0)[i])
             && !Forced(t, false, Asserted(Reading(t, 0)[i]), Denied(Reading(t, 0)[i]), true);
    BranchNames(t, names, i);
    hits := Unforced(t, false, Asserted(Reading(t, 0)[i]), Denied(Reading(t, 0)[i]), true);
    PlainTree(t, names, false, hits);
    ErasedPlansFire(t, names, hits);
  }

  /** Main result: over different names, filters among them, no plan ever fires wrongly exactly when
      what each plan asks for and forbids already decides the condition as it was written. */
  lemma PlansNeverWeakenIff(t: Tree, names: seq<string>)
    requires IsPlain(t, names) && AllDifferent(t) && OneWordNames(names)
    ensures (forall hits: set<string> ::
               SomePlanFires(ConditionPlans(Erased(Written(t)), names), hits) ==> TreeHolds(t, names, false, hits))
            <==> PlansForce(t)
  {
    if PlansForce(t) {
      forall hits: set<string> | SomePlanFires(ConditionPlans(Erased(Written(t)), names), hits)
        ensures TreeHolds(t, names, false, hits)
      {
        ForcingPlansAreRight(t, names, hits);
      }
    } else {
      var hits := UnforcingPlanIsWrong(t, names);
    }
  }

  // ----- Negated names -----

  predicate AllHavePlans(t: Tree) {
    forall i :: 0 <= i < |Reading(t, 0)| ==> HasPlan(Reading(t, 0)[i])
  }

  lemma BranchIsItsPlan(t: Tree, names: seq<string>, i: nat, hits: set<string>)
    requires IsPlain(t, names) && AllDifferent(t) && FiltersNegated(t, false) && NegatesTermsOnly(t)
    requires i < |Reading(t, 0)| && HasPlan(Reading(t, 0)[i])
    ensures BranchSays(Reading(t, 0)[i], hits) <==>
            Asserted(Reading(t, 0)[i]) <= hits && Denied(Reading(t, 0)[i]) !! hits
  {
    var branch := Reading(t, 0)[i];
    forall j | 0 <= j < |branch| && branch[j].nots == 0 ensures !IsFilterName(NameOf(branch[j].words)) {
      LiteralsOfReading(t, 0, names, branch, branch[j]);
      PositiveIsNoFilter(t, NameOf(branch[j].words));
    }
    if BranchSays(branch, hits) {
      forall n | n in Asserted(branch) ensures n in hits {
        var j :| 0 <= j < |branch| && branch[j].nots == 0 && NameOf(branch[j].words) == n;
        assert branch[j] in branch;
      }
      forall n | n in Denied(branch) ensures n !in hits {
        var j :| 0 <= j < |branch| && branch[j].nots == 1 && NameOf(branch[j].words) == n;
        assert branch[j] in branch;
      }
    }
    if Asserted(branch) <= hits && Denied(branch) !! hits {
      forall l | l in branch ensures Says(l, hits) {
        var j :| 0 <= j < |branch| && branch[j] == l;
        assert l.nots == 0 ==> NameOf(l.words) in Asserted(branch);
        assert l.nots == 1 ==> NameOf(l.words) in Denied(branch);
      }
    }
  }

  lemma {:induction false} PositiveIsNoFilter(t: Tree, name: string)
    requires NegatesTermsOnly(t) && FiltersNegated(t, false) && name in Leaves(t) && NotsBefore(t, 0, name) == 0
    ensures !IsFilterName(name)
  {
    match t
    case Term(_) =>
    case Not(x) =>
    case _ => PositiveIsNoFilter(if name in Leaves(t.left) then t.left else t.right, name);
  }

  /** Where only names are negated and every branch has a plan, these are the conditions that are an
      `or` of `and`s. */
  lemma PlansForceIffShape(t: Tree, names: seq<string>)
    requires IsPlain(t, names) && AllDifferent(t) && OneWordNames(names) && FiltersNegated(t, false)
    requires NegatesTermsOnly(t) && AllHavePlans(t)
    ensures PlansForce(t) <==> IsOrOfAnds(t)
  {
    PlansNeverWeakenIff(t, names);
    ErasureNeverWeakensIff(t, names);
    forall hits: set<string>
      ensures SomePlanFires(ConditionPlans(Erased(Written(t)), names), hits)
              <==> ConditionHolds(Erased(Written(t)), names, hits)
    {
      ErasedPlansFire(t, names, hits);
      ErasedPlainMeaning(t, names, hits);
      PlansAreReading(t, names, hits);
    }
  }

  lemma PlansAreReading(t: Tree, names: seq<string>, hits: set<string>)
    requires IsPlain(t, names) && AllDifferent(t) && FiltersNegated(t, false)
    requires NegatesTermsOnly(t) && AllHavePlans(t)
    ensures ReadsAs(Reading(t, 0), hits) <==>
            exists i :: 0 <= i < |Reading(t, 0)| && HasPlan(Reading(t, 0)[i])
                        && Asserted(Reading(t, 0)[i]) <= hits && Denied(Reading(t, 0)[i]) !! hits
  {
    forall i | 0 <= i < |Reading(t, 0)|
      ensures BranchSays(Reading(t, 0)[i], hits) <==>
              Asserted(Reading(t, 0)[i]) <= hits && Denied(Reading(t, 0)[i]) !! hits
    {
      BranchIsItsPlan(t, names, i, hits);
    }
    if branch :| branch in Reading(t, 0) && BranchSays(branch, hits) {
      var i :| 0 <= i < |Reading(t, 0)| && Reading(t, 0)[i] == branch;
      assert HasPlan(Reading(t, 0)[i]);
    }
  }

  // ----- Instances -----

  predicate ThreeNames(a: string, b: string, c: string) {
    PlainName(a) && PlainName(b) && PlainName(c) && a != b && a != c && b != c && !IsFilterName(a)
  }

  /** `a and (b or c)` is read as `a and b or c`. */
  lemma ReadingOfOrBelowAnd(a: string, b: string, c: string)
    ensures Reading(And(Term([a]), Or(Term([b]), Term([c]))), 0)
         == [[Literal(0, [a]), Literal(0, [b])], [Literal(0, [c])]]
  {
    var t := Or(Term([b]), Term([c]));
    var x, y, z := Literal(0, [a]), Literal(0, [b]), Literal(0, [c]);
    assert Reading(Term([a]), 0) == [[x]] && Reading(Term([b]), 0) == [[y]] && Reading(Term([c]), 0) == [[z]];
    assert Reading(t, 0) == [[y]] + [[z]];
    assert Reading(And(Term([a]), t), 0) == Meet([[x]], [[y]] + [[z]]);
    assert [x] + [y] == [x, y] && ([[y]] + [[z]])[1..] == [[z]];
  }

  /** It has a plan that fires on the last name alone. */
  lemma OrBelowAndWeakens(a: string, b: string, c: string)
    requires ThreeNames(a, b, c) && !IsFilterName(c)
    ensures var t := And(Term([a]), Or(Term([b]), Term([c])));
      SomePlanFires(ConditionPlans(Erased(Written(t)), [a, b, c]), {c}) && !TreeHolds(t, [a, b, c], false, {c})
  {
    var t := And(Term([a]), Or(Term([b]), Term([c])));
    ReadingOfOrBelowAnd(a, b, c);
    assert Reading(t, 0)[1] == [Literal(0, [c])];
    assert Reading(t, 0)[1][0].nots == 0 && NameOf(Reading(t, 0)[1][0].words) == c;
    assert c in Asserted(Reading(t, 0)[1]);
    PlainTree(t, [a, b, c], false, {c});
    ErasedPlansFire(t, [a, b, c], {c});
  }

  lemma PairIsPlain(b: string, c: string, u: Tree, names: seq<string>)
    requires PlainName(b) && PlainName(c) && b != c && b in names && c in names
    requires u == Or(Term([b]), Term([c])) || u == And(Term([b]), Term([c]))
    ensures IsPlain(u, names) && AllDifferent(u) && Leaves(u) == {b, c}
    ensures forall hits :: Means(u, true, hits) <==> if u.Or? then b in hits || c in hits else b in hits && c in hits
  {
    assert NameOf([b]) == b && NameOf([c]) == c;
    if u.Or? {
      assert u.left == Term([b]) && u.right == Term([c]);
    } else {
      assert u.left == Term([b]) && u.right == Term([c]);
    }
  }

  lemma NegatedPair(a: string, b: string, c: string, u: Tree, hits: set<string>)
    requires ThreeNames(a, b, c) && (u == Or(Term([b]), Term([c])) || u == And(Term([b]), Term([c])))
    ensures var t, names := And(Term([a]), Not(u)), [a, b, c];
      && IsPlain(t, names) && AllDifferent(t) && OneWordNames(names)
      && (TreeHolds(t, names, false, hits) <==> a in hits && !Means(u, true, hits))
  {
    var t, names := And(Term([a]), Not(u)), [a, b, c];
    PairIsPlain(b, c, u, names);
    assert NameOf([a]) == a;
    assert IsPlain(Not(u), names) && AllDifferent(Not(u)) && Leaves(Not(u)) == {b, c};
    PlainTree(t, names, false, hits);
    assert Means(Not(u), false, hits) <==> !Means(u, true, hits);
  }

  /** `a and not (b or c)` is read as `a and not b or c`. */
  lemma ReadingOfNegatedOr(a: string, b: string, c: string)
    ensures Reading(And(Term([a]), Not(Or(Term([b]), Term([c])))), 0)
         == [[Literal(0, [a]), Literal(1, [b])], [Literal(0, [c])]]
  {
    var t := Or(Term([b]), Term([c]));
    var x, y, z := Literal(0, [a]), Literal(1, [b]), Literal(0, [c]);
    assert Reading(Term([a]), 0) == [[x]] && Reading(Term([b]), 1) == [[y]] && Reading(Term([c]), 0) == [[z]];
    assert Reading(Not(t), 0) == Reading(t, 1) == [[y]] + [[z]];
    assert Reading(And(Term([a]), Not(t)), 0) == Meet([[x]], [[y]] + [[z]]);
    assert [x] + [y] == [x, y] && ([[y]] + [[z]])[1..] == [[z]];
  }

  lemma PairBranchFires(a: string, b: string, hits: set<string>)
    requires PlainName(a) && PlainName(b) && !IsFilterName(a) && a in hits && b !in hits
    ensures var branch := [Literal(0, [a]), Literal(1, [b])];
      HasPlan(branch) && Asserted(branch) <= hits && Denied(branch) !! hits
  {
    var branch := [Literal(0, [a]), Literal(1, [b])];
    assert NameOf(branch[0].words) == a && NameOf(branch[1].words) == b;
    assert a in Asserted(branch);
  }

  /** It has a plan that fires although the second filter matches, whatever the names are. */
  lemma NegatedOrWeakens(a: string, b: string, c: string)
    requires ThreeNames(a, b, c)
    ensures var t := And(Term([a]), Not(Or(Term([b]), Term([c]))));
      && SomePlanFires(ConditionPlans(Erased(Written(t)), [a, b, c]), {a, c})
      && !TreeHolds(t, [a, b, c], false, {a, c})
  {
    var t := And(Term([a]), Not(Or(Term([b]), Term([c]))));
    ReadingOfNegatedOr(a, b, c);
    PairBranchFires(a, b, {a, c});
    assert Reading(t, 0)[0] == [Literal(0, [a]), Literal(1, [b])];
    PairIsPlain(b, c, Or(Term([b]), Term([c])), [a, b, c]);
    NegatedPair(a, b, c, Or(Term([b]), Term([c])), {a, c});
    ErasedPlansFire(t, [a, b, c], {a, c});
  }

  /** `a and not (b and c)` is read as `a and not b and c`, which is stronger. */
  lemma NegatedAndIsSafe(a: string, b: string, c: string, hits: set<string>)
    requires ThreeNames(a, b, c)
    ensures var t := And(Term([a]), Not(And(Term([b]), Term([c]))));
      SomePlanFires(ConditionPlans(Erased(Written(t)), [a, b, c]), hits) ==> TreeHolds(t, [a, b, c], false, hits)
  {
    var t, u := And(Term([a]), Not(And(Term([b]), Term([c])))), And(Term([b]), Term([c]));
    ReadingOfNegatedAnd(a, b, c);
    var branch := Reading(t, 0)[0];
    assert branch[0].nots == 0 && NameOf(branch[0].words) == a;
    assert branch[1].nots == 1 && NameOf(branch[1].words) == b;
    NegatedPair(a, b, c, u, hits);
    PairIsPlain(b, c, u, [a, b, c]);
    ErasedPlansFire(t, [a, b, c], hits);
    if SomePlanFires(ConditionPlans(Erased(Written(t)), [a, b, c]), hits) {
      assert a in Asserted(branch) && b in Denied(branch);
    }
  }

  lemma ReadingOfNegatedAnd(a: string, b: string, c: string)
    ensures Reading(And(Term([a]), Not(And(Term([b]), Term([c])))), 0)
         == [[Literal(0, [a]), Literal(1, [b]), Literal(0, [c])]]
  {
    var t := And(Term([b]), Term([c]));
    var x, y, z := Literal(0, [a]), Literal(1, [b]), Literal(0, [c]);
    assert Reading(Term([a]), 0) == [[x]] && Reading(Term([b]), 1) == [[y]] && Reading(Term([c]), 0) == [[z]];
    assert [y] + [z] == [y, z] && [x] + [y, z] == [x, y, z];
    assert Meet([[y]], [[z]]) == [[y, z]] && Meet([[x]], [[y, z]]) == [[x, y, z]];
    assert Reading(Not(t), 0) == Reading(t, 1) == [[y, z]];
  }
}
