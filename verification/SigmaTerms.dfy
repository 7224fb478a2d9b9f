/** What the terms that conditions are written with stand for, word by word: `1 of`, `all of`, `them`,
    names, and beginnings of names with an asterisk; and when a condition of such terms fires. */
module SigmaTerms {
  import opened Iterables
  import opened SigmaPlans
  import opened SigmaExactness
  import SigmaParentheses

  datatype Selector = Them | StartingWith(text: string) | Called(name: string) {
    function Word(): string {
      match this
      case Them => "them"
      case StartingWith(text) => text + "*"
      case Called(name) => name
    }

    /** A plain name is not one of the words that mean something else. */
    predicate IsPlain() {
      match this
      case Called(name) =>
        name !in ["and", "or", "not", "them"] && (name != "" ==> name[|name| - 1] != '*')
      case _ => true
    }

    ghost predicate Selects(n: string) {
      match this
      case Them => true
      case StartingWith(text) => |text| <= |n| && n[..|text|] == text
      case Called(name) => n == name
    }
  }

  datatype Quantifier = One | All | Bare

  datatype Item = Item(negated: bool, quantifier: Quantifier, of: Selector) {
    function Words(): seq<string> {
      (if negated then ["not"] else []) +
      match quantifier
      case One => ["1", "of", of.Word()]
      case All => ["all", "of", of.Word()]
      case Bare => [of.Word()]
    }
  }

  function WordsOf(items: seq<Item>): (r: seq<seq<string>>)
    ensures |r| == |items| && forall i :: 0 <= i < |r| ==> r[i] == items[i].Words()
  {
    seq(|items|, i requires 0 <= i < |items| => items[i].Words())
  }

  /** The items joined by `and`. */
  function BranchText(items: seq<Item>): seq<string> {
    Unsplit(WordsOf(items), "and")
  }

  function BranchTexts(branches: seq<seq<Item>>): (r: seq<seq<string>>)
    ensures |r| == |branches| && forall i :: 0 <= i < |r| ==> r[i] == BranchText(branches[i])
  {
    seq(|branches|, i requires 0 <= i < |branches| => BranchText(branches[i]))
  }

  /** The branches joined by `or`. */
  function ConditionText(branches: seq<seq<Item>>): seq<string> {
    Unsplit(BranchTexts(branches), "or")
  }

  // ----- When a condition fires -----

  ghost predicate NamesFilter(n: string) {
    exists i, j :: 0 <= i <= j <= |n| && n[i..j] == "filter"
  }

  /** A selection that a positive term may stand for. */
  ghost predicate Eligible(of: Selector, names: seq<string>, n: string) {
    n in names && of.Selects(n) && !NamesFilter(n)
  }

  /** Exactly one selection is negated, a filter or not, and it does not match. */
  ghost predicate Excludes(of: Selector, names: seq<string>, hits: set<string>) {
    exists n :: n in names && of.Selects(n) && n !in hits && forall m :: m in names && of.Selects(m) ==> m == n
  }

  ghost predicate Allows(x: Item, names: seq<string>, hits: set<string>) {
    if x.negated then Excludes(x.of, names, hits)
    else if x.quantifier == One then exists n :: Eligible(x.of, names, n) && n in hits
    else forall n :: Eligible(x.of, names, n) ==> n in hits
  }

  ghost predicate StandsForSome(x: Item, names: seq<string>) {
    !x.negated && exists n :: Eligible(x.of, names, n)
  }

  /** Every item allows it, and some positive item stands for something. */
  ghost predicate BranchAllows(items: seq<Item>, names: seq<string>, hits: set<string>) {
    && (forall i :: 0 <= i < |items| ==> Allows(items[i], names, hits))
    && exists i :: 0 <= i < |items| && StandsForSome(items[i], names)
  }

  ghost predicate SomeFires(plans: seq<NamePlan>, hits: set<string>) {
    exists p :: p in plans && (forall n :: n in p.positives ==> n in hits)
                && forall n :: n in p.negatives ==> n !in hits
  }

  ghost predicate SomeAllows(branches: seq<seq<Item>>, names: seq<string>, hits: set<string>) {
    exists i :: 0 <= i < |branches| && BranchAllows(branches[i], names, hits)
  }

  ghost predicate WellWritten(branches: seq<seq<Item>>) {
    && branches != [] && (forall i :: 0 <= i < |branches| ==> branches[i] != [])
    && forall i, j :: 0 <= i < |branches| && 0 <= j < |branches[i]| ==> branches[i][j].of.IsPlain()
  }

  // ----- One term -----

  lemma WordIsNoKeyword(of: Selector)
    requires of.IsPlain()
    ensures of.Word() !in ["and", "or", "not"]
    ensures of.Them? <==> of.Word() == "them"
  {
    if of.StartingWith? {
      var w := of.Word();
      assert w[|w| - 1] == '*';
      assert "and"[2] != '*' && "or"[1] != '*' && "not"[2] != '*' && "them"[3] != '*';
    }
  }

  lemma FilterIsContained(n: string)
    ensures NamesFilter(n) <==> IsFilterName(n)
  {
    if i, j :| 0 <= i <= j <= |n| && n[i..j] == "filter" {
      assert n[i..][..6] == n[i..j];
      assert StartsWith(n[i..], "filter");
    }
    if i :| 0 <= i <= |n| && StartsWith(n[i..], "filter") {
      assert n[i..][..6] == n[i..i + 6];
    }
  }

  lemma SelectsIsMatches(of: Selector, n: string)
    requires of.IsPlain()
    ensures Matches(of.Word(), n) <==> of.Selects(n)
  {
    WordIsNoKeyword(of);
    match of
    case StartingWith(text) =>
      assert of.Word()[..|of.Word()| - 1] == text;
    case _ =>
  }

  /** The pattern of a term is its last word, with the quantifier or without. */
  lemma PatternIsWord(x: Item)
    requires x.of.IsPlain()
    ensures var term := Item(false, x.quantifier, x.of).Words();
      && PatternOf(term) == x.of.Word() && !IsNot(term) && term != []
      && (IsOneOf(term) <==> x.quantifier == One)
      && (x.quantifier == One ==> term[2..] == [x.of.Word()] && PatternOf(term[2..]) == x.of.Word())
  {
    WordIsNoKeyword(x.of);
    var term := Item(false, x.quantifier, x.of).Words();
    match x.quantifier
    case Bare => assert term == [x.of.Word()];
    case _ => assert term[2..] == [x.of.Word()];
  }

  lemma NegatedWords(x: Item)
    requires x.of.IsPlain() && x.negated
    ensures IsNot(x.Words()) && x.Words()[1..] == Item(false, x.quantifier, x.of).Words()
  {
  }

  /** What a positive item stands for. */
  lemma PositiveNames(x: Item, names: seq<string>, n: string)
    requires x.of.IsPlain() && !x.negated
    ensures n in NamesForTerm(if x.quantifier == One then x.Words()[2..] else x.Words(), names, false) <==>
            Eligible(x.of, names, n)
  {
    PatternIsWord(x);
    assert x.Words() == Item(false, x.quantifier, x.of).Words();
    SelectsIsMatches(x.of, n);
    FilterIsContained(n);
  }

  lemma NegatedNames(x: Item, names: seq<string>, n: string)
    requires x.of.IsPlain() && x.negated
    ensures n in NamesForTerm(x.Words()[1..], names, true) <==> n in names && x.of.Selects(n)
  {
    PatternIsWord(x);
    NegatedWords(x);
    SelectsIsMatches(x.of, n);
  }

  lemma ResolvesIff(x: Item, names: seq<string>)
    requires x.of.IsPlain() && !x.negated
    ensures Resolves(x.Words(), names, false) <==> exists n :: Eligible(x.of, names, n)
  {
    PatternIsWord(x);
    assert x.Words() == Item(false, x.quantifier, x.of).Words();
    var pattern := x.of.Word();
    assert IsOneOf(x.Words()) ==> OneOfPattern(x.Words(), false) == pattern;
    if n :| n in names && !IsFilterName(n) && Matches(pattern, n) {
      SelectsIsMatches(x.of, n);
      FilterIsContained(n);
      assert Eligible(x.of, names, n);
    }
    if n :| Eligible(x.of, names, n) {
      SelectsIsMatches(x.of, n);
      FilterIsContained(n);
      assert n in names && !IsFilterName(n) && Matches(pattern, n);
    }
  }

  /** The options of a positive item hold as it says. */
  lemma OptionsAllow(x: Item, names: seq<string>, hits: set<string>)
    requires x.of.IsPlain() && !x.negated
    ensures OptionHolds(PositiveOptions(x.Words(), names), hits) <==> Allows(x, names, hits)
  {
    PatternIsWord(x);
    assert x.Words() == Item(false, x.quantifier, x.of).Words();
    var options := PositiveOptions(x.Words(), names);
    forall n ensures n in NamesForTerm(if x.quantifier == One then x.Words()[2..] else x.Words(), names, false) <==>
                     Eligible(x.of, names, n)
    {
      PositiveNames(x, names, n);
    }
    if x.quantifier == One {
      OneOptionHolds(x, names, hits);
    } else {
      var found := NamesForTerm(x.Words(), names, false);
      assert options == [found];
      assert options[0] in options;
    }
  }

  lemma OneOptionHolds(x: Item, names: seq<string>, hits: set<string>)
    requires IsOneOf(x.Words())
    ensures OptionHolds(PositiveOptions(x.Words(), names), hits) <==>
            exists n :: n in NamesForTerm(x.Words()[2..], names, false) && n in hits
  {
    var found, options := NamesForTerm(x.Words()[2..], names, false), PositiveOptions(x.Words(), names);
    if o :| o in options && Covered(o, hits) {
      assert o[0] in found && o[0] in hits;
    }
    if n :| n in found && n in hits {
      var i :| 0 <= i < |found| && found[i] == n;
      assert options[i] in options && Covered(options[i], hits);
    }
  }

  /** A negated item stands for one selection that does not match exactly when it excludes one. */
  lemma NegationExcludes(x: Item, names: seq<string>, hits: set<string>)
    requires x.of.IsPlain() && x.negated && Distinct(names)
    ensures var found := NamesForTerm(x.Words()[1..], names, true);
      Excludes(x.of, names, hits) <==> |found| == 1 && found[0] !in hits
  {
    var found := NamesForTerm(x.Words()[1..], names, true);
    forall n ensures n in found <==> n in names && x.of.Selects(n) {
      NegatedNames(x, names, n);
    }
    NamesAreDistinct(PatternOf(x.Words()[1..]), names);
    FirstTwoDiffer(found);
    if |found| == 1 {
      assert found[0] in found;
    }
    if n :| n in names && x.of.Selects(n) && n !in hits && forall m :: m in names && x.of.Selects(m) ==> m == n {
      assert n in found && found[0] in found;
      forall k | 0 <= k < |found| ensures found[k] == n {
        assert found[k] in found;
      }
    }
  }

  lemma FirstTwoDiffer(names: seq<string>)
    requires Distinct(names)
    ensures |names| > 1 ==> names[0] != names[1]
  {
  }

  lemma {:induction false} FilterKeepsDistinct(names: seq<string>, keep: string -> bool)
    requires Distinct(names)
    ensures Distinct(Filter(names, keep))
  {
    if names != [] {
      FilterKeepsDistinct(names[1..], keep);
      assert forall n :: n in names[1..] ==> n != names[0];
    }
  }

  lemma NamesAreDistinct(pattern: string, names: seq<string>)
    requires Distinct(names)
    ensures Distinct(NamesForPattern(pattern, names, true))
  {
    if pattern != "them" && |pattern| > 0 {
      FilterKeepsDistinct(names, n => StartsWith(n, pattern[..|pattern| - 1]));
    }
  }

  // ----- One branch -----

  ghost predicate AllPlain(items: seq<Item>) {
    items != [] && forall i :: 0 <= i < |items| ==> items[i].of.IsPlain()
  }

  lemma ItemWords(x: Item)
    requires x.of.IsPlain()
    ensures x.Words() != [] && "and" !in x.Words() && "or" !in x.Words()
    ensures IsNot(x.Words()) <==> x.negated
  {
    WordIsNoKeyword(x.of);
    PatternIsWord(x);
  }

  /** The words of a branch are split into those of its items. */
  lemma BranchSplits(items: seq<Item>)
    requires AllPlain(items)
    ensures SplitOn(BranchText(items), "and") == WordsOf(items)
    ensures BranchText(items) != [] && "or" !in BranchText(items)
  {
    forall i | 0 <= i < |items|
      ensures items[i].Words() != [] && "and" !in items[i].Words() && "or" !in items[i].Words()
    {
      ItemWords(items[i]);
    }
    SigmaParentheses.SplitOfUnsplit(WordsOf(items), "and");
    SigmaParentheses.UnsplitNonEmpty(WordsOf(items), "and");
    SigmaParentheses.UnsplitAvoids(WordsOf(items), "and", "or");
  }

  /** One item and its term. */
  ghost predicate ItemIs(x: Item, term: seq<string>, names: seq<string>, hits: set<string>) {
    && (IsNot(term) <==> x.negated)
    && (x.negated ==>
          var found := NamesForTerm(term[1..], names, true);
          Allows(x, names, hits) <==> |found| == 1 && found[0] !in hits)
    && (!x.negated ==> (Allows(x, names, hits) <==> OptionHolds(PositiveOptions(term, names), hits)))
    && (!x.negated ==> (StandsForSome(x, names) <==> Resolves(term, names, false)))
    && (!x.negated ==> (IsOneOf(term) <==> x.quantifier == One))
    && (!x.negated && x.quantifier == One && Allows(x, names, hits) ==> StandsForSome(x, names))
  }

  lemma ItemIsTerm(x: Item, names: seq<string>, hits: set<string>)
    requires x.of.IsPlain() && Distinct(names)
    ensures ItemIs(x, x.Words(), names, hits)
  {
    ItemWords(x);
    if x.negated {
      NegationExcludes(x, names, hits);
    } else {
      OptionsAllow(x, names, hits);
      ResolvesIff(x, names);
      PatternIsWord(x);
      assert x.Words() == Item(false, x.quantifier, x.of).Words();
    }
  }

  ghost predicate ItemsAre(items: seq<Item>, terms: seq<seq<string>>, names: seq<string>, hits: set<string>) {
    |terms| == |items| && forall i :: 0 <= i < |items| ==> ItemIs(items[i], terms[i], names, hits)
  }

  /** The items' own conditions are those under which a branch has plans and these fire. */
  lemma ItemsDecide(items: seq<Item>, terms: seq<seq<string>>, names: seq<string>, hits: set<string>)
    requires ItemsAre(items, terms, names, hits)
    ensures BranchAllows(items, names, hits) <==>
            !GivenUp(terms, names) && !NothingResolves(terms, names) && TermsAllow(terms, names, hits)
  {
    SomeResolves(items, terms, names, hits);
    if forall i :: 0 <= i < |items| ==> Allows(items[i], names, hits) {
      NotGivenUp(items, terms, names, hits);
      AllowedTerms(items, terms, names, hits);
    }
    if !GivenUp(terms, names) && TermsAllow(terms, names, hits) {
      AllowedItems(items, terms, names, hits);
    }
  }

  lemma SomeResolves(items: seq<Item>, terms: seq<seq<string>>, names: seq<string>, hits: set<string>)
    requires ItemsAre(items, terms, names, hits)
    ensures NothingResolves(terms, names) <==> !exists i :: 0 <= i < |items| && StandsForSome(items[i], names)
  {
    if i :| 0 <= i < |items| && StandsForSome(items[i], names) {
      assert ItemIs(items[i], terms[i], names, hits);
    }
    if i :| 0 <= i < |terms| && !IsNot(terms[i]) && Resolves(terms[i], names, false) {
      assert ItemIs(items[i], terms[i], names, hits);
    }
  }

  lemma NotGivenUp(items: seq<Item>, terms: seq<seq<string>>, names: seq<string>, hits: set<string>)
    requires ItemsAre(items, terms, names, hits)
    requires forall i :: 0 <= i < |items| ==> Allows(items[i], names, hits)
    ensures !GivenUp(terms, names)
  {
    forall i | 0 <= i < |terms| && IsNot(terms[i]) ensures |NamesForTerm(terms[i][1..], names, true)| == 1 {
      assert ItemIs(items[i], terms[i], names, hits);
    }
    forall i | 0 <= i < |terms| && !IsNot(terms[i]) && IsOneOf(terms[i]) ensures Resolves(terms[i], names, false) {
      assert ItemIs(items[i], terms[i], names, hits);
    }
  }

  lemma AllowedTerms(items: seq<Item>, terms: seq<seq<string>>, names: seq<string>, hits: set<string>)
    requires ItemsAre(items, terms, names, hits)
    requires forall i :: 0 <= i < |items| ==> Allows(items[i], names, hits)
    ensures TermsAllow(terms, names, hits)
  {
    forall i | 0 <= i < |terms| && !IsNot(terms[i]) ensures OptionHolds(PositiveOptions(terms[i], names), hits) {
      assert ItemIs(items[i], terms[i], names, hits);
    }
    forall n | Negated(terms, names, n) ensures n !in hits {
      var i :| 0 <= i < |terms| && IsNot(terms[i]) && n in NamesForTerm(terms[i][1..], names, true);
      assert ItemIs(items[i], terms[i], names, hits);
    }
  }

  lemma AllowedItems(items: seq<Item>, terms: seq<seq<string>>, names: seq<string>, hits: set<string>)
    requires ItemsAre(items, terms, names, hits)
    requires !GivenUp(terms, names) && TermsAllow(terms, names, hits)
    ensures forall i :: 0 <= i < |items| ==> Allows(items[i], names, hits)
  {
    forall i | 0 <= i < |items| ensures Allows(items[i], names, hits) {
      assert ItemIs(items[i], terms[i], names, hits);
      if items[i].negated {
        var found := NamesForTerm(terms[i][1..], names, true);
        assert |found| == 1 && found[0] in found;
        assert Negated(terms, names, found[0]);
      }
    }
  }

  // ----- A whole condition -----

  lemma BranchIsAllowed(items: seq<Item>, names: seq<string>, hits: set<string>)
    requires AllPlain(items) && Distinct(names)
    ensures SomePlanFires(BranchPlans(BranchText(items), names), hits) <==> BranchAllows(items, names, hits)
  {
    BranchSplits(items);
    BranchFiresIff(BranchText(items), names, hits);
    forall j | 0 <= j < |items| ensures ItemIs(items[j], WordsOf(items)[j], names, hits) {
      ItemIsTerm(items[j], names, hits);
    }
    ItemsDecide(items, WordsOf(items), names, hits);
  }

  /** Main result: a condition of such terms fires, whatever matches, exactly when one of its branches
      allows it: each `1 of` term has a match, all that any other positive term stands for matches, no
      negated selection does, and some positive term stands for something. */
  lemma ConditionFiresIff(branches: seq<seq<Item>>, names: seq<string>, hits: set<string>)
    requires WellWritten(branches) && Distinct(names)
    ensures SomeFires(ConditionPlans(ConditionText(branches), names), hits) <==> SomeAllows(branches, names, hits)
  {
    var texts := BranchTexts(branches);
    forall i | 0 <= i < |branches|
      ensures texts[i] != [] && "or" !in texts[i]
      ensures SomePlanFires(BranchPlans(texts[i], names), hits) <==> BranchAllows(branches[i], names, hits)
    {
      BranchSplits(branches[i]);
      BranchIsAllowed(branches[i], names, hits);
    }
    SigmaParentheses.SplitOfUnsplit(texts, "or");
    SigmaParentheses.UnsplitNonEmpty(texts, "or");
    BranchesFire(texts, names, hits);
    var plans := ConditionPlans(ConditionText(branches), names);
    FiresIff(plans, hits);
    if SomeBranchFires(texts, names, hits) {
      var b :| b in texts && SomePlanFires(BranchPlans(b, names), hits);
      var i :| 0 <= i < |texts| && texts[i] == b;
      assert BranchAllows(branches[i], names, hits);
    }
    if i :| 0 <= i < |branches| && BranchAllows(branches[i], names, hits) {
      assert texts[i] in texts;
    }
  }

  lemma FiresIff(plans: seq<NamePlan>, hits: set<string>)
    ensures SomeFires(plans, hits) <==> SomePlanFires(plans, hits)
  {
    if p :| p in plans && (forall n :: n in p.positives ==> n in hits) && forall n :: n in p.negatives ==> n !in hits {
      var i :| 0 <= i < |plans| && plans[i] == p;
      assert PlanFires(plans[i], hits);
    }
    if i :| 0 <= i < |plans| && PlanFires(plans[i], hits) {
      assert plans[i] in plans;
    }
  }

  // ----- Some conditions, word by word -----

  lemma TextOfOne(x: Item)
    ensures ConditionText([[x]]) == x.Words()
  {
    assert WordsOf([x]) == [x.Words()];
    assert BranchTexts([[x]]) == [x.Words()];
  }

  lemma TextOfTwo(a: Item, b: Item)
    ensures ConditionText([[a, b]]) == a.Words() + ["and"] + b.Words()
  {
    var segments := WordsOf([a, b]);
    assert segments[1..] == [b.Words()];
    assert Unsplit(segments[1..], "and") == b.Words();
    assert Unsplit(segments, "and") == segments[0] + ["and"] + Unsplit(segments[1..], "and");
    assert BranchTexts([[a, b]]) == [BranchText([a, b])];
  }

  lemma OneItem(x: Item, names: seq<string>, hits: set<string>)
    requires x.of.IsPlain() && Distinct(names)
    ensures SomeFires(ConditionPlans(x.Words(), names), hits) <==> Allows(x, names, hits) && StandsForSome(x, names)
  {
    TextOfOne(x);
    ConditionFiresIff([[x]], names, hits);
    assert BranchAllows([x], names, hits) <==> Allows(x, names, hits) && StandsForSome(x, names) by {
      assert [x][0] == x;
    }
    assert SomeAllows([[x]], names, hits) <==> BranchAllows([x], names, hits) by {
      assert [[x]][0] == [x];
    }
  }

  /** `1 of text*` and `all of text*`: of the selections that begin with the text and are no filters,
      some match, or all do and there is one. */
  lemma BeginningsFire(text: string, names: seq<string>, hits: set<string>)
    requires Distinct(names)
    ensures SomeFires(ConditionPlans(["1", "of", text + "*"], names), hits) <==>
            exists n :: Begins(text, names, n) && n in hits
    ensures SomeFires(ConditionPlans(["all", "of", text + "*"], names), hits) <==>
            (exists n :: Begins(text, names, n)) && forall n :: Begins(text, names, n) ==> n in hits
  {
    var of := StartingWith(text);
    OneItem(Item(false, One, of), names, hits);
    OneItem(Item(false, All, of), names, hits);
    assert forall n :: Begins(text, names, n) <==> Eligible(of, names, n);
    assert Item(false, One, of).Words() == ["1", "of", text + "*"];
    assert Item(false, All, of).Words() == ["all", "of", text + "*"];
  }

  ghost predicate Begins(text: string, names: seq<string>, n: string) {
    n in names && |text| <= |n| && n[..|text|] == text && !NamesFilter(n)
  }

  /** `1 of them` and `all of them`: the same of all selections that are no filters. */
  lemma ThemFire(names: seq<string>, hits: set<string>)
    requires Distinct(names)
    ensures SomeFires(ConditionPlans(["1", "of", "them"], names), hits) <==>
            exists n :: n in names && !NamesFilter(n) && n in hits
    ensures SomeFires(ConditionPlans(["all", "of", "them"], names), hits) <==>
            (exists n :: n in names && !NamesFilter(n)) && forall n :: n in names && !NamesFilter(n) ==> n in hits
  {
    OneItem(Item(false, One, Them), names, hits);
    OneItem(Item(false, All, Them), names, hits);
    assert forall n :: n in names && !NamesFilter(n) <==> Eligible(Them, names, n);
    assert Item(false, One, Them).Words() == ["1", "of", "them"];
    assert Item(false, All, Them).Words() == ["all", "of", "them"];
  }

  /** Without a condition, any selection that is no filter does. */
  lemma NothingWrittenFires(names: seq<string>, hits: set<string>)
    ensures SomeFires(ConditionPlans([], names), hits) <==> exists n :: n in names && !NamesFilter(n) && n in hits
  {
    EmptyConditionFires(names, hits);
    FiresIff(ConditionPlans([], names), hits);
    forall n ensures NamesFilter(n) <==> IsFilterName(n) {
      FilterIsContained(n);
    }
  }

  /** A name and a quantified term: `surface and 1 of selection_*`. A name that is not among the
      selections, or is a filter's, drops out. */
  lemma NameAndSomeFire(name: string, text: string, names: seq<string>, hits: set<string>)
    requires Called(name).IsPlain() && Distinct(names)
    ensures SomeFires(ConditionPlans([name, "and", "1", "of", text + "*"], names), hits) <==>
            (name in names && !NamesFilter(name) ==> name in hits) && exists n :: Begins(text, names, n) && n in hits
  {
    var a, b := Item(false, Bare, Called(name)), Item(false, One, StartingWith(text));
    TextOfTwo(a, b);
    assert a.Words() == [name] && b.Words() == ["1", "of", text + "*"];
    assert [name] + ["and"] + ["1", "of", text + "*"] == [name, "and", "1", "of", text + "*"];
    ConditionFiresIff([[a, b]], names, hits);
    assert SomeAllows([[a, b]], names, hits) <==> BranchAllows([a, b], names, hits) by {
      assert [[a, b]][0] == [a, b];
    }
    assert [a, b][0] == a && [a, b][1] == b;
    assert forall n :: Begins(text, names, n) <==> Eligible(b.of, names, n);
    assert Allows(a, names, hits) <==> (name in names && !NamesFilter(name) ==> name in hits) by {
      assert forall n :: Eligible(a.of, names, n) <==> n == name && name in names && !NamesFilter(name);
    }
    assert Allows(b, names, hits) ==> StandsForSome(b, names);
  }
}
