/** Exactly which conditions survive when their parentheses are erased. */
module SigmaErasure {
  import opened SigmaPlans
  import opened SigmaParentheses

  // ----- Conditions over different names -----

  /** The name a term stands for when it is no pattern. */
  function NameOf(words: seq<string>): string {
    Join(words, " ")
  }

  /** A name that is written as it is: one word, no pattern and no keyword. */
  predicate PlainName(name: string) {
    name != "" && ' ' !in name && name[|name| - 1] != '*' && name != "them" && name != "not" && Word(name)
  }

  predicate IsPlainTerm(words: seq<string>, names: seq<string>) {
    |words| == 1 && words[0] in names && PlainName(words[0])
  }

  predicate IsPlain(t: Tree, names: seq<string>) {
    match t
    case Term(words) => IsPlainTerm(words, names)
    case Not(x) => IsPlain(x, names)
    case And(a, b) => IsPlain(a, names) && IsPlain(b, names)
    case Or(a, b) => IsPlain(a, names) && IsPlain(b, names)
  }

  function Leaves(t: Tree): set<string> {
    match t
    case Term(words) => {NameOf(words)}
    case Not(x) => Leaves(x)
    case And(a, b) => Leaves(a) + Leaves(b)
    case Or(a, b) => Leaves(a) + Leaves(b)
  }

  /** No name is asked about twice. */
  predicate AllDifferent(t: Tree) {
    match t
    case Term(_) => true
    case Not(x) => AllDifferent(x)
    case And(a, b) => AllDifferent(a) && AllDifferent(b) && Leaves(a) !! Leaves(b)
    case Or(a, b) => AllDifferent(a) && AllDifferent(b) && Leaves(a) !! Leaves(b)
  }

  predicate NegatesTermsOnly(t: Tree) {
    match t
    case Term(_) => true
    case Not(x) => x.Term?
    case And(a, b) => NegatesTermsOnly(a) && NegatesTermsOnly(b)
    case Or(a, b) => NegatesTermsOnly(a) && NegatesTermsOnly(b)
  }

  /** Names of filters stand below negations only; `below` says whether the tree itself does. */
  predicate FiltersNegated(t: Tree, below: bool) {
    match t
    case Term(words) => below || !IsFilterName(NameOf(words))
    case Not(x) => FiltersNegated(x, true)
    case And(a, b) => FiltersNegated(a, below) && FiltersNegated(b, below)
    case Or(a, b) => FiltersNegated(a, below) && FiltersNegated(b, below)
  }

  /** What a tree over plain names says: the name of a filter stands for nothing but below a
      negation. */
  predicate Means(t: Tree, below: bool, hits: set<string>) {
    match t
    case Term(words) => NameOf(words) in hits && (below || !IsFilterName(NameOf(words)))
    case Not(x) => !Means(x, true, hits)
    case And(a, b) => Means(a, below, hits) && Means(b, below, hits)
    case Or(a, b) => Means(a, below, hits) || Means(b, below, hits)
  }

  /** What a literal over a plain name says to the source: a second `not` is taken for part of a
      name that does not exist. */
  predicate Says(l: Literal, hits: set<string>) {
    if l.nots == 0 then NameOf(l.words) in hits && !IsFilterName(NameOf(l.words))
    else l.nots == 1 ==> NameOf(l.words) !in hits
  }

  ghost predicate BranchSays(branch: seq<Literal>, hits: set<string>) {
    forall l :: l in branch ==> Says(l, hits)
  }

  ghost predicate ReadsAs(branches: seq<seq<Literal>>, hits: set<string>) {
    exists b :: b in branches && BranchSays(b, hits)
  }

  lemma PlainTerm(words: seq<string>, names: seq<string>, includeFilters: bool, hits: set<string>)
    requires IsPlainTerm(words, names)
    ensures NameOf(words) == words[0]
    ensures TermHolds(words, names, includeFilters, hits) <==>
            words[0] in hits && (includeFilters || !IsFilterName(words[0]))
  {
    assert forall n :: Matches(words[0], n) <==> n == words[0];
    assert Matches(PatternOf(words), words[0]);
  }

  lemma {:induction false} PlainTree(t: Tree, names: seq<string>, includeFilters: bool, hits: set<string>)
    requires IsPlain(t, names)
    ensures WellFormed(t)
    ensures TreeHolds(t, names, includeFilters, hits) <==> Means(t, includeFilters, hits)
  {
    match t
    case Term(words) =>
      PlainTerm(words, names, includeFilters, hits);
    case Not(x) =>
      PlainTree(x, names, true, hits);
    case And(a, b) =>
      PlainTree(a, names, includeFilters, hits);
      PlainTree(b, names, includeFilters, hits);
    case Or(a, b) =>
      PlainTree(a, names, includeFilters, hits);
      PlainTree(b, names, includeFilters, hits);
  }

  ghost predicate OneWordNames(names: seq<string>) {
    forall n :: n in names ==> ' ' !in n
  }

  lemma {:induction false} JoinedHasBlank(words: seq<string>)
    requires |words| > 1 && words[|words| - 1] != ""
    ensures Join(words, " ") != "" && ' ' in Join(words, " ")
    ensures var last := words[|words| - 1]; Join(words, " ")[|Join(words, " ")| - 1] == last[|last| - 1]
  {
    var rest := words[1..];
    assert Join(words, " ") == words[0] + " " + Join(rest, " ");
    assert Join(words, " ")[|words[0]|] == ' ';
    if |rest| > 1 {
      JoinedHasBlank(rest);
    }
  }

  /** Behind a second `not` no selection is found. */
  lemma NothingBehindNots(k: nat, name: string, names: seq<string>, hits: set<string>)
    requires k > 0 && PlainName(name) && OneWordNames(names)
    ensures !TermHolds(Nots(k) + [name], names, true, hits)
  {
    var words := Nots(k) + [name];
    JoinedHasBlank(words);
    assert words[0] == "not";
    assert PatternOf(words) == Join(words, " ");
    forall n | n in names ensures !Matches(PatternOf(words), n) {
    }
  }

  lemma PlainLiteral(l: Literal, names: seq<string>, hits: set<string>)
    requires IsPlainTerm(l.words, names) && OneWordNames(names)
    ensures LiteralHolds(Text(l), names, hits) <==> Says(l, hits)
  {
    PlainTerm(l.words, names, l.nots > 0, hits);
    if l.nots <= 1 {
      LiteralMeaning(l, names, hits);
    } else {
      NothingBehindNots(l.nots - 1, l.words[0], names, hits);
      assert l.words == [l.words[0]];
      assert Text(l)[1..] == Nots(l.nots - 1) + [l.words[0]];
    }
  }

  /** The number of negations that the source puts before a name, and the number of those that
      stand above it. */
  function NotsBefore(t: Tree, k: nat, name: string): nat {
    match t
    case Term(_) => k
    case Not(x) => NotsBefore(x, k + 1, name)
    case And(a, b) => if name in Leaves(a) then NotsBefore(a, k, name) else NotsBefore(b, 0, name)
    case Or(a, b) => if name in Leaves(a) then NotsBefore(a, k, name) else NotsBefore(b, 0, name)
  }

  function NotsAbove(t: Tree, name: string): nat {
    match t
    case Term(_) => 0
    case Not(x) => NotsAbove(x, name) + 1
    case And(a, b) => if name in Leaves(a) then NotsAbove(a, name) else NotsAbove(b, name)
    case Or(a, b) => if name in Leaves(a) then NotsAbove(a, name) else NotsAbove(b, name)
  }

  ghost predicate LiteralOf(l: Literal, t: Tree, k: nat) {
    NameOf(l.words) in Leaves(t) && l.nots == NotsBefore(t, k, NameOf(l.words))
  }

  lemma InMeet<T>(a: seq<seq<T>>, b: seq<seq<T>>, branch: seq<T>, x: T)
    requires a != [] && b != [] && branch in Meet(a, b) && x in branch
    ensures (exists c :: c in a && x in c) || (exists c :: c in b && x in c)
  {
    var n := |a| - 1;
    assert a[n] in a && b[0] in b;
    if branch in a[..n] {
      assert branch in a;
    } else if branch in b[1..] {
      assert branch in b;
    } else {
      assert branch == a[n] + b[0];
    }
  }

  /** What the literals of a reading are. */
  lemma {:induction false} LiteralsOfReading(t: Tree, k: nat, names: seq<string>, branch: seq<Literal>, l: Literal)
    requires IsPlain(t, names) && AllDifferent(t) && branch in Reading(t, k) && l in branch
    ensures LiteralOf(l, t, k)
    ensures IsPlainTerm(l.words, names)
  {
    match t
    case Term(words) =>
      assert branch == [Literal(k, words)];
    case Not(x) =>
      LiteralsOfReading(x, k + 1, names, branch, l);
    case And(a, b) =>
      InMeet(Reading(a, k), Reading(b, 0), branch, l);
      if c :| c in Reading(a, k) && l in c {
        LiteralsOfReading(a, k, names, c, l);
      } else {
        var c :| c in Reading(b, 0) && l in c;
        LiteralsOfReading(b, 0, names, c, l);
      }
    case Or(a, b) =>
      if branch in Reading(a, k) {
        LiteralsOfReading(a, k, names, branch, l);
      } else {
        LiteralsOfReading(b, 0, names, branch, l);
      }
  }

  lemma BranchMeaning(branch: seq<Literal>, names: seq<string>, hits: set<string>)
    requires OneWordNames(names)
    requires forall l :: l in branch ==> IsPlainTerm(l.words, names)
    ensures AllHold(Texts(branch), names, hits) <==> BranchSays(branch, hits)
  {
    forall i | 0 <= i < |branch| ensures LiteralHolds(Texts(branch)[i], names, hits) <==> Says(branch[i], hits) {
      assert branch[i] in branch;
      PlainLiteral(branch[i], names, hits);
    }
    if BranchSays(branch, hits) {
      forall i | 0 <= i < |branch| ensures Says(branch[i], hits) {
        assert branch[i] in branch;
      }
    }
  }

  lemma ReadingMeaning(t: Tree, names: seq<string>, hits: set<string>)
    requires IsPlain(t, names) && AllDifferent(t) && OneWordNames(names)
    ensures ReadingHolds(Reading(t, 0), names, hits) <==> ReadsAs(Reading(t, 0), hits)
  {
    var branches := Reading(t, 0);
    forall i | 0 <= i < |branches|
      ensures AllHold(Texts(branches[i]), names, hits) <==> BranchSays(branches[i], hits)
    {
      forall l: Literal | l in branches[i] ensures IsPlainTerm(l.words, names) {
        LiteralsOfReading(t, 0, names, branches[i], l);
      }
      BranchMeaning(branches[i], names, hits);
    }
  }

  // ----- A name that is misread -----

  lemma {:induction false} SameHits(t: Tree, below: bool, a: set<string>, b: set<string>)
    requires forall n :: n in Leaves(t) ==> (n in a <==> n in b)
    ensures Means(t, below, a) <==> Means(t, below, b)
  {
    match t
    case Term(_) =>
    case Not(x) => SameHits(x, true, a, b);
    case And(x, y) =>
      SameHits(x, below, a, b);
      SameHits(y, below, a, b);
    case Or(x, y) =>
      SameHits(x, below, a, b);
      SameHits(y, below, a, b);
  }

  lemma Together(a: Tree, b: Tree, below: bool, x: set<string>, y: set<string>)
    requires Leaves(a) !! Leaves(b) && x <= Leaves(a) && y <= Leaves(b)
    ensures Means(a, below, x + y) == Means(a, below, x) && Means(b, below, x + y) == Means(b, below, y)
  {
    SameHits(a, below, x, x + y);
    SameHits(b, below, y, x + y);
  }

  /** A tree over different names can be made to hold and to fail. */
  lemma {:induction false} SomeHits(t: Tree, below: bool, wanted: bool) returns (hits: set<string>)
    requires AllDifferent(t) && FiltersNegated(t, below)
    ensures hits <= Leaves(t) && Means(t, below, hits) == wanted
  {
    match t
    case Term(words) =>
      hits := if wanted then {NameOf(words)} else {};
    case Not(x) =>
      hits := SomeHits(x, true, !wanted);
    case _ =>
      var x := SomeHits(t.left, below, wanted);
      var y := SomeHits(t.right, below, wanted);
      Together(t.left, t.right, below, x, y);
      hits := x + y;
  }

  /** Every name of such a tree matters. */
  lemma {:induction false} NameMatters(t: Tree, below: bool, name: string) returns (hits: set<string>)
    requires AllDifferent(t) && FiltersNegated(t, below) && name in Leaves(t)
    ensures name !in hits && hits <= Leaves(t) && Means(t, below, hits) != Means(t, below, hits + {name})
  {
    match t
    case Term(_) =>
      hits := {};
    case Not(x) =>
      hits := NameMatters(x, true, name);
    case _ =>
      var a, b := t.left, t.right;
      if name !in Leaves(a) {
        a, b := b, a;
      }
      var x := NameMatters(a, below, name);
      var y := SomeHits(b, below, t.And?);
      hits := x + y;
      Together(a, b, below, x, y);
      Together(a, b, below, x + {name}, y);
      assert hits + {name} == x + {name} + y;
  }

  /** An even number of negations keeps the direction in which a name works, an odd one turns it. */
  lemma {:induction false} Direction(t: Tree, below: bool, name: string, hits: set<string>)
    requires AllDifferent(t) && name in Leaves(t)
    ensures NotsAbove(t, name) % 2 == 0 ==> Means(t, below, hits) ==> Means(t, below, hits + {name})
    ensures NotsAbove(t, name) % 2 == 1 ==> Means(t, below, hits + {name}) ==> Means(t, below, hits)
  {
    match t
    case Term(_) =>
    case Not(x) =>
      Direction(x, true, name, hits);
    case And(a, b) =>
      Direction(if name in Leaves(a) then a else b, below, name, hits);
      SameHits(if name in Leaves(a) then b else a, below, hits, hits + {name});
    case Or(a, b) =>
      Direction(if name in Leaves(a) then a else b, below, name, hits);
      SameHits(if name in Leaves(a) then b else a, below, hits, hits + {name});
  }

  /** In the reading, no negation makes a name work upwards and one downwards; behind more the
      name does not matter. */
  lemma ReadDirection(t: Tree, names: seq<string>, name: string, hits: set<string>)
    requires IsPlain(t, names) && AllDifferent(t) && name in Leaves(t) && name !in hits
    ensures var nots := NotsBefore(t, 0, name);
      && (nots != 1 ==> ReadsAs(Reading(t, 0), hits) ==> ReadsAs(Reading(t, 0), hits + {name}))
      && (nots != 0 ==> ReadsAs(Reading(t, 0), hits + {name}) ==> ReadsAs(Reading(t, 0), hits))
  {
    var nots := NotsBefore(t, 0, name);
    forall branch, l | branch in Reading(t, 0) && l in branch
      ensures nots != 1 ==> Says(l, hits) ==> Says(l, hits + {name})
      ensures nots != 0 ==> Says(l, hits + {name}) ==> Says(l, hits)
    {
      LiteralsOfReading(t, 0, names, branch, l);
    }
    if branch :| branch in Reading(t, 0) && BranchSays(branch, hits) && nots != 1 {
      assert BranchSays(branch, hits + {name});
    }
    if branch :| branch in Reading(t, 0) && BranchSays(branch, hits + {name}) && nots != 0 {
      assert BranchSays(branch, hits);
    }
  }

  predicate Misread(t: Tree, name: string) {
    NotsBefore(t, 0, name) > 1 || NotsBefore(t, 0, name) % 2 != NotsAbove(t, name) % 2
  }

  lemma MisreadChangesMeaning(t: Tree, names: seq<string>, name: string) returns (hits: set<string>)
    requires IsPlain(t, names) && AllDifferent(t) && FiltersNegated(t, false)
    requires name in Leaves(t) && Misread(t, name)
    ensures ReadsAs(Reading(t, 0), hits) != Means(t, false, hits)
  {
    hits := NameMatters(t, false, name);
    Direction(t, false, name, hits);
    ReadDirection(t, names, name, hits);
    if ReadsAs(Reading(t, 0), hits) == Means(t, false, hits) {
      hits := hits + {name};
    }
  }

  function First(t: Tree): (r: string)
    ensures r in Leaves(t)
  {
    match t
    case Term(words) => NameOf(words)
    case Not(x) => First(x)
    case And(a, _) => First(a)
    case Or(a, _) => First(a)
  }

  lemma {:induction false} FirstTakesAll(t: Tree, k: nat)
    ensures NotsBefore(t, k, First(t)) == k + NotsAbove(t, First(t))
  {
    match t
    case Term(_) =>
    case Not(x) => FirstTakesAll(x, k + 1);
    case And(a, _) => FirstTakesAll(a, k);
    case Or(a, _) => FirstTakesAll(a, k);
  }

  /** Unless the first name is negated, the negations above the second name all stand right before
      it. */
  lemma {:induction false} Second(a: Tree, b: Tree, t: Tree, k: nat) returns (name: string)
    requires (t == And(a, b) || t == Or(a, b)) && AllDifferent(t)
    ensures name in Leaves(t) && (NotsAbove(t, First(t)) == 0 ==> NotsBefore(t, k, name) == NotsAbove(t, name))
    decreases t
  {
    if a.And? || a.Or? {
      name := Second(a.left, a.right, a, k);
    } else {
      name := First(b);
      FirstTakesAll(b, 0);
    }
  }

  /** Where a negation covers more than one term, some name is misread. */
  lemma {:induction false} SomeMisread(t: Tree) returns (name: string)
    requires AllDifferent(t) && !NegatesTermsOnly(t)
    ensures name in Leaves(t) && Misread(t, name)
  {
    match t
    case Not(x) =>
      FirstTakesAll(x, 1);
      if x.Not? || NotsAbove(x, First(x)) > 0 {
        name := First(x);
      } else {
        name := Second(x.left, x.right, x, 1);
      }
    case And(a, b) =>
      name := SomeMisread(if NegatesTermsOnly(a) then b else a);
    case Or(a, b) =>
      name := SomeMisread(if NegatesTermsOnly(a) then b else a);
  }

  // ----- An `or` below an `and` -----

  /** The names that make every literal hold, or fail. */
  function HitsFor(t: Tree, holds: bool): (r: set<string>)
    ensures r <= Leaves(t)
  {
    match t
    case Term(words) => if holds then {NameOf(words)} else {}
    case Not(x) => HitsFor(x, !holds)
    case And(a, b) => HitsFor(a, holds) + HitsFor(b, holds)
    case Or(a, b) => HitsFor(a, holds) + HitsFor(b, holds)
  }

  lemma {:induction false} HitsForMeaning(t: Tree, holds: bool, hits: set<string>)
    requires AllDifferent(t) && NegatesTermsOnly(t) && FiltersNegated(t, false)
    requires forall n :: n in Leaves(t) ==> (n in hits <==> n in HitsFor(t, holds))
    ensures Means(t, false, hits) == holds
    ensures forall branch, l :: branch in Reading(t, 0) && l in branch ==> Says(l, hits) == holds
  {
    match t
    case Term(words) =>
    case Not(x) =>
      assert HitsFor(t, holds) == HitsFor(x, !holds) == if holds then {} else {NameOf(x.words)};
      assert Means(t, false, hits) == !Means(x, true, hits) && NameOf(x.words) in Leaves(t);
      assert Reading(t, 0) == Reading(x, 1) == [[Literal(1, x.words)]];
    case And(a, b) =>
      HitsForMeaning(a, holds, hits);
      HitsForMeaning(b, holds, hits);
      forall branch, l | branch in Reading(t, 0) && l in branch ensures Says(l, hits) == holds {
        InMeet(Reading(a, 0), Reading(b, 0), branch, l);
      }
    case Or(a, b) =>
      HitsForMeaning(a, holds, hits);
      HitsForMeaning(b, holds, hits);
  }

  lemma {:induction false} ConjunctionIsOneBranch(t: Tree, k: nat)
    requires NegatesTermsOnly(t)
    ensures IsConjunction(t) <==> |Reading(t, k)| == 1
  {
    match t
    case Term(_) =>
    case Not(x) =>
      assert Reading(t, k) == [[Literal(k + 1, x.words)]];
    case And(a, b) =>
      ConjunctionIsOneBranch(a, k);
      ConjunctionIsOneBranch(b, 0);
    case Or(a, b) =>
  }

  /** With an `or` on one side of an `and`, the outermost branch on that side is read without the
      other side. */
  lemma OrBelowAnd(a: Tree, b: Tree) returns (hits: set<string>)
    requires AllDifferent(And(a, b)) && NegatesTermsOnly(And(a, b)) && !IsConjunction(And(a, b))
    requires FiltersNegated(And(a, b), false)
    ensures hits <= Leaves(a) + Leaves(b)
    ensures ReadsAs(Reading(And(a, b), 0), hits) && !Means(And(a, b), false, hits)
  {
    var r := Reading(And(a, b), 0);
    ConjunctionIsOneBranch(a, 0);
    ConjunctionIsOneBranch(b, 0);
    hits := HitsFor(a, !IsConjunction(a)) + HitsFor(b, IsConjunction(a));
    HitsForMeaning(a, !IsConjunction(a), hits);
    HitsForMeaning(b, IsConjunction(a), hits);
    var branch := if IsConjunction(a) then r[|r| - 1] else r[0];
    assert branch in Reading(if IsConjunction(a) then b else a, 0);
    assert branch in r && BranchSays(branch, hits);
  }

  lemma ReadsAsConcat(a: seq<seq<Literal>>, b: seq<seq<Literal>>, hits: set<string>)
    ensures ReadsAs(a + b, hits) <==> ReadsAs(a, hits) || ReadsAs(b, hits)
  {
  }

  lemma SameReading(t: Tree, names: seq<string>, x: set<string>, hits: set<string>)
    requires IsPlain(t, names) && AllDifferent(t) && ReadsAs(Reading(t, 0), x)
    requires forall n :: n in Leaves(t) ==> (n in x <==> n in hits)
    ensures ReadsAs(Reading(t, 0), hits)
  {
    var branch :| branch in Reading(t, 0) && BranchSays(branch, x);
    forall l | l in branch ensures Says(l, hits) {
      LiteralsOfReading(t, 0, names, branch, l);
    }
  }

  /** Where an `or` stands below an `and`, the source reads a weaker condition. */
  lemma {:induction false} ShapeIsWeakened(t: Tree, names: seq<string>) returns (hits: set<string>)
    requires IsPlain(t, names) && AllDifferent(t) && FiltersNegated(t, false)
    requires NegatesTermsOnly(t) && !IsOrOfAnds(t)
    ensures hits <= Leaves(t) && ReadsAs(Reading(t, 0), hits) && !Means(t, false, hits)
  {
    if t.And? {
      hits := OrBelowAnd(t.left, t.right);
    } else {
      var bad, other := t.left, t.right;
      if IsOrOfAnds(bad) {
        bad, other := other, bad;
      }
      var x := ShapeIsWeakened(bad, names);
      var y := SomeHits(other, false, false);
      Together(bad, other, false, x, y);
      hits := x + y;
      ReadsAsConcat(Reading(t.left, 0), Reading(t.right, 0), hits);
      SameReading(bad, names, x, hits);
    }
  }

  // ----- Main results -----

  lemma ErasedPlainMeaning(t: Tree, names: seq<string>, hits: set<string>)
    requires IsPlain(t, names) && AllDifferent(t) && OneWordNames(names)
    ensures TreeHolds(t, names, false, hits) <==> Means(t, false, hits)
    ensures ConditionHolds(Erased(Written(t)), names, hits) <==> ReadsAs(Reading(t, 0), hits)
  {
    PlainTree(t, names, false, hits);
    ErasedMeaning(t, names, hits);
    ReadingMeaning(t, names, hits);
  }

  /** Main result: over different names, erasing the parentheses keeps the meaning of exactly the
      conditions that are an `or` of `and`s of possibly negated names. */
  lemma ErasureIsExactIff(t: Tree, names: seq<string>)
    requires IsPlain(t, names) && AllDifferent(t) && OneWordNames(names) && FiltersNegated(t, false)
    ensures (forall hits: set<string> ::
               ConditionHolds(Erased(Written(t)), names, hits) <==> TreeHolds(t, names, false, hits))
            <==> IsOrOfAnds(t)
  {
    PlainTree(t, names, false, {});
    if IsOrOfAnds(t) {
      forall hits: set<string>
        ensures ConditionHolds(Erased(Written(t)), names, hits) <==> TreeHolds(t, names, false, hits)
      {
        ErasureKeepsShape(t, names, hits);
      }
    } else {
      var hits: set<string>;
      if NegatesTermsOnly(t) {
        hits := ShapeIsWeakened(t, names);
      } else {
        var name := SomeMisread(t);
        hits := MisreadChangesMeaning(t, names, name);
      }
      ErasedPlainMeaning(t, names, hits);
      assert ConditionHolds(Erased(Written(t)), names, hits) != TreeHolds(t, names, false, hits);
    }
  }

  /** Where only names are negated, exactly the same conditions are never weakened: any other one
      fires on some event on which it does not hold. */
  lemma ErasureNeverWeakensIff(t: Tree, names: seq<string>)
    requires IsPlain(t, names) && AllDifferent(t) && OneWordNames(names) && FiltersNegated(t, false)
    requires NegatesTermsOnly(t)
    ensures (forall hits: set<string> ::
               ConditionHolds(Erased(Written(t)), names, hits) ==> TreeHolds(t, names, false, hits))
            <==> IsOrOfAnds(t)
  {
    ErasureIsExactIff(t, names);
    if !IsOrOfAnds(t) {
      var hits := ShapeIsWeakened(t, names);
      ErasedPlainMeaning(t, names, hits);
      assert ConditionHolds(Erased(Written(t)), names, hits) && !TreeHolds(t, names, false, hits);
    }
  }
}
