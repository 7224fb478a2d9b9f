/** Parentheses in a Sigma condition. The source turns them into blanks before it splits the
    condition, so that only conditions of a certain shape keep their meaning. */
module SigmaParentheses {
  import opened SigmaPlans

  datatype Tree = Term(words: seq<string>) | Not(of: Tree) | And(left: Tree, right: Tree) | Or(left: Tree, right: Tree)

  // ----- Writing and erasing -----

  function Written(t: Tree): seq<string>
    decreases t, 0
  {
    match t
    case Term(words) => words
    case Not(x) => ["not"] + Parenthesised(x)
    case And(a, b) => Parenthesised(a) + ["and"] + Parenthesised(b)
    case Or(a, b) => Parenthesised(a) + ["or"] + Parenthesised(b)
  }

  function Parenthesised(t: Tree): seq<string>
    decreases t, 1
  {
    ["("] + Written(t) + [")"]
  }

  predicate IsParenthesis(word: string) {
    word == "(" || word == ")"
  }

  function Erased(words: seq<string>): seq<string> {
    Filter(words, w => !IsParenthesis(w))
  }

  predicate Word(w: string) {
    w != "and" && w != "or" && !IsParenthesis(w)
  }

  predicate WellFormed(t: Tree) {
    match t
    case Term(words) => words != [] && words[0] != "not" && forall w :: w in words ==> Word(w)
    case Not(x) => WellFormed(x)
    case And(a, b) => WellFormed(a) && WellFormed(b)
    case Or(a, b) => WellFormed(a) && WellFormed(b)
  }

  // ----- What a tree means -----

  /** Names of filters are looked up below a negation only. */
  ghost predicate TreeHolds(t: Tree, names: seq<string>, includeFilters: bool, hits: set<string>) {
    match t
    case Term(words) => TermHolds(words, names, includeFilters, hits)
    case Not(x) => !TreeHolds(x, names, true, hits)
    case And(a, b) => TreeHolds(a, names, includeFilters, hits) && TreeHolds(b, names, includeFilters, hits)
    case Or(a, b) => TreeHolds(a, names, includeFilters, hits) || TreeHolds(b, names, includeFilters, hits)
  }

  /** No `or` below an `and`, and negations of single terms only. */
  predicate IsConjunction(t: Tree) {
    match t
    case Term(_) => true
    case Not(x) => x.Term?
    case And(a, b) => IsConjunction(a) && IsConjunction(b)
    case Or(_, _) => false
  }

  predicate IsOrOfAnds(t: Tree) {
    if t.Or? then IsOrOfAnds(t.left) && IsOrOfAnds(t.right) else IsConjunction(t)
  }

  // ----- What is left without parentheses -----

  /** A term behind some negations. */
  datatype Literal = Literal(nots: nat, words: seq<string>)

  function Nots(k: nat): seq<string> {
    seq(k, _ => "not")
  }

  function Text(l: Literal): seq<string> {
    Nots(l.nots) + l.words
  }

  /** The branches and terms that the source reads; `k` negations stand before the tree, and the
      first term takes them all. */
  function Reading(t: Tree, k: nat): (r: seq<seq<Literal>>)
    ensures r != [] && forall i :: 0 <= i < |r| ==> r[i] != []
  {
    match t
    case Term(words) => [[Literal(k, words)]]
    case Not(x) => Reading(x, k + 1)
    case And(a, b) => Meet(Reading(a, k), Reading(b, 0))
    case Or(a, b) => Reading(a, k) + Reading(b, 0)
  }

  /** An `and` joins the branches next to it. */
  function Meet<T>(a: seq<seq<T>>, b: seq<seq<T>>): (r: seq<seq<T>>)
    requires a != [] && b != []
    ensures |r| == |a| + |b| - 1
  {
    a[..|a| - 1] + [a[|a| - 1] + b[0]] + b[1..]
  }

  function Texts(branch: seq<Literal>): seq<seq<string>> {
    seq(|branch|, i requires 0 <= i < |branch| => Text(branch[i]))
  }

  function BranchTexts(branches: seq<seq<Literal>>): seq<seq<string>> {
    seq(|branches|, i requires 0 <= i < |branches| => Unsplit(Texts(branches[i]), "and"))
  }

  lemma {:induction false} FilterConcat(a: seq<string>, b: seq<string>, keep: string -> bool)
    ensures Filter(a + b, keep) == Filter(a, keep) + Filter(b, keep)
  {
    if a == [] {
      assert a + b == b;
    } else {
      assert (a + b)[1..] == a[1..] + b;
      FilterConcat(a[1..], b, keep);
    }
  }

  lemma {:induction false} ErasedWords(words: seq<string>)
    requires forall w :: w in words ==> !IsParenthesis(w)
    ensures Erased(words) == words
  {
    if words != [] {
      ErasedWords(words[1..]);
    }
  }

  lemma ErasedParenthesised(t: Tree)
    ensures Erased(Parenthesised(t)) == Erased(Written(t))
  {
    FilterConcat(["("] + Written(t), [")"], w => !IsParenthesis(w));
    FilterConcat(["("], Written(t), w => !IsParenthesis(w));
  }

  lemma ErasedOperator(a: Tree, operator: string, b: Tree)
    requires !IsParenthesis(operator)
    ensures Erased(Parenthesised(a) + [operator] + Parenthesised(b))
         == Erased(Written(a)) + [operator] + Erased(Written(b))
  {
    FilterConcat(Parenthesised(a) + [operator], Parenthesised(b), w => !IsParenthesis(w));
    FilterConcat(Parenthesised(a), [operator], w => !IsParenthesis(w));
    ErasedParenthesised(a);
    ErasedParenthesised(b);
  }

  lemma {:induction false} UnsplitConcat(a: seq<seq<string>>, b: seq<seq<string>>, separator: string)
    requires a != [] && b != []
    ensures Unsplit(a + b, separator) == Unsplit(a, separator) + [separator] + Unsplit(b, separator)
  {
    if |a| == 1 {
      assert (a + b)[1..] == b;
    } else {
      assert (a + b)[1..] == a[1..] + b;
      UnsplitConcat(a[1..], b, separator);
    }
  }

  function Before(segments: seq<seq<string>>, separator: string): seq<string> {
    if segments == [] then [] else Unsplit(segments, separator) + [separator]
  }

  function Behind(segments: seq<seq<string>>, separator: string): seq<string> {
    if segments == [] then [] else [separator] + Unsplit(segments, separator)
  }

  lemma UnsplitLast(a: seq<seq<string>>, x: seq<string>, separator: string)
    ensures Unsplit(a + [x], separator) == Before(a, separator) + x
  {
    if a == [] {
      assert a + [x] == [x];
    } else {
      UnsplitConcat(a, [x], separator);
    }
  }

  lemma UnsplitFirst(y: seq<string>, b: seq<seq<string>>, separator: string)
    ensures Unsplit([y] + b, separator) == y + Behind(b, separator)
  {
    if b == [] {
      assert [y] + b == [y];
    } else {
      UnsplitConcat([y], b, separator);
    }
  }

  lemma UnsplitAround(a: seq<seq<string>>, z: seq<string>, b: seq<seq<string>>, separator: string)
    ensures Unsplit(a + [z] + b, separator) == Before(a, separator) + z + Behind(b, separator)
  {
    if b == [] {
      assert a + [z] + b == a + [z];
      UnsplitLast(a, z, separator);
    } else {
      UnsplitConcat(a + [z], b, separator);
      UnsplitLast(a, z, separator);
    }
  }

  /** Joining two neighbouring branches leaves an `and` where the `or` would have been. */
  lemma UnsplitMeet(a: seq<seq<string>>, x: seq<string>, y: seq<string>, b: seq<seq<string>>)
    ensures Unsplit(a + [x + ["and"] + y] + b, "or") == Unsplit(a + [x], "or") + ["and"] + Unsplit([y] + b, "or")
  {
    UnsplitAround(a, x + ["and"] + y, b, "or");
    UnsplitLast(a, x, "or");
    UnsplitFirst(y, b, "or");
  }

  lemma BranchTextsConcat(a: seq<seq<Literal>>, b: seq<seq<Literal>>)
    ensures BranchTexts(a + b) == BranchTexts(a) + BranchTexts(b)
  {
  }

  lemma MeetText(a: seq<seq<Literal>>, x: seq<Literal>, y: seq<Literal>, b: seq<seq<Literal>>)
    requires x != [] && y != []
    ensures Unsplit(BranchTexts(a + [x + y] + b), "or")
         == Unsplit(BranchTexts(a + [x]), "or") + ["and"] + Unsplit(BranchTexts([y] + b), "or")
  {
    var s, t := Unsplit(Texts(x), "and"), Unsplit(Texts(y), "and");
    assert Texts(x + y) == Texts(x) + Texts(y);
    UnsplitConcat(Texts(x), Texts(y), "and");
    UnsplitMeet(BranchTexts(a), s, t, BranchTexts(b));
    BranchTextsConcat(a, [x + y]);
    BranchTextsConcat(a + [x + y], b);
    BranchTextsConcat(a, [x]);
    BranchTextsConcat([y], b);
    assert BranchTexts([x + y]) == [s + ["and"] + t] && BranchTexts([x]) == [s] && BranchTexts([y]) == [t];
  }

  lemma ReadingOfAnd(a: Tree, b: Tree, k: nat)
    ensures Unsplit(BranchTexts(Reading(And(a, b), k)), "or")
         == Unsplit(BranchTexts(Reading(a, k)), "or") + ["and"] + Unsplit(BranchTexts(Reading(b, 0)), "or")
  {
    var left, right := Reading(a, k), Reading(b, 0);
    var n := |left| - 1;
    MeetText(left[..n], left[n], right[0], right[1..]);
    assert left == left[..n] + [left[n]] && right == [right[0]] + right[1..];
  }

  lemma ReadingOfOr(a: Tree, b: Tree, k: nat)
    ensures Unsplit(BranchTexts(Reading(Or(a, b), k)), "or")
         == Unsplit(BranchTexts(Reading(a, k)), "or") + ["or"] + Unsplit(BranchTexts(Reading(b, 0)), "or")
  {
    BranchTextsConcat(Reading(a, k), Reading(b, 0));
    UnsplitConcat(BranchTexts(Reading(a, k)), BranchTexts(Reading(b, 0)), "or");
  }

  lemma NotsStep(k: nat, words: seq<string>)
    ensures Nots(k) + (["not"] + words) == Nots(k + 1) + words
    ensures Nots(0) + words == words
  {
    assert Nots(k + 1) == Nots(k) + ["not"];
  }

  lemma Reassociate(x: seq<string>, y: seq<string>, operator: string, z: seq<string>)
    ensures x + (y + [operator] + z) == (x + y) + [operator] + z
  {
  }

  lemma LeafText(words: seq<string>, k: nat)
    requires forall w :: w in words ==> !IsParenthesis(w)
    ensures Nots(k) + Erased(words) == Unsplit(BranchTexts([[Literal(k, words)]]), "or")
  {
    ErasedWords(words);
    assert Texts([Literal(k, words)]) == [Text(Literal(k, words))];
    assert BranchTexts([[Literal(k, words)]]) == [Text(Literal(k, words))];
  }

  lemma ErasedNot(x: Tree)
    ensures Erased(Written(Not(x))) == ["not"] + Erased(Written(x))
  {
    FilterConcat(["not"], Parenthesised(x), w => !IsParenthesis(w));
    ErasedParenthesised(x);
  }

  /** Without its parentheses, a tree is the text of its reading. */
  lemma {:induction false} ErasedIsReading(t: Tree, k: nat)
    requires WellFormed(t)
    ensures Nots(k) + Erased(Written(t)) == Unsplit(BranchTexts(Reading(t, k)), "or")
  {
    match t
    case Term(words) =>
      LeafText(words, k);
    case Not(x) =>
      ErasedNot(x);
      ErasedIsReading(x, k + 1);
      NotsStep(k, Erased(Written(x)));
    case And(a, b) =>
      ErasedOperator(a, "and", b);
      ErasedIsReading(a, k);
      ErasedIsReading(b, 0);
      NotsStep(0, Erased(Written(b)));
      ReadingOfAnd(a, b, k);
      Reassociate(Nots(k), Erased(Written(a)), "and", Erased(Written(b)));
    case Or(a, b) =>
      ErasedOperator(a, "or", b);
      ErasedIsReading(a, k);
      ErasedIsReading(b, 0);
      NotsStep(0, Erased(Written(b)));
      ReadingOfOr(a, b, k);
      Reassociate(Nots(k), Erased(Written(a)), "or", Erased(Written(b)));
  }

  // ----- Splitting the text again -----

  lemma {:induction false} SplitRun(current: seq<string>, run: seq<string>, tokens: seq<string>, separator: string)
    requires separator !in run
    ensures SplitFrom(current, run + tokens, separator) == SplitFrom(current + run, tokens, separator)
    decreases run
  {
    if run == [] {
      assert run + tokens == tokens && current + run == current;
    } else {
      assert (run + tokens)[1..] == run[1..] + tokens;
      SplitRun(current + [run[0]], run[1..], tokens, separator);
      assert current + [run[0]] + run[1..] == current + run;
    }
  }

  ghost predicate Segments(segments: seq<seq<string>>, separator: string) {
    forall i :: 0 <= i < |segments| ==> segments[i] != [] && separator !in segments[i]
  }

  lemma UnsplitNonEmpty(segments: seq<seq<string>>, separator: string)
    requires segments != [] && Segments(segments, separator)
    ensures Unsplit(segments, separator) != []
  {
  }

  lemma {:induction false} SplitOfUnsplit(segments: seq<seq<string>>, separator: string)
    requires segments != [] && Segments(segments, separator)
    ensures SplitOn(Unsplit(segments, separator), separator) == segments
  {
    var first, rest := segments[0], segments[1..];
    if rest == [] {
      SplitRun([], first, [], separator);
      assert first + [] == first && [] + first == first;
    } else {
      var tail := Unsplit(rest, separator);
      UnsplitNonEmpty(rest, separator);
      SplitRun([], first, [separator] + tail, separator);
      assert first + [separator] + tail == first + ([separator] + tail) && [] + first == first;
      assert ([separator] + tail)[1..] == tail;
      SplitOfUnsplit(rest, separator);
    }
  }

  ghost predicate ReadableLiteral(l: Literal) {
    l.words != [] && l.words[0] != "not" && forall w :: w in l.words ==> Word(w)
  }

  ghost predicate Readable(branches: seq<seq<Literal>>) {
    forall i, j :: 0 <= i < |branches| && 0 <= j < |branches[i]| ==> ReadableLiteral(branches[i][j])
  }

  lemma {:induction false} ReadingIsReadable(t: Tree, k: nat)
    requires WellFormed(t)
    ensures Readable(Reading(t, k))
  {
    match t
    case Term(_) =>
    case Not(x) => ReadingIsReadable(x, k + 1);
    case And(a, b) =>
      ReadingIsReadable(a, k);
      ReadingIsReadable(b, 0);
    case Or(a, b) =>
      ReadingIsReadable(a, k);
      ReadingIsReadable(b, 0);
  }

  lemma {:induction false} UnsplitAvoids(segments: seq<seq<string>>, separator: string, other: string)
    requires separator != other && forall i :: 0 <= i < |segments| ==> other !in segments[i]
    ensures other !in Unsplit(segments, separator)
  {
    if |segments| > 1 {
      UnsplitAvoids(segments[1..], separator, other);
    }
  }

  lemma TextsAreSegments(branch: seq<Literal>)
    requires branch != [] && forall j :: 0 <= j < |branch| ==> ReadableLiteral(branch[j])
    ensures SplitOn(Unsplit(Texts(branch), "and"), "and") == Texts(branch)
    ensures Unsplit(Texts(branch), "and") != [] && "or" !in Unsplit(Texts(branch), "and")
  {
    SplitOfUnsplit(Texts(branch), "and");
    UnsplitNonEmpty(Texts(branch), "and");
    UnsplitAvoids(Texts(branch), "and", "or");
  }

  ghost predicate ReadingHolds(branches: seq<seq<Literal>>, names: seq<string>, hits: set<string>) {
    exists i :: 0 <= i < |branches| && AllHold(Texts(branches[i]), names, hits)
  }

  /** The source splits the erased condition into the branches and terms of the reading. */
  lemma ErasedSplits(t: Tree)
    requires WellFormed(t)
    ensures Erased(Written(t)) != [] && SplitOn(Erased(Written(t)), "or") == BranchTexts(Reading(t, 0))
    ensures forall i :: 0 <= i < |Reading(t, 0)| ==>
              SplitOn(BranchTexts(Reading(t, 0))[i], "and") == Texts(Reading(t, 0)[i])
  {
    var branches := Reading(t, 0);
    ErasedIsReading(t, 0);
    ReadingIsReadable(t, 0);
    NotsStep(0, Erased(Written(t)));
    forall i | 0 <= i < |branches|
      ensures SplitOn(BranchTexts(branches)[i], "and") == Texts(branches[i])
      ensures BranchTexts(branches)[i] != [] && "or" !in BranchTexts(branches)[i]
    {
      TextsAreSegments(branches[i]);
    }
    SplitOfUnsplit(BranchTexts(branches), "or");
    UnsplitNonEmpty(BranchTexts(branches), "or");
  }

  /** What the erased condition says, in terms of the reading. */
  lemma ErasedMeaning(t: Tree, names: seq<string>, hits: set<string>)
    requires WellFormed(t)
    ensures ConditionHolds(Erased(Written(t)), names, hits) <==> ReadingHolds(Reading(t, 0), names, hits)
  {
    ErasedSplits(t);
  }

  // ----- Shapes that survive -----

  lemma LiteralMeaning(l: Literal, names: seq<string>, hits: set<string>)
    requires ReadableLiteral(l) && l.nots <= 1
    ensures LiteralHolds(Text(l), names, hits) <==>
            if l.nots == 1 then !TermHolds(l.words, names, true, hits) else TermHolds(l.words, names, false, hits)
  {
    if l.nots == 1 {
      assert Text(l)[1..] == l.words;
    } else {
      assert Text(l) == l.words;
    }
  }

  lemma AllHoldConcat(x: seq<seq<string>>, y: seq<seq<string>>, names: seq<string>, hits: set<string>)
    ensures AllHold(x + y, names, hits) <==> AllHold(x, names, hits) && AllHold(y, names, hits)
  {
    assert forall i :: 0 <= i < |x| ==> (x + y)[i] == x[i];
    assert forall i :: 0 <= i < |y| ==> (x + y)[|x| + i] == y[i];
  }

  lemma OneBranchHolds(branch: seq<Literal>, names: seq<string>, hits: set<string>)
    ensures ReadingHolds([branch], names, hits) <==> AllHold(Texts(branch), names, hits)
  {
    assert [branch][0] == branch;
  }

  lemma MeetOfOne(x: seq<Literal>, y: seq<Literal>, names: seq<string>, hits: set<string>)
    ensures ReadingHolds(Meet([x], [y]), names, hits) <==>
            ReadingHolds([x], names, hits) && ReadingHolds([y], names, hits)
  {
    assert Meet([x], [y]) == [x + y] && Texts(x + y) == Texts(x) + Texts(y);
    AllHoldConcat(Texts(x), Texts(y), names, hits);
    OneBranchHolds(x, names, hits);
    OneBranchHolds(y, names, hits);
    OneBranchHolds(x + y, names, hits);
  }

  lemma LiteralAlone(l: Literal, names: seq<string>, hits: set<string>)
    ensures ReadingHolds([[l]], names, hits) <==> LiteralHolds(Text(l), names, hits)
  {
    OneBranchHolds([l], names, hits);
    assert Texts([l]) == [Text(l)] && [Text(l)][0] == Text(l);
  }

  lemma {:induction false} ConjunctionSurvives(t: Tree, names: seq<string>, hits: set<string>)
    requires WellFormed(t) && IsConjunction(t)
    ensures |Reading(t, 0)| == 1
    ensures ReadingHolds(Reading(t, 0), names, hits) <==> TreeHolds(t, names, false, hits)
  {
    match t
    case Term(words) =>
      LiteralMeaning(Literal(0, words), names, hits);
      LiteralAlone(Literal(0, words), names, hits);
    case Not(x) =>
      LiteralMeaning(Literal(1, x.words), names, hits);
      LiteralAlone(Literal(1, x.words), names, hits);
      assert Reading(t, 0) == Reading(x, 1) == [[Literal(1, x.words)]];
    case And(a, b) =>
      ConjunctionSurvives(a, names, hits);
      ConjunctionSurvives(b, names, hits);
      assert Reading(a, 0) == [Reading(a, 0)[0]] && Reading(b, 0) == [Reading(b, 0)[0]];
      MeetOfOne(Reading(a, 0)[0], Reading(b, 0)[0], names, hits);
  }

  lemma ReadingHoldsConcat(a: seq<seq<Literal>>, b: seq<seq<Literal>>, names: seq<string>, hits: set<string>)
    ensures ReadingHolds(a + b, names, hits) <==> ReadingHolds(a, names, hits) || ReadingHolds(b, names, hits)
  {
    if i :| 0 <= i < |b| && AllHold(Texts(b[i]), names, hits) {
      assert (a + b)[|a| + i] == b[i];
    }
    if i :| 0 <= i < |a| && AllHold(Texts(a[i]), names, hits) {
      assert (a + b)[i] == a[i];
    }
  }

  lemma {:induction false} ShapeSurvives(t: Tree, names: seq<string>, hits: set<string>)
    requires WellFormed(t) && IsOrOfAnds(t)
    ensures ReadingHolds(Reading(t, 0), names, hits) <==> TreeHolds(t, names, false, hits)
  {
    if t.Or? {
      ShapeSurvives(t.left, names, hits);
      ShapeSurvives(t.right, names, hits);
      ReadingHoldsConcat(Reading(t.left, 0), Reading(t.right, 0), names, hits);
    } else {
      ConjunctionSurvives(t, names, hits);
    }
  }

  /** Main result: a condition that is an `or` of `and`s of possibly negated terms keeps its
      meaning when its parentheses are erased, whatever its terms stand for. */
  lemma ErasureKeepsShape(t: Tree, names: seq<string>, hits: set<string>)
    requires WellFormed(t) && IsOrOfAnds(t)
    ensures ConditionHolds(Erased(Written(t)), names, hits) <==> TreeHolds(t, names, false, hits)
  {
    ErasedMeaning(t, names, hits);
    ShapeSurvives(t, names, hits);
  }
}
