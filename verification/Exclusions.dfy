/** How the exclusions of a plan are merged into one, and when that keeps their meaning. */
module Exclusions {
  import opened Sorting
  import opened SigmaPlans
  import opened Regexes
  import opened CommandMatching

  function AllNames(matches: seq<CommandMatch>): seq<string> {
    if matches == [] then [] else AllNames(matches[..|matches| - 1]) + matches[|matches| - 1].processNames
  }

  function AllTokens(matches: seq<CommandMatch>): seq<string> {
    if matches == [] then [] else AllTokens(matches[..|matches| - 1]) + matches[|matches| - 1].containsAny
  }

  function AllRegexes(matches: seq<CommandMatch>): seq<Pattern> {
    if matches == [] then [] else AllRegexes(matches[..|matches| - 1]) + matches[|matches| - 1].regexAny
  }

  function MergeOr(matches: seq<CommandMatch>): CommandMatch {
    CommandMatch(SortedSet(AllNames(matches)), SortedSet(AllTokens(matches)), AllRegexes(matches))
  }

  lemma SortedSetEmpty(xs: seq<string>)
    ensures SortedSet(xs) == [] <==> xs == []
  {
    SortedSetOrdered(xs);
    if xs != [] {
      assert xs[0] in SortedSet(xs);
    }
  }

  lemma SameTokens(a: seq<string>, b: seq<string>, s: string)
    requires forall t :: t in a <==> t in b
    ensures ContainsGroup(a, s) <==> ContainsGroup(b, s)
  {
    if i :| 0 <= i < |a| && Contains(s, a[i]) {
      assert a[i] in b;
      var j :| 0 <= j < |b| && b[j] == a[i];
    }
    if i :| 0 <= i < |b| && Contains(s, b[i]) {
      assert b[i] in a;
      var j :| 0 <= j < |a| && a[j] == b[i];
    }
  }

  // ----- When merged exclusions keep their meaning -----

  ghost predicate TokensMatch(c: Command, m: CommandMatch) {
    m.containsAny == [] || ContainsGroup(m.containsAny, c.line)
  }

  ghost predicate RegexesMatch(c: Command, m: CommandMatch) {
    m.regexAny == [] || RegexGroup(m.regexAny, c.line)
  }

  ghost predicate SomeMatch(c: Command, matches: seq<CommandMatch>) {
    exists i :: 0 <= i < |matches| && CommandMatches(c, matches[i])
  }

  ghost predicate SomeContain(matches: seq<CommandMatch>, line: string) {
    exists i :: 0 <= i < |matches| && ContainsGroup(matches[i].containsAny, line)
  }

  ghost predicate SomePattern(matches: seq<CommandMatch>, line: string) {
    exists i :: 0 <= i < |matches| && RegexGroup(matches[i].regexAny, line)
  }

  lemma {:induction false} AllNamesMembers(matches: seq<CommandMatch>, x: string)
    ensures x in AllNames(matches) <==> exists i :: 0 <= i < |matches| && x in matches[i].processNames
  {
    if matches != [] {
      var n := |matches| - 1;
      AllNamesMembers(matches[..n], x);
      if i :| 0 <= i < n && x in matches[..n][i].processNames {
        assert x in matches[i].processNames;
      }
      if i :| 0 <= i < |matches| && x in matches[i].processNames && i < n {
        assert x in matches[..n][i].processNames;
      }
    }
  }

  lemma ContainsConcat(a: seq<string>, b: seq<string>, line: string)
    ensures ContainsGroup(a + b, line) <==> ContainsGroup(a, line) || ContainsGroup(b, line)
  {
    var all := a + b;
    if i :| 0 <= i < |a| && Contains(line, a[i]) {
      assert all[i] == a[i];
    }
    if i :| 0 <= i < |b| && Contains(line, b[i]) {
      assert all[|a| + i] == b[i];
    }
  }

  lemma PatternConcat(a: seq<Pattern>, b: seq<Pattern>, line: string)
    ensures RegexGroup(a + b, line) <==> RegexGroup(a, line) || RegexGroup(b, line)
  {
    var all := a + b;
    if i :| 0 <= i < |a| && Search(RegexOf(a[i]), line) {
      assert all[i] == a[i];
    }
    if i :| 0 <= i < |b| && Search(RegexOf(b[i]), line) {
      assert all[|a| + i] == b[i];
    }
  }

  lemma {:induction false} AllTokensMeaning(matches: seq<CommandMatch>, line: string)
    ensures ContainsGroup(AllTokens(matches), line) <==> SomeContain(matches, line)
  {
    if matches != [] {
      var n := |matches| - 1;
      AllTokensMeaning(matches[..n], line);
      ContainsConcat(AllTokens(matches[..n]), matches[n].containsAny, line);
      if i :| 0 <= i < n && ContainsGroup(matches[..n][i].containsAny, line) {
        assert ContainsGroup(matches[i].containsAny, line);
      }
      if i :| 0 <= i < |matches| && ContainsGroup(matches[i].containsAny, line) && i < n {
        assert ContainsGroup(matches[..n][i].containsAny, line);
      }
    }
  }

  lemma {:induction false} AllRegexesMeaning(matches: seq<CommandMatch>, line: string)
    ensures RegexGroup(AllRegexes(matches), line) <==> SomePattern(matches, line)
  {
    if matches != [] {
      var n := |matches| - 1;
      AllRegexesMeaning(matches[..n], line);
      PatternConcat(AllRegexes(matches[..n]), matches[n].regexAny, line);
      if i :| 0 <= i < n && RegexGroup(matches[..n][i].regexAny, line) {
        assert RegexGroup(matches[i].regexAny, line);
      }
      if i :| 0 <= i < |matches| && RegexGroup(matches[i].regexAny, line) && i < n {
        assert RegexGroup(matches[..n][i].regexAny, line);
      }
    }
  }

  predicate NoNames(matches: seq<CommandMatch>) {
    forall i :: 0 <= i < |matches| ==> matches[i].processNames == []
  }

  predicate NoTokens(matches: seq<CommandMatch>) {
    forall i :: 0 <= i < |matches| ==> matches[i].containsAny == []
  }

  predicate NoRegexes(matches: seq<CommandMatch>) {
    forall i :: 0 <= i < |matches| ==> matches[i].regexAny == []
  }

  lemma {:induction false} NothingOfKind(matches: seq<CommandMatch>)
    ensures AllNames(matches) == [] <==> NoNames(matches)
    ensures AllTokens(matches) == [] <==> NoTokens(matches)
    ensures AllRegexes(matches) == [] <==> NoRegexes(matches)
  {
    if matches != [] {
      var n := |matches| - 1;
      NothingOfKind(matches[..n]);
      NothingLast(matches);
      JoinedIsEmpty(AllNames(matches[..n]), matches[n].processNames);
      JoinedIsEmpty(AllTokens(matches[..n]), matches[n].containsAny);
      JoinedIsEmpty(AllRegexes(matches[..n]), matches[n].regexAny);
    }
  }

  lemma JoinedIsEmpty<T>(a: seq<T>, b: seq<T>)
    ensures a + b == [] <==> a == [] && b == []
  {
    assert |a + b| == |a| + |b|;
  }

  lemma NothingLast(matches: seq<CommandMatch>)
    requires matches != []
    ensures var front, m := matches[..|matches| - 1], matches[|matches| - 1];
      && (NoNames(matches) <==> NoNames(front) && m.processNames == [])
      && (NoTokens(matches) <==> NoTokens(front) && m.containsAny == [])
      && (NoRegexes(matches) <==> NoRegexes(front) && m.regexAny == [])
  {
    var n := |matches| - 1;
    assert forall i :: 0 <= i < n ==> matches[..n][i] == matches[i];
  }

  /** The merged exclusion, kind by kind. */
  lemma MergeOrByKind(matches: seq<CommandMatch>, c: Command)
    ensures var m := MergeOr(matches);
      && (m.processNames == [] <==> NoNames(matches)) && (m.containsAny == [] <==> NoTokens(matches))
      && (m.regexAny == [] <==> NoRegexes(matches))
      && (c.processName in m.processNames <==>
            exists i :: 0 <= i < |matches| && c.processName in matches[i].processNames)
      && (ContainsGroup(m.containsAny, c.line) <==> SomeContain(matches, c.line))
      && (RegexGroup(m.regexAny, c.line) <==> SomePattern(matches, c.line))
  {
    NothingOfKind(matches);
    SortedSetEmpty(AllNames(matches));
    SortedSetEmpty(AllTokens(matches));
    SortedSetOrdered(AllNames(matches));
    SortedSetOrdered(AllTokens(matches));
    AllNamesMembers(matches, c.processName);
    SameTokens(AllTokens(matches), SortedSet(AllTokens(matches)), c.line);
    AllTokensMeaning(matches, c.line);
    AllRegexesMeaning(matches, c.line);
  }

  predicate SameNames(a: CommandMatch, b: CommandMatch) {
    && (forall x :: x in a.processNames ==> x in b.processNames)
    && (forall x :: x in b.processNames ==> x in a.processNames)
  }

  predicate SameContains(a: CommandMatch, b: CommandMatch) {
    (forall x :: x in a.containsAny ==> x in b.containsAny) && (forall x :: x in b.containsAny ==> x in a.containsAny)
  }

  predicate SameRegexes(a: CommandMatch, b: CommandMatch) {
    (forall x :: x in a.regexAny ==> x in b.regexAny) && (forall x :: x in b.regexAny ==> x in a.regexAny)
  }

  predicate OnlyNamesVary(a: CommandMatch, b: CommandMatch) {
    SameContains(a, b) && SameRegexes(a, b) && (a.processNames == [] <==> b.processNames == [])
  }

  predicate OnlyTokensVary(a: CommandMatch, b: CommandMatch) {
    SameNames(a, b) && SameRegexes(a, b) && (a.containsAny == [] <==> b.containsAny == [])
  }

  predicate OnlyRegexesVary(a: CommandMatch, b: CommandMatch) {
    SameNames(a, b) && SameContains(a, b) && (a.regexAny == [] <==> b.regexAny == [])
  }

  /** The matches constrain the same kinds, and all but one kind in the same way. A single match
      does, and so do any matches that constrain one and the same kind only. */
  predicate VaryInOneKind(matches: seq<CommandMatch>) {
    || (forall i, j :: 0 <= i < |matches| && 0 <= j < |matches| ==> OnlyNamesVary(matches[i], matches[j]))
    || (forall i, j :: 0 <= i < |matches| && 0 <= j < |matches| ==> OnlyTokensVary(matches[i], matches[j]))
    || (forall i, j :: 0 <= i < |matches| && 0 <= j < |matches| ==> OnlyRegexesVary(matches[i], matches[j]))
  }

  lemma SamePatterns(a: seq<Pattern>, b: seq<Pattern>, line: string)
    requires forall p :: p in a ==> p in b
    requires RegexGroup(a, line)
    ensures RegexGroup(b, line)
  {
    var i :| 0 <= i < |a| && Search(RegexOf(a[i]), line);
    assert a[i] in b;
    var j :| 0 <= j < |b| && b[j] == a[i];
  }

  lemma SameParts(a: CommandMatch, b: CommandMatch, c: Command)
    ensures SameNames(a, b) ==>
            (ProcessMatches(c, a) <==> ProcessMatches(c, b)) && (a.processNames == [] <==> b.processNames == [])
    ensures SameContains(a, b) ==>
            (TokensMatch(c, a) <==> TokensMatch(c, b)) && (a.containsAny == [] <==> b.containsAny == [])
    ensures SameRegexes(a, b) ==>
            (RegexesMatch(c, a) <==> RegexesMatch(c, b)) && (a.regexAny == [] <==> b.regexAny == [])
  {
    if SameNames(a, b) {
      EmptyTogether(a.processNames, b.processNames);
      EmptyTogether(b.processNames, a.processNames);
    }
    if SameContains(a, b) {
      EmptyTogether(a.containsAny, b.containsAny);
      EmptyTogether(b.containsAny, a.containsAny);
      SameTokens(a.containsAny, b.containsAny, c.line);
    }
    if SameRegexes(a, b) {
      EmptyTogether(a.regexAny, b.regexAny);
      EmptyTogether(b.regexAny, a.regexAny);
      if RegexGroup(a.regexAny, c.line) {
        SamePatterns(a.regexAny, b.regexAny, c.line);
      }
      if RegexGroup(b.regexAny, c.line) {
        SamePatterns(b.regexAny, a.regexAny, c.line);
      }
    }
  }

  lemma EmptyTogether<T>(a: seq<T>, b: seq<T>)
    requires forall x :: x in a ==> x in b
    ensures b == [] ==> a == []
  {
    if a != [] {
      assert a[0] in b;
    }
  }

  lemma NamesShared(matches: seq<CommandMatch>, c: Command, k: nat)
    requires k < |matches| && forall j :: 0 <= j < |matches| ==> SameNames(matches[k], matches[j])
    ensures ProcessMatches(c, MergeOr(matches)) <==> ProcessMatches(c, matches[k])
    ensures MergeOr(matches).processNames == [] <==> matches[k].processNames == []
  {
    MergeOrByKind(matches, c);
    forall j | 0 <= j < |matches|
      ensures (matches[j].processNames == [] <==> matches[k].processNames == [])
    {
      SameParts(matches[k], matches[j], c);
    }
  }

  lemma TokensShared(matches: seq<CommandMatch>, c: Command, k: nat)
    requires k < |matches| && forall j :: 0 <= j < |matches| ==> SameContains(matches[k], matches[j])
    ensures TokensMatch(c, MergeOr(matches)) <==> TokensMatch(c, matches[k])
    ensures MergeOr(matches).containsAny == [] <==> matches[k].containsAny == []
  {
    MergeOrByKind(matches, c);
    forall j | 0 <= j < |matches|
      ensures (matches[j].containsAny == [] <==> matches[k].containsAny == [])
      ensures ContainsGroup(matches[j].containsAny, c.line) <==> ContainsGroup(matches[k].containsAny, c.line)
    {
      SameParts(matches[k], matches[j], c);
    }
  }

  lemma RegexesShared(matches: seq<CommandMatch>, c: Command, k: nat)
    requires k < |matches| && forall j :: 0 <= j < |matches| ==> SameRegexes(matches[k], matches[j])
    ensures RegexesMatch(c, MergeOr(matches)) <==> RegexesMatch(c, matches[k])
    ensures MergeOr(matches).regexAny == [] <==> matches[k].regexAny == []
  {
    MergeOrByKind(matches, c);
    forall j | 0 <= j < |matches|
      ensures (matches[j].regexAny == [] <==> matches[k].regexAny == [])
      ensures RegexGroup(matches[j].regexAny, c.line) <==> RegexGroup(matches[k].regexAny, c.line)
    {
      SameParts(matches[k], matches[j], c);
    }
  }

  /** In the kind that varies, the merged condition asks for any of the alternatives. */
  lemma NamesSpread(matches: seq<CommandMatch>, c: Command)
    requires matches != []
    requires forall i, j :: 0 <= i < |matches| && 0 <= j < |matches| ==>
               (matches[i].processNames == [] <==> matches[j].processNames == [])
    ensures ProcessMatches(c, MergeOr(matches)) <==> exists i :: 0 <= i < |matches| && ProcessMatches(c, matches[i])
    ensures MergeOr(matches).processNames == [] <==> matches[0].processNames == []
  {
    MergeOrByKind(matches, c);
    if NoNames(matches) {
      assert ProcessMatches(c, matches[0]);
    }
  }

  lemma TokensSpread(matches: seq<CommandMatch>, c: Command)
    requires matches != []
    requires forall i, j :: 0 <= i < |matches| && 0 <= j < |matches| ==>
               (matches[i].containsAny == [] <==> matches[j].containsAny == [])
    ensures TokensMatch(c, MergeOr(matches)) <==> exists i :: 0 <= i < |matches| && TokensMatch(c, matches[i])
    ensures MergeOr(matches).containsAny == [] <==> matches[0].containsAny == []
  {
    MergeOrByKind(matches, c);
    if NoTokens(matches) {
      assert TokensMatch(c, matches[0]);
    }
  }

  lemma RegexesSpread(matches: seq<CommandMatch>, c: Command)
    requires matches != []
    requires forall i, j :: 0 <= i < |matches| && 0 <= j < |matches| ==>
               (matches[i].regexAny == [] <==> matches[j].regexAny == [])
    ensures RegexesMatch(c, MergeOr(matches)) <==> exists i :: 0 <= i < |matches| && RegexesMatch(c, matches[i])
    ensures MergeOr(matches).regexAny == [] <==> matches[0].regexAny == []
  {
    MergeOrByKind(matches, c);
    if NoRegexes(matches) {
      assert RegexesMatch(c, matches[0]);
    }
  }

  lemma MatchInParts(c: Command, m: CommandMatch)
    ensures CommandMatches(c, m) <==>
            ProcessMatches(c, m) && TokensMatch(c, m) && RegexesMatch(c, m) && m.HasCondition()
  {
  }

  lemma ExactWhenNamesVary(matches: seq<CommandMatch>, c: Command)
    requires matches != []
    requires forall i, j :: 0 <= i < |matches| && 0 <= j < |matches| ==> OnlyNamesVary(matches[i], matches[j])
    ensures CommandMatches(c, MergeOr(matches)) <==> SomeMatch(c, matches)
    ensures MergeOr(matches).HasCondition() <==> matches[0].HasCondition()
  {
    NamesSpread(matches, c);
    MatchInParts(c, MergeOr(matches));
    forall k | 0 <= k < |matches|
      ensures CommandMatches(c, matches[k]) <==>
        ProcessMatches(c, matches[k]) && TokensMatch(c, MergeOr(matches)) && RegexesMatch(c, MergeOr(matches))
        && MergeOr(matches).HasCondition()
      ensures MergeOr(matches).HasCondition() <==> matches[k].HasCondition()
    {
      TokensShared(matches, c, k);
      RegexesShared(matches, c, k);
      MatchInParts(c, matches[k]);
    }
  }

  lemma ExactWhenTokensVary(matches: seq<CommandMatch>, c: Command)
    requires matches != []
    requires forall i, j :: 0 <= i < |matches| && 0 <= j < |matches| ==> OnlyTokensVary(matches[i], matches[j])
    ensures CommandMatches(c, MergeOr(matches)) <==> SomeMatch(c, matches)
    ensures MergeOr(matches).HasCondition() <==> matches[0].HasCondition()
  {
    TokensSpread(matches, c);
    MatchInParts(c, MergeOr(matches));
    forall k | 0 <= k < |matches|
      ensures CommandMatches(c, matches[k]) <==>
        ProcessMatches(c, MergeOr(matches)) && TokensMatch(c, matches[k]) && RegexesMatch(c, MergeOr(matches))
        && MergeOr(matches).HasCondition()
      ensures MergeOr(matches).HasCondition() <==> matches[k].HasCondition()
    {
      NamesShared(matches, c, k);
      RegexesShared(matches, c, k);
      MatchInParts(c, matches[k]);
    }
  }

  lemma ExactWhenRegexesVary(matches: seq<CommandMatch>, c: Command)
    requires matches != []
    requires forall i, j :: 0 <= i < |matches| && 0 <= j < |matches| ==> OnlyRegexesVary(matches[i], matches[j])
    ensures CommandMatches(c, MergeOr(matches)) <==> SomeMatch(c, matches)
    ensures MergeOr(matches).HasCondition() <==> matches[0].HasCondition()
  {
    RegexesSpread(matches, c);
    MatchInParts(c, MergeOr(matches));
    forall k | 0 <= k < |matches|
      ensures CommandMatches(c, matches[k]) <==>
        ProcessMatches(c, MergeOr(matches)) && TokensMatch(c, MergeOr(matches)) && RegexesMatch(c, matches[k])
        && MergeOr(matches).HasCondition()
      ensures MergeOr(matches).HasCondition() <==> matches[k].HasCondition()
    {
      NamesShared(matches, c, k);
      TokensShared(matches, c, k);
      MatchInParts(c, matches[k]);
    }
  }

  /** Main result: any number of exclusions that vary in one kind only are merged without loss. */
  lemma MergeOrIsExact(matches: seq<CommandMatch>, c: Command)
    requires matches != [] && VaryInOneKind(matches)
    ensures CommandMatches(c, MergeOr(matches)) <==> SomeMatch(c, matches)
    ensures MergeOr(matches).HasCondition() <==> matches[0].HasCondition()
  {
    if forall i, j :: 0 <= i < |matches| && 0 <= j < |matches| ==> OnlyNamesVary(matches[i], matches[j]) {
      ExactWhenNamesVary(matches, c);
    } else if forall i, j :: 0 <= i < |matches| && 0 <= j < |matches| ==> OnlyTokensVary(matches[i], matches[j]) {
      ExactWhenTokensVary(matches, c);
    } else {
      ExactWhenRegexesVary(matches, c);
    }
  }

  lemma MergeOrOfNone(c: Command)
    ensures CommandMatches(c, MergeOr([])) <==> SomeMatch(c, [])
  {
    SortedSetEmpty([]);
  }

  /** A merged exclusion has a condition when one of them has. */
  lemma MergeOrHasCondition(matches: seq<CommandMatch>, i: nat)
    requires i < |matches| && matches[i].HasCondition()
    ensures MergeOr(matches).HasCondition()
  {
    MergeOrByKind(matches, Command("", ""));
  }

  // ----- Exclusions of one kind each -----

  predicate SingleKind(m: CommandMatch) {
    || (m.processNames != [] && m.containsAny == [] && m.regexAny == [])
    || (m.processNames == [] && m.containsAny != [] && m.regexAny == [])
    || (m.processNames == [] && m.containsAny == [] && m.regexAny != [])
  }

  predicate SingleKinds(matches: seq<CommandMatch>) {
    forall i :: 0 <= i < |matches| ==> SingleKind(matches[i])
  }

  /** All matches constrain one and the same kind. */
  predicate OneKind(matches: seq<CommandMatch>) {
    || (NoTokens(matches) && NoRegexes(matches))
    || (NoNames(matches) && NoRegexes(matches))
    || (NoNames(matches) && NoTokens(matches))
  }

  ghost predicate ExactFor(matches: seq<CommandMatch>, c: Command) {
    CommandMatches(c, MergeOr(matches)) <==> SomeMatch(c, matches)
  }

  lemma OneKindVariesInIt(matches: seq<CommandMatch>)
    requires SingleKinds(matches) && OneKind(matches)
    ensures VaryInOneKind(matches)
  {
    if NoTokens(matches) && NoRegexes(matches) {
      assert forall i, j :: 0 <= i < |matches| && 0 <= j < |matches| ==> OnlyNamesVary(matches[i], matches[j]);
    } else if NoNames(matches) && NoRegexes(matches) {
      assert forall i, j :: 0 <= i < |matches| && 0 <= j < |matches| ==> OnlyTokensVary(matches[i], matches[j]);
    } else {
      assert forall i, j :: 0 <= i < |matches| && 0 <= j < |matches| ==> OnlyRegexesVary(matches[i], matches[j]);
    }
  }

  /** A name that no exclusion lists. */
  lemma UnlistedName(names: seq<string>) returns (x: string)
    ensures x !in names
  {
    x := "";
    for i := 0 to |names|
      invariant forall j :: 0 <= j < i ==> |names[j]| < |x|
    {
      if |names[i]| >= |x| {
        x := seq(|names[i]| + 1, _ => 'x');
      }
    }
  }

  /** Names together with another kind: some command is covered by an exclusion and not by the
      merged one. */
  lemma NamesMixBadly(matches: seq<CommandMatch>) returns (c: Command)
    requires SingleKinds(matches) && !NoNames(matches) && !(NoTokens(matches) && NoRegexes(matches))
    ensures SomeMatch(c, matches) && !CommandMatches(c, MergeOr(matches))
  {
    if line :| SomeContain(matches, line) || SomePattern(matches, line) {
      var x := UnlistedName(AllNames(matches));
      c := Command(x, line);
      MergeOrByKind(matches, c);
      AllNamesMembers(matches, x);
      if SomeContain(matches, line) {
        var i :| 0 <= i < |matches| && ContainsGroup(matches[i].containsAny, line);
        assert CommandMatches(c, matches[i]);
      } else {
        var i :| 0 <= i < |matches| && RegexGroup(matches[i].regexAny, line);
        assert CommandMatches(c, matches[i]);
      }
    } else {
      var i :| 0 <= i < |matches| && matches[i].processNames != [];
      c := Command(matches[i].processNames[0], "");
      MergeOrByKind(matches, c);
      assert CommandMatches(c, matches[i]);
    }
  }

  /** Tokens together with regular expressions are exact as long as both accept the same lines. */
  lemma TokensAndRegexes(matches: seq<CommandMatch>, c: Command)
    requires SingleKinds(matches) && NoNames(matches) && !NoTokens(matches) && !NoRegexes(matches)
    ensures ExactFor(matches, c) <==> (SomeContain(matches, c.line) <==> SomePattern(matches, c.line))
  {
    MergeOrByKind(matches, c);
    MatchInParts(c, MergeOr(matches));
    if SomeContain(matches, c.line) {
      var i :| 0 <= i < |matches| && ContainsGroup(matches[i].containsAny, c.line);
      assert CommandMatches(c, matches[i]);
    }
    if SomePattern(matches, c.line) {
      var i :| 0 <= i < |matches| && RegexGroup(matches[i].regexAny, c.line);
      assert CommandMatches(c, matches[i]);
    }
  }

  /** Main result: exclusions of a single kind each are merged without loss exactly when all are of
      the same kind, or no process names are among them and their tokens and regular expressions
      accept the same lines. */
  lemma MergeOrIsExactIff(matches: seq<CommandMatch>)
    requires matches != [] && SingleKinds(matches)
    ensures (forall c :: ExactFor(matches, c)) <==>
      || OneKind(matches)
      || (NoNames(matches) && forall line :: SomeContain(matches, line) <==> SomePattern(matches, line))
  {
    if OneKind(matches) {
      OneKindVariesInIt(matches);
      forall c ensures ExactFor(matches, c) {
        MergeOrIsExact(matches, c);
      }
    } else if !NoNames(matches) {
      var c := NamesMixBadly(matches);
      assert !ExactFor(matches, c);
    } else {
      forall c ensures ExactFor(matches, c) <==> (SomeContain(matches, c.line) <==> SomePattern(matches, c.line)) {
        TokensAndRegexes(matches, c);
      }
      if forall c :: ExactFor(matches, c) {
        forall line ensures SomeContain(matches, line) <==> SomePattern(matches, line) {
          assert ExactFor(matches, Command("", line));
        }
      }
    }
  }

  /** For instance, a filter by name and one by token: the merged filter asks for both. */
  lemma MergeOrOfTwoKinds()
    ensures var matches := [CommandMatch(["curl"], [], []), CommandMatch([], ["localhost"], [])];
      SingleKinds(matches) && !forall c :: ExactFor(matches, c)
  {
    var matches := [CommandMatch(["curl"], [], []), CommandMatch([], ["localhost"], [])];
    MergeOrIsExactIff(matches);
    assert !NoNames(matches) && !NoTokens(matches) by {
      assert matches[0].processNames != [] && matches[1].containsAny != [];
    }
  }
}
