/** Turning the plans of a Sigma rule into command rules. The selections of a plan, each already
    translated into a command match, are merged into one match: process names are intersected, and
    the conditions on the command line are combined into one regular expression of lookaheads. */
module CowrieSigma {
  import opened Wrappers
  import opened Sorting
  import opened SigmaPlans
  import opened SigmaMatching
  import opened Regexes
  import opened CommandMatching
  import opened Exclusions

  function Lower(s: string): string {
    seq(|s|, i requires 0 <= i < |s| => LowerChar(s[i]))
  }

  // ----- One regular expression for several groups -----

  function TokenOptions(values: seq<string>): seq<Regex> {
    if values == [] then []
    else
      var n := |values| - 1;
      TokenOptions(values[..n]) + if values[n] == "" then [] else [Text(Lower(values[n]))]
  }

  function PatternOptions(patterns: seq<Pattern>): seq<Regex> {
    if patterns == [] then []
    else
      var n := |patterns| - 1;
      PatternOptions(patterns[..n]) + if patterns[n].EmptyText? then [] else [RegexOf(patterns[n])]
  }

  function TokenGroups(groups: seq<seq<string>>): (r: seq<seq<Regex>>)
    ensures forall g :: 0 <= g < |r| ==> r[g] != []
  {
    if groups == [] then []
    else
      var n := |groups| - 1;
      TokenGroups(groups[..n]) + if TokenOptions(groups[n]) == [] then [] else [TokenOptions(groups[n])]
  }

  function PatternGroups(groups: seq<seq<Pattern>>): (r: seq<seq<Regex>>)
    ensures forall g :: 0 <= g < |r| ==> r[g] != []
  {
    if groups == [] then []
    else
      var n := |groups| - 1;
      PatternGroups(groups[..n]) + if PatternOptions(groups[n]) == [] then [] else [PatternOptions(groups[n])]
  }

  function Combined(tokens: seq<seq<string>>, patterns: seq<seq<Pattern>>): Pattern {
    var groups := TokenGroups(tokens) + PatternGroups(patterns);
    if groups == [] then EmptyText else Plain(AllAhead(groups))
  }

  method CombinedCommandLineRegex(tokens: seq<seq<string>>, patterns: seq<seq<Pattern>>) returns (p: Pattern)
    ensures p == Combined(tokens, patterns)
  {
    var parts: seq<seq<Regex>> := [];
    for i := 0 to |tokens|
      invariant parts == TokenGroups(tokens[..i])
    {
      assert tokens[..i + 1][..i] == tokens[..i];
      var options := TokenOptions(tokens[i]);
      if options != [] {
        parts := parts + [options];
      }
    }
    assert tokens[..|tokens|] == tokens;
    for i := 0 to |patterns|
      invariant parts == TokenGroups(tokens) + PatternGroups(patterns[..i])
    {
      assert patterns[..i + 1][..i] == patterns[..i];
      var options := PatternOptions(patterns[i]);
      if options != [] {
        parts := parts + [options];
      }
    }
    assert patterns[..|patterns|] == patterns;
    p := if parts == [] then EmptyText else Plain(AllAhead(parts));
  }

  // ----- Merging the matches of a conjunction -----

  /** The process names every match allows; `None` when no match restricts them. */
  function CommonNames(matches: seq<CommandMatch>): Option<seq<string>> {
    if matches == [] then None
    else
      var n := |matches| - 1;
      var before := CommonNames(matches[..n]);
      var names := matches[n].processNames;
      if names == [] then before
      else if before.None? then Some(names)
      else Some(Filter(before.value, x => x in names))
  }

  function ContainsGroups(matches: seq<CommandMatch>): seq<seq<string>> {
    if matches == [] then []
    else
      var n := |matches| - 1;
      ContainsGroups(matches[..n]) + if matches[n].containsAny == [] then [] else [matches[n].containsAny]
  }

  function RegexGroups(matches: seq<CommandMatch>): seq<seq<Pattern>> {
    if matches == [] then []
    else
      var n := |matches| - 1;
      RegexGroups(matches[..n]) + if matches[n].regexAny == [] then [] else [matches[n].regexAny]
  }

  function Merge(matches: seq<CommandMatch>): CommandMatch {
    var names, tokens, patterns := CommonNames(matches), ContainsGroups(matches), RegexGroups(matches);
    if names == Some([]) then NO_MATCH else Assembled(names, tokens, patterns)
  }

  function Assembled(names: Option<seq<string>>, tokens: seq<seq<string>>, patterns: seq<seq<Pattern>>): CommandMatch {
    CommandMatch(
      SortedSet(names.GetOr([])),
      if |tokens| == 1 && patterns == [] then SortedSet(tokens[0]) else [],
      if (|tokens| == 1 && patterns == []) || (tokens == [] && patterns == []) then []
      else [Combined(tokens, patterns)])
  }

  method MergeMatchPayloads(matches: seq<CommandMatch>) returns (merged: CommandMatch)
    ensures merged == Merge(matches)
  {
    var names: Option<seq<string>> := None;
    var tokens: seq<seq<string>> := [];
    var patterns: seq<seq<Pattern>> := [];
    for i := 0 to |matches|
      invariant names == CommonNames(matches[..i]) && names != Some([])
      invariant tokens == ContainsGroups(matches[..i])
      invariant patterns == RegexGroups(matches[..i])
    {
      assert matches[..i + 1][..i] == matches[..i];
      var m := matches[i];
      if m.processNames != [] {
        names := if names.None? then Some(m.processNames) else Some(Filter(names.value, x => x in m.processNames));
        if names.value == [] {
          NoCommonNames(matches, i + 1);
          return NO_MATCH;
        }
      }
      if m.containsAny != [] {
        tokens := tokens + [m.containsAny];
      }
      if m.regexAny != [] {
        patterns := patterns + [m.regexAny];
      }
    }
    assert matches[..|matches|] == matches;
    merged := Assemble(names, tokens, patterns);
  }

  method Assemble(names: Option<seq<string>>, tokens: seq<seq<string>>, patterns: seq<seq<Pattern>>)
    returns (merged: CommandMatch)
    ensures merged == Assembled(names, tokens, patterns)
  {
    var combined: seq<Pattern> := [];
    var contains: seq<string> := [];
    if |tokens| == 1 && patterns == [] {
      contains := SortedSet(tokens[0]);
    } else if tokens != [] || patterns != [] {
      var p := CombinedCommandLineRegex(tokens, patterns);
      combined := [p];
    }
    merged := CommandMatch(SortedSet(names.GetOr([])), contains, combined);
  }

  lemma {:induction false} NoCommonNames(matches: seq<CommandMatch>, k: nat)
    requires k <= |matches| && CommonNames(matches[..k]) == Some([])
    ensures CommonNames(matches) == Some([])
  {
    if k == |matches| {
      assert matches[..k] == matches;
    } else {
      var n := |matches| - 1;
      assert matches[..n][..k] == matches[..k];
      NoCommonNames(matches[..n], k);
    }
  }

  // ----- What the groups mean -----

  /** A group whose empty and non-empty values are not mixed, with tokens in lower case. Dropping
      the empty values of such a group does not change what it accepts. */
  predicate UniformTokens(tokens: seq<string>) {
    && (forall i :: 0 <= i < |tokens| ==> Lower(tokens[i]) == tokens[i])
    && ((forall i :: 0 <= i < |tokens| ==> tokens[i] == "") || (forall i :: 0 <= i < |tokens| ==> tokens[i] != ""))
  }

  predicate UniformPatterns(patterns: seq<Pattern>) {
    (forall i :: 0 <= i < |patterns| ==> patterns[i].EmptyText?) ||
    (forall i :: 0 <= i < |patterns| ==> !patterns[i].EmptyText?)
  }

  predicate Uniform(m: CommandMatch) {
    UniformTokens(m.containsAny) && UniformPatterns(m.regexAny)
  }

  lemma SearchEmpty(s: string)
    ensures Search(Epsilon, s) && Contains(s, "")
  {
    assert Position(s, 0) && MatchAt(false, Epsilon, s, 0, 0);
    assert MatchesFrom(Epsilon, s, 0);
    assert StartsWith(s[0..], "");
  }

  lemma {:induction false} TokenOptionsMeaning(tokens: seq<string>, s: string)
    requires forall i :: 0 <= i < |tokens| ==> Lower(tokens[i]) == tokens[i]
    ensures SomeFound(TokenOptions(tokens), s) <==> SomeTokenIn(tokens, s)
    ensures TokenOptions(tokens) == [] <==> AllEmpty(tokens)
  {
    if tokens != [] {
      var n := |tokens| - 1;
      TokenOptionsMeaning(tokens[..n], s);
      AllEmptyLast(tokens);
      SearchText(tokens[n], s);
      SomeTokenInLast(tokens, s);
      if tokens[n] != "" {
        SomeFoundLast(TokenOptions(tokens[..n]), TokenOptions(tokens), s);
      } else {
        assert TokenOptions(tokens) == TokenOptions(tokens[..n]);
      }
    }
  }

  predicate AllEmpty(tokens: seq<string>) {
    forall i :: 0 <= i < |tokens| ==> tokens[i] == ""
  }

  lemma AllEmptyLast(tokens: seq<string>)
    requires tokens != []
    ensures AllEmpty(tokens) <==> AllEmpty(tokens[..|tokens| - 1]) && tokens[|tokens| - 1] == ""
  {
    var n := |tokens| - 1;
    assert forall i :: 0 <= i < n ==> tokens[..n][i] == tokens[i];
  }

  ghost predicate SomeTokenIn(tokens: seq<string>, s: string) {
    exists i :: 0 <= i < |tokens| && tokens[i] != "" && Contains(s, tokens[i])
  }

  lemma SomeTokenInLast(tokens: seq<string>, s: string)
    requires tokens != []
    ensures var n := |tokens| - 1;
      SomeTokenIn(tokens, s) <==> SomeTokenIn(tokens[..n], s) || (tokens[n] != "" && Contains(s, tokens[n]))
  {
    var n := |tokens| - 1;
    if i :| 0 <= i < n && tokens[..n][i] != "" && Contains(s, tokens[..n][i]) {
      assert tokens[i] == tokens[..n][i];
    }
    if i :| 0 <= i < |tokens| && tokens[i] != "" && Contains(s, tokens[i]) && i < n {
      assert tokens[..n][i] == tokens[i];
    }
  }

  lemma SomeFoundLast(front: seq<Regex>, all: seq<Regex>, s: string)
    requires all != [] && front == all[..|all| - 1]
    ensures SomeFound(all, s) <==> SomeFound(front, s) || Search(all[|all| - 1], s)
  {
    if k :| 0 <= k < |front| && Search(front[k], s) {
      assert Search(all[k], s);
    }
  }

  lemma {:induction false} PatternOptionsMeaning(patterns: seq<Pattern>, s: string)
    ensures SomeFound(PatternOptions(patterns), s) <==>
            exists i :: 0 <= i < |patterns| && !patterns[i].EmptyText? && Search(RegexOf(patterns[i]), s)
    ensures PatternOptions(patterns) == [] <==> forall i :: 0 <= i < |patterns| ==> patterns[i].EmptyText?
  {
    if patterns != [] {
      var n := |patterns| - 1;
      PatternOptionsMeaning(patterns[..n], s);
      var front, all := PatternOptions(patterns[..n]), PatternOptions(patterns);
      if SomeFound(front, s) {
        var k :| 0 <= k < |front| && Search(front[k], s);
        assert Search(all[k], s);
      }
      if !patterns[n].EmptyText? && Search(RegexOf(patterns[n]), s) {
        assert Search(all[|front|], s);
      }
    }
  }

  lemma UniformTokensMeaning(tokens: seq<string>, s: string)
    requires tokens != [] && UniformTokens(tokens)
    ensures ContainsGroup(tokens, s) <==> TokenOptions(tokens) == [] || SomeFound(TokenOptions(tokens), s)
  {
    TokenOptionsMeaning(tokens, s);
    SearchEmpty(s);
    if tokens[0] == "" {
      assert Contains(s, tokens[0]);
    }
  }

  lemma UniformPatternsMeaning(patterns: seq<Pattern>, s: string)
    requires patterns != [] && UniformPatterns(patterns)
    ensures RegexGroup(patterns, s) <==> PatternOptions(patterns) == [] || SomeFound(PatternOptions(patterns), s)
  {
    PatternOptionsMeaning(patterns, s);
    SearchEmpty(s);
    if patterns[0].EmptyText? {
      assert Search(RegexOf(patterns[0]), s);
    }
  }

  /** Mixing the empty token with others is exactly what the combination gets wrong: the empty
      command line then satisfies the group but not what is left of it. */
  lemma TokenGroupIsExactIff(tokens: seq<string>)
    requires tokens != [] && forall i :: 0 <= i < |tokens| ==> Lower(tokens[i]) == tokens[i]
    ensures (forall s :: ContainsGroup(tokens, s) <==> TokenOptions(tokens) == [] || SomeFound(TokenOptions(tokens), s))
       <==> UniformTokens(tokens)
  {
    if UniformTokens(tokens) {
      forall s ensures ContainsGroup(tokens, s) <==> TokenOptions(tokens) == [] || SomeFound(TokenOptions(tokens), s) {
        UniformTokensMeaning(tokens, s);
      }
    } else {
      var i :| 0 <= i < |tokens| && tokens[i] == "";
      TokenOptionsMeaning(tokens, "");
      SearchEmpty("");
      assert Contains("", tokens[i]) && ContainsGroup(tokens, "");
    }
  }

  ghost predicate AllFound(groups: seq<seq<Regex>>, s: string) {
    forall g :: 0 <= g < |groups| ==> SomeFound(groups[g], s)
  }

  ghost predicate AllContain(groups: seq<seq<string>>, s: string) {
    forall g :: 0 <= g < |groups| ==> ContainsGroup(groups[g], s)
  }

  ghost predicate AllPatterns(groups: seq<seq<Pattern>>, s: string) {
    forall g :: 0 <= g < |groups| ==> RegexGroup(groups[g], s)
  }

  lemma AllFoundLast(front: seq<seq<Regex>>, last: seq<Regex>, s: string)
    ensures AllFound(front + [last], s) <==> AllFound(front, s) && SomeFound(last, s)
  {
    var all := front + [last];
    assert all[|front|] == last && forall g :: 0 <= g < |front| ==> all[g] == front[g];
  }

  lemma AllContainLast(front: seq<seq<string>>, last: seq<string>, s: string)
    ensures AllContain(front + [last], s) <==> AllContain(front, s) && ContainsGroup(last, s)
  {
    var all := front + [last];
    assert all[|front|] == last && forall g :: 0 <= g < |front| ==> all[g] == front[g];
  }

  lemma AllPatternsLast(front: seq<seq<Pattern>>, last: seq<Pattern>, s: string)
    ensures AllPatterns(front + [last], s) <==> AllPatterns(front, s) && RegexGroup(last, s)
  {
    var all := front + [last];
    assert all[|front|] == last && forall g :: 0 <= g < |front| ==> all[g] == front[g];
  }

  lemma {:induction false} TokenGroupsMeaning(groups: seq<seq<string>>, s: string)
    requires forall g :: 0 <= g < |groups| ==> groups[g] != [] && UniformTokens(groups[g])
    ensures AllFound(TokenGroups(groups), s) <==> AllContain(groups, s)
  {
    if groups != [] {
      var n := |groups| - 1;
      TokenGroupsMeaning(groups[..n], s);
      UniformTokensMeaning(groups[n], s);
      AllContainLast(groups[..n], groups[n], s);
      assert groups == groups[..n] + [groups[n]];
      AllFoundLast(TokenGroups(groups[..n]), TokenOptions(groups[n]), s);
      assert TokenGroups(groups) == if TokenOptions(groups[n]) == [] then TokenGroups(groups[..n])
                                    else TokenGroups(groups[..n]) + [TokenOptions(groups[n])];
    }
  }

  lemma {:induction false} PatternGroupsMeaning(groups: seq<seq<Pattern>>, s: string)
    requires forall g :: 0 <= g < |groups| ==> groups[g] != [] && UniformPatterns(groups[g])
    ensures AllFound(PatternGroups(groups), s) <==> AllPatterns(groups, s)
  {
    if groups != [] {
      var n := |groups| - 1;
      PatternGroupsMeaning(groups[..n], s);
      UniformPatternsMeaning(groups[n], s);
      AllPatternsLast(groups[..n], groups[n], s);
      assert groups == groups[..n] + [groups[n]];
      AllFoundLast(PatternGroups(groups[..n]), PatternOptions(groups[n]), s);
      assert PatternGroups(groups) == if PatternOptions(groups[n]) == [] then PatternGroups(groups[..n])
                                    else PatternGroups(groups[..n]) + [PatternOptions(groups[n])];
    }
  }

  // ----- Merging is exact -----

  ghost predicate AllMatch(c: Command, matches: seq<CommandMatch>) {
    forall i :: 0 <= i < |matches| ==> CommandMatches(c, matches[i])
  }

  predicate Mergeable(matches: seq<CommandMatch>) {
    forall i :: 0 <= i < |matches| ==> matches[i].HasCondition() && Uniform(matches[i])
  }

  lemma {:induction false} MatchesByKind(c: Command, matches: seq<CommandMatch>)
    requires Mergeable(matches)
    ensures AllMatch(c, matches) <==>
            (CommonNames(matches).Some? ==> c.processName in CommonNames(matches).value)
            && AllContain(ContainsGroups(matches), c.line) && AllPatterns(RegexGroups(matches), c.line)
  {
    if matches != [] {
      var n := |matches| - 1;
      var front, m := matches[..n], matches[n];
      MatchesByKind(c, front);
      AllMatchLast(c, front, m, matches);
      GroupsLast(matches);
      AllContainLast(ContainsGroups(front), m.containsAny, c.line);
      AllPatternsLast(RegexGroups(front), m.regexAny, c.line);
    }
  }

  lemma AllMatchLast(c: Command, front: seq<CommandMatch>, m: CommandMatch, matches: seq<CommandMatch>)
    requires matches == front + [m]
    ensures AllMatch(c, matches) <==> AllMatch(c, front) && CommandMatches(c, m)
  {
    assert forall i :: 0 <= i < |front| ==> matches[i] == front[i];
    assert matches[|front|] == m;
  }

  lemma GroupsLast(matches: seq<CommandMatch>)
    requires matches != []
    ensures var front, m := matches[..|matches| - 1], matches[|matches| - 1];
      && ContainsGroups(matches) ==
           (if m.containsAny == [] then ContainsGroups(front) else ContainsGroups(front) + [m.containsAny])
      && RegexGroups(matches) == (if m.regexAny == [] then RegexGroups(front) else RegexGroups(front) + [m.regexAny])
  {
  }

  lemma {:induction false} GroupsAreUniform(matches: seq<CommandMatch>)
    requires Mergeable(matches)
    ensures forall g :: 0 <= g < |ContainsGroups(matches)| ==>
              ContainsGroups(matches)[g] != [] && UniformTokens(ContainsGroups(matches)[g])
    ensures forall g :: 0 <= g < |RegexGroups(matches)| ==>
              RegexGroups(matches)[g] != [] && UniformPatterns(RegexGroups(matches)[g])
  {
    if matches != [] {
      GroupsAreUniform(matches[..|matches| - 1]);
      GroupsLast(matches);
    }
  }

  lemma AllFoundConcat(a: seq<seq<Regex>>, b: seq<seq<Regex>>, s: string)
    ensures AllFound(a + b, s) <==> AllFound(a, s) && AllFound(b, s)
  {
    assert forall g :: 0 <= g < |b| ==> (a + b)[|a| + g] == b[g];
    assert forall g :: 0 <= g < |a| ==> (a + b)[g] == a[g];
  }

  lemma FoundAheadIsFound(groups: seq<seq<Regex>>, s: string, a: nat)
    requires LineStart(s, a) && AllFoundAhead(groups, s, a)
    ensures AllFound(groups, s)
  {
    forall g | 0 <= g < |groups| ensures SomeFound(groups[g], s) {
      assert FoundAhead(groups[g], s, a);
      var q :| a <= q <= |s| && OneLine(s, a, q) && OptionAt(groups[g], s, q);
      var n :| 0 <= n < |groups[g]| && MatchesFrom(groups[g][n], s, q);
      assert Search(groups[g][n], s);
    }
  }

  /** What the combined expression accepts on one line, and what it never accepts on any text. */
  lemma CombinedMeaning(tokens: seq<seq<string>>, patterns: seq<seq<Pattern>>, s: string)
    requires forall g :: 0 <= g < |tokens| ==> tokens[g] != [] && UniformTokens(tokens[g])
    requires forall g :: 0 <= g < |patterns| ==> patterns[g] != [] && UniformPatterns(patterns[g])
    ensures Search(RegexOf(Combined(tokens, patterns)), s) ==> AllContain(tokens, s) && AllPatterns(patterns, s)
    ensures OneLine(s, 0, |s|) && AllContain(tokens, s) && AllPatterns(patterns, s) ==>
              Search(RegexOf(Combined(tokens, patterns)), s)
  {
    var groups := TokenGroups(tokens) + PatternGroups(patterns);
    TokenGroupsMeaning(tokens, s);
    PatternGroupsMeaning(patterns, s);
    AllFoundConcat(TokenGroups(tokens), PatternGroups(patterns), s);
    SearchEmpty(s);
    AllAheadSearch(groups, s);
    if a: nat :| LineStart(s, a) && AllFoundAhead(groups, s, a) {
      FoundAheadIsFound(groups, s, a);
    }
    if OneLine(s, 0, |s|) {
      AllAheadOnOneLine(groups, s);
    }
  }

  lemma MergedNames(matches: seq<CommandMatch>, c: Command)
    requires matches != [] && Mergeable(matches) && CommonNames(matches) != Some([])
    ensures Merge(matches).HasCondition()
    ensures ProcessMatches(c, Merge(matches)) <==>
            (CommonNames(matches).Some? ==> c.processName in CommonNames(matches).value)
  {
    var names, tokens := CommonNames(matches), ContainsGroups(matches);
    SomeKindIsPresent(matches);
    SortedSetOrdered(names.GetOr([]));
    if names.Some? {
      assert names.value[0] in SortedSet(names.value);
    }
    if |tokens| == 1 {
      SortedSetOrdered(tokens[0]);
      GroupsAreUniform(matches);
      assert tokens[0][0] in SortedSet(tokens[0]);
    }
  }

  lemma SortedGroup(group: seq<string>, line: string)
    requires group != []
    ensures SortedSet(group) != [] && (ContainsGroup(SortedSet(group), line) <==> AllContain([group], line))
  {
    SortedSetOrdered(group);
    SameTokens(group, SortedSet(group), line);
    assert group[0] in SortedSet(group);
    assert [group][0] == group;
  }

  lemma MergedShape(matches: seq<CommandMatch>, c: Command)
    requires matches != [] && Mergeable(matches) && CommonNames(matches) != Some([])
    ensures Merge(matches).HasCondition()
    ensures ProcessMatches(c, Merge(matches)) <==>
            (CommonNames(matches).Some? ==> c.processName in CommonNames(matches).value)
    ensures |ContainsGroups(matches)| == 1 && RegexGroups(matches) == [] ==>
              Merge(matches).regexAny == [] && Merge(matches).containsAny != []
              && (ContainsGroup(Merge(matches).containsAny, c.line) <==> AllContain(ContainsGroups(matches), c.line))
  {
    var tokens := ContainsGroups(matches);
    MergedNames(matches, c);
    if |tokens| == 1 && RegexGroups(matches) == [] {
      GroupsAreUniform(matches);
      SortedGroup(tokens[0], c.line);
      assert tokens == [tokens[0]];
    }
  }

  lemma {:induction false} SomeKindIsPresent(matches: seq<CommandMatch>)
    requires matches != [] && Mergeable(matches)
    ensures CommonNames(matches).Some? || ContainsGroups(matches) != [] || RegexGroups(matches) != []
  {
    var n := |matches| - 1;
    assert matches[n].HasCondition();
  }

  /** Main result: for non-empty tokens the merged match never accepts a command that one of the
      selections rejects, and on a command without newline it accepts exactly the commands that all
      selections accept. The empty payload comes out only when no command could match. */
  lemma MergeIsExact(matches: seq<CommandMatch>, c: Command)
    requires matches != [] && Mergeable(matches)
    ensures CommandMatches(c, Merge(matches)) ==> AllMatch(c, matches)
    ensures OneLine(c.line, 0, |c.line|) && AllMatch(c, matches) ==> CommandMatches(c, Merge(matches))
    ensures !Merge(matches).HasCondition() ==> !AllMatch(c, matches)
  {
    var names, tokens, patterns := CommonNames(matches), ContainsGroups(matches), RegexGroups(matches);
    MatchesByKind(c, matches);
    GroupsAreUniform(matches);
    if names != Some([]) {
      MergedShape(matches, c);
      CombinedMeaning(tokens, patterns, c.line);
      var m := Merge(matches);
      if |tokens| == 1 && patterns == [] {
      } else if tokens != [] || patterns != [] {
        assert m.regexAny == [Combined(tokens, patterns)] && m.containsAny == [];
        assert RegexGroup(m.regexAny, c.line) <==> Search(RegexOf(m.regexAny[0]), c.line);
      }
    }
  }

  /** Over several physical lines the merged match asks for more than the selections do: all groups
      must be found on the same line. */
  lemma MergeOnSeveralLines(matches: seq<CommandMatch>, c: Command)
    requires matches != [] && Mergeable(matches) && AllMatch(c, matches)
    requires |ContainsGroups(matches)| + |RegexGroups(matches)| > 1
    ensures var groups := TokenGroups(ContainsGroups(matches)) + PatternGroups(RegexGroups(matches));
            CommandMatches(c, Merge(matches)) <==>
            exists a: nat :: LineStart(c.line, a) && AllFoundAhead(groups, c.line, a)
  {
    MatchesByKind(c, matches);
    MergedShape(matches, c);
    MergedSearch(matches, c);
    CombinedOnSeveralLines(ContainsGroups(matches), RegexGroups(matches), c.line);
  }

  lemma MergedSearch(matches: seq<CommandMatch>, c: Command)
    requires CommonNames(matches) != Some([]) && |ContainsGroups(matches)| + |RegexGroups(matches)| > 1
    ensures var m := Merge(matches);
      m.containsAny == [] && m.regexAny != []
      && (RegexGroup(m.regexAny, c.line) <==>
          Search(RegexOf(Combined(ContainsGroups(matches), RegexGroups(matches))), c.line))
  {
    var m := Merge(matches);
    assert m.regexAny == [Combined(ContainsGroups(matches), RegexGroups(matches))];
    assert RegexGroup(m.regexAny, c.line) <==> Search(RegexOf(m.regexAny[0]), c.line);
  }

  lemma CombinedOnSeveralLines(tokens: seq<seq<string>>, patterns: seq<seq<Pattern>>, line: string)
    ensures var groups := TokenGroups(tokens) + PatternGroups(patterns);
      Search(RegexOf(Combined(tokens, patterns)), line) <==>
      exists a: nat :: LineStart(line, a) && AllFoundAhead(groups, line, a)
  {
    var groups := TokenGroups(tokens) + PatternGroups(patterns);
    AllAheadSearch(groups, line);
    SearchEmpty(line);
    assert groups == [] ==> LineStart(line, 0) && AllFoundAhead(groups, line, 0);
  }

  function Containing(t: string): CommandMatch {
    CommandMatch([], [t], [])
  }

  lemma TwoTokenSelections(t: string, u: string)
    ensures var matches := [Containing(t), Containing(u)];
      ContainsGroups(matches) == [[t], [u]] && RegexGroups(matches) == [] && CommonNames(matches) == None
  {
    var matches := [Containing(t), Containing(u)];
    assert matches[..1] == [matches[0]] && matches[..1][..0] == [];
    OneTokenSelection(t);
  }

  lemma OneTokenSelection(t: string)
    ensures var matches := [Containing(t)];
      ContainsGroups(matches) == [[t]] && RegexGroups(matches) == [] && CommonNames(matches) == None
  {
    var matches := [Containing(t)];
    var none: seq<CommandMatch> := [];
    assert matches[..0] == none;
    assert ContainsGroups(none) == [] && RegexGroups(none) == [] && CommonNames(none) == None;
  }

  lemma OneTokenOption(t: string)
    requires t != ""
    ensures TokenOptions([t]) == [Text(Lower(t))]
  {
    assert [t][..0] == [];
  }

  lemma TwoTokenGroups(t: string, u: string)
    requires t != "" && u != ""
    ensures TokenGroups([[t], [u]]) == [[Text(Lower(t))], [Text(Lower(u))]]
  {
    OneTokenOption(t);
    OneTokenOption(u);
    assert [[t], [u]][..1] == [[t]] && [[t]][..0] == [];
    assert TokenGroups([[t]]) == [[Text(Lower(t))]];
  }

  lemma ApartOnTwoLines(x: char, y: char, a: nat)
    requires x != '\n' && y != '\n' && x != y && LineStart([x, '\n', y], a)
    ensures !AllFoundAhead([[Text([x])], [Text([y])]], [x, '\n', y], a)
  {
    var line, groups := [x, '\n', y], [[Text([x])], [Text([y])]];
    assert line[1] == '\n' && (a == 0 || a == 2);
    assert forall q :: 0 <= q < 3 && OneLine(line, 0, q) ==> q <= 1;
    if AllFoundAhead(groups, line, a) {
      assert FoundAhead(groups[0], line, a) && FoundAhead(groups[1], line, a);
      OneLetterAhead(x, line, a);
      OneLetterAhead(y, line, a);
    }
  }

  lemma ContainsLetter(s: string, k: nat)
    requires k < |s|
    ensures ContainsGroup([[s[k]]], s)
  {
    assert StartsWith(s[k..], [s[k]]);
    assert Contains(s, [[s[k]]][0]);
  }

  /** For instance, two selections whose tokens stand on different lines of a command: each matches
      it, the merged match does not. */
  lemma MergeMissesSeveralLines(x: char, y: char)
    requires x != '\n' && y != '\n' && x != y && Lower([x]) == [x] && Lower([y]) == [y]
    ensures var c, matches := Command("sh", [x, '\n', y]), [Containing([x]), Containing([y])];
      Mergeable(matches) && AllMatch(c, matches) && !CommandMatches(c, Merge(matches))
  {
    var line, matches := [x, '\n', y], [Containing([x]), Containing([y])];
    ContainsLetter(line, 0);
    ContainsLetter(line, 2);
    TwoTokenSelections([x], [y]);
    TwoTokenGroups([x], [y]);
    var groups := TokenGroups(ContainsGroups(matches)) + PatternGroups(RegexGroups(matches));
    assert groups == [[Text([x])], [Text([y])]];
    forall a: nat | LineStart(line, a) ensures !AllFoundAhead(groups, line, a) {
      ApartOnTwoLines(x, y, a);
    }
    MergeOnSeveralLines(matches, Command("sh", line));
  }

  lemma OneLetterAhead(letter: char, s: string, a: nat)
    requires a <= |s| && FoundAhead([Text([letter])], s, a)
    ensures exists q :: a <= q < |s| && OneLine(s, a, q) && s[q] == letter
  {
    var q :| a <= q <= |s| && OneLine(s, a, q) && OptionAt([Text([letter])], s, q);
    var n :| 0 <= n < 1 && MatchesFrom([Text([letter])][n], s, q);
    var j :| Position(s, j) && q <= j && MatchAt(false, Text([letter]), s, q, j);
    TextMatches([letter], s, q, j);
  }

  // ----- From plans to rules -----

  /** The translations of those selections that can be translated. `convert` yields a match
      without condition for a selection that a command line cannot decide. */
  function Converted<S>(selections: seq<S>, convert: S -> CommandMatch): seq<CommandMatch> {
    if selections == [] then []
    else
      var n := |selections| - 1;
      Converted(selections[..n], convert) +
      if convert(selections[n]).HasCondition() then [convert(selections[n])] else []
  }

  function PlanMatches<S>(plan: Plan<S>, convert: S -> CommandMatch): Option<(CommandMatch, Option<CommandMatch>)> {
    var positives, negatives := Converted(plan.positives, convert), Converted(plan.negatives, convert);
    if |positives| != |plan.positives| || !Merge(positives).HasCondition() || |negatives| != |plan.negatives| then None
    else
      var exclude := if negatives == [] then NO_MATCH else MergeOr(negatives);
      Some((Merge(positives), if exclude.HasCondition() then Some(exclude) else None))
  }

  function PlanRules<S>(plan: Plan<S>, convert: S -> CommandMatch, techniques: seq<string>): seq<Rule> {
    match PlanMatches(plan, convert)
    case None => []
    case Some(m) => TechniqueRules(m.0, m.1, techniques)
  }

  /** One rule per technique, all with the same matches. */
  function TechniqueRules(
      positive: CommandMatch, exclude: Option<CommandMatch>, techniques: seq<string>): (r: seq<Rule>)
    ensures |r| == |techniques|
    ensures forall i :: 0 <= i < |r| ==> r[i] == Rule(techniques[i], positive, exclude)
  {
    if techniques == [] then []
    else
      var n := |techniques| - 1;
      TechniqueRules(positive, exclude, techniques[..n]) + [Rule(techniques[n], positive, exclude)]
  }

  function RulesOfPlans<S>(plans: seq<Plan<S>>, convert: S -> CommandMatch, techniques: seq<string>): seq<Rule> {
    if plans == [] then []
    else
      var n := |plans| - 1;
      RulesOfPlans(plans[..n], convert, techniques) + PlanRules(plans[n], convert, techniques)
  }

  method SigmaRuleToCommandRules<S>(
      condition: seq<string>, d: Detection<S>, convert: S -> CommandMatch, techniques: seq<string>)
    returns (generated: seq<Rule>)
    requires d.Valid()
    ensures KnownPlans(ConditionPlans(condition, d.names), d.names)
    ensures generated == RulesOfPlans(Render(ConditionPlans(condition, d.names), d), convert, techniques)
  {
    var plans := SigmaSelectionPlans(condition, d);
    generated := [];
    for i := 0 to |plans|
      invariant generated == RulesOfPlans(plans[..i], convert, techniques)
    {
      RulesOfPlansStep(plans, convert, techniques, i);
      var rules := RulesForPlan(plans[i], convert, techniques);
      generated := generated + rules;
    }
    assert plans[..|plans|] == plans;
  }

  lemma RulesOfPlansStep<S>(plans: seq<Plan<S>>, convert: S -> CommandMatch, techniques: seq<string>, i: nat)
    requires i < |plans|
    ensures RulesOfPlans(plans[..i + 1], convert, techniques)
         == RulesOfPlans(plans[..i], convert, techniques) + PlanRules(plans[i], convert, techniques)
  {
    assert plans[..i + 1][..i] == plans[..i];
  }

  /** A plan with a selection that cannot be translated, or that nothing can match, gives no rule. */
  method RulesForPlan<S>(plan: Plan<S>, convert: S -> CommandMatch, techniques: seq<string>) returns (rules: seq<Rule>)
    ensures rules == PlanRules(plan, convert, techniques)
    ensures !AllConvert(plan.positives, convert) || !AllConvert(plan.negatives, convert) ==> rules == []
    ensures rules == [] || |rules| == |techniques|
  {
    PlanShape(plan, convert);
    var positives := Converted(plan.positives, convert);
    if |positives| != |plan.positives| {
      return [];
    }
    var merged := MergeMatchPayloads(positives);
    if !merged.HasCondition() {
      return [];
    }
    var negatives := Converted(plan.negatives, convert);
    if |negatives| != |plan.negatives| {
      return [];
    }
    var exclude := if negatives == [] then NO_MATCH else MergeOr(negatives);
    rules := RulesForTechniques(merged, if exclude.HasCondition() then Some(exclude) else None, techniques);
  }

  method RulesForTechniques(positive: CommandMatch, exclude: Option<CommandMatch>, techniques: seq<string>)
    returns (rules: seq<Rule>)
    ensures rules == TechniqueRules(positive, exclude, techniques)
  {
    rules := [];
    for t := 0 to |techniques|
      invariant rules == TechniqueRules(positive, exclude, techniques[..t])
    {
      assert techniques[..t + 1][..t] == techniques[..t];
      rules := rules + [Rule(techniques[t], positive, exclude)];
    }
    assert techniques[..|techniques|] == techniques;
  }

  predicate AllConvert<S>(selections: seq<S>, convert: S -> CommandMatch) {
    forall i :: 0 <= i < |selections| ==> convert(selections[i]).HasCondition()
  }

  predicate UniformConversion<S>(selections: seq<S>, convert: S -> CommandMatch) {
    forall i :: 0 <= i < |selections| ==> Uniform(convert(selections[i]))
  }

  lemma {:induction false} ConvertedMeaning<S>(selections: seq<S>, convert: S -> CommandMatch)
    ensures |Converted(selections, convert)| <= |selections|
    ensures |Converted(selections, convert)| == |selections| <==> AllConvert(selections, convert)
    ensures AllConvert(selections, convert) ==>
              forall i :: 0 <= i < |selections| ==> Converted(selections, convert)[i] == convert(selections[i])
  {
    if selections != [] {
      ConvertedMeaning(selections[..|selections| - 1], convert);
    }
  }

  ghost predicate SomeRuleMatches(rules: seq<Rule>, c: Command) {
    exists i :: 0 <= i < |rules| && CommandMatchesRule(c, rules[i])
  }

  /** Whether a selection, as translated, applies to the command. */
  ghost function Applies<S>(convert: S -> CommandMatch, c: Command): S -> bool {
    s => CommandMatches(c, convert(s))
  }

  lemma AllConvertBoth<S>(a: seq<S>, b: seq<S>, convert: S -> CommandMatch)
    ensures AllConvert(a + b, convert) <==> AllConvert(a, convert) && AllConvert(b, convert)
  {
    var all := a + b;
    assert forall i :: 0 <= i < |b| ==> all[|a| + i] == b[i];
    assert forall i :: 0 <= i < |a| ==> all[i] == a[i];
  }

  /** The merged exclusions of the plan say of the command what the single ones say. */
  ghost predicate ExclusionsExact<S>(plan: Plan<S>, convert: S -> CommandMatch, c: Command) {
    plan.negatives == [] || ExactFor(Converted(plan.negatives, convert), c)
  }

  /** The rule of a plan. */
  ghost predicate PlanRuleMatches<S>(plan: Plan<S>, convert: S -> CommandMatch, c: Command)
    requires PlanMatches(plan, convert).Some?
  {
    var m := PlanMatches(plan, convert).value;
    CommandMatchesRule(c, Rule("", m.0, m.1))
  }

  /** The rule of a plan, on a command for which its exclusions are merged without loss: it never
      matches wrongly, on one line it always matches rightly, and it is missing only when the plan
      cannot hold. */
  lemma PlanMatchesMeaning<S>(plan: Plan<S>, convert: S -> CommandMatch, c: Command)
    requires plan.positives != [] && ExclusionsExact(plan, convert, c)
    requires UniformConversion(plan.positives, convert)
    ensures PlanMatches(plan, convert).Some? ==>
              && (PlanRuleMatches(plan, convert, c) ==> Holds(plan, Applies(convert, c)))
              && (OneLine(c.line, 0, |c.line|) && Holds(plan, Applies(convert, c)) ==>
                    PlanRuleMatches(plan, convert, c))
    ensures PlanMatches(plan, convert).None? && AllConvert(plan.positives + plan.negatives, convert) ==>
              !Holds(plan, Applies(convert, c))
  {
    PlanShape(plan, convert);
    AllConvertBoth(plan.positives, plan.negatives, convert);
    if AllConvert(plan.positives, convert) && AllConvert(plan.negatives, convert) {
      ConvertedMatch(plan.positives, convert, c);
      MergeIsExact(Converted(plan.positives, convert), c);
      ExclusionMeaning(plan, convert, c);
    }
  }

  /** Main result: for any exclusions, the rule of a plan is right on a command of one line exactly
      when the positive selections do not all apply to it or the exclusions are merged without loss
      for it. */
  lemma PlanRuleIsRightIff<S>(plan: Plan<S>, convert: S -> CommandMatch, c: Command)
    requires plan.positives != [] && UniformConversion(plan.positives, convert)
    requires PlanMatches(plan, convert).Some? && OneLine(c.line, 0, |c.line|)
    ensures (PlanRuleMatches(plan, convert, c) <==> Holds(plan, Applies(convert, c))) <==>
            (AllMatch(c, Converted(plan.positives, convert)) ==> ExclusionsExact(plan, convert, c))
  {
    PlanShape(plan, convert);
    ConvertedMatch(plan.positives, convert, c);
    MergeIsExact(Converted(plan.positives, convert), c);
    if plan.negatives != [] {
      ExclusionHasCondition(plan, convert);
      SomeExclusion(plan, convert, c);
    }
  }

  function Exclusion<S>(plan: Plan<S>, convert: S -> CommandMatch): CommandMatch {
    var negatives := Converted(plan.negatives, convert);
    if negatives == [] then NO_MATCH else MergeOr(negatives)
  }

  lemma PlanShape<S>(plan: Plan<S>, convert: S -> CommandMatch)
    ensures PlanMatches(plan, convert) ==
      var merged, exclude := Merge(Converted(plan.positives, convert)), Exclusion(plan, convert);
      if AllConvert(plan.positives, convert) && AllConvert(plan.negatives, convert) && merged.HasCondition()
      then Some((merged, if exclude.HasCondition() then Some(exclude) else None)) else None
  {
    ConvertedMeaning(plan.positives, convert);
    ConvertedMeaning(plan.negatives, convert);
  }

  lemma ExclusionHasCondition<S>(plan: Plan<S>, convert: S -> CommandMatch)
    requires AllConvert(plan.negatives, convert)
    ensures Exclusion(plan, convert).HasCondition() <==> plan.negatives != []
  {
    ConvertedMeaning(plan.negatives, convert);
    var matches := Converted(plan.negatives, convert);
    if plan.negatives != [] {
      assert matches[0] == convert(plan.negatives[0]) && matches[0].HasCondition();
      MergeOrHasCondition(matches, 0);
    }
  }

  lemma SomeExclusion<S>(plan: Plan<S>, convert: S -> CommandMatch, c: Command)
    requires AllConvert(plan.negatives, convert)
    ensures SomeMatch(c, Converted(plan.negatives, convert)) <==>
            exists i :: 0 <= i < |plan.negatives| && Applies(convert, c)(plan.negatives[i])
  {
    ConvertedMeaning(plan.negatives, convert);
    var matches := Converted(plan.negatives, convert);
    if i :| 0 <= i < |plan.negatives| && Applies(convert, c)(plan.negatives[i]) {
      assert CommandMatches(c, matches[i]);
    }
    if i :| 0 <= i < |matches| && CommandMatches(c, matches[i]) {
      assert Applies(convert, c)(plan.negatives[i]);
    }
  }

  /** Exclusions that are merged without loss exclude what one of them applies to. */
  lemma ExclusionMeaning<S>(plan: Plan<S>, convert: S -> CommandMatch, c: Command)
    requires AllConvert(plan.negatives, convert) && ExclusionsExact(plan, convert, c)
    ensures Exclusion(plan, convert).HasCondition() <==> plan.negatives != []
    ensures plan.negatives != [] ==>
      (CommandMatches(c, Exclusion(plan, convert)) <==>
       exists i :: 0 <= i < |plan.negatives| && Applies(convert, c)(plan.negatives[i]))
  {
    ExclusionHasCondition(plan, convert);
    SomeExclusion(plan, convert, c);
    ConvertedMeaning(plan.negatives, convert);
  }

  lemma ConvertedMatch<S>(selections: seq<S>, convert: S -> CommandMatch, c: Command)
    requires AllConvert(selections, convert)
    ensures var matches := Converted(selections, convert);
      && |matches| == |selections|
      && (AllMatch(c, matches) <==> forall i :: 0 <= i < |selections| ==> Applies(convert, c)(selections[i]))
      && (UniformConversion(selections, convert) ==> Mergeable(matches))
  {
    ConvertedMeaning(selections, convert);
  }

  /** The rules generated for the plan match the command. */
  ghost predicate PlanApplies<S>(plan: Plan<S>, convert: S -> CommandMatch, c: Command) {
    var m := PlanMatches(plan, convert);
    m.Some? && CommandMatchesRule(c, Rule("", m.value.0, m.value.1))
  }

  ghost predicate SomePlanApplies<S>(plans: seq<Plan<S>>, convert: S -> CommandMatch, c: Command) {
    exists i :: 0 <= i < |plans| && PlanApplies(plans[i], convert, c)
  }

  lemma PlanRulesMatch<S>(
      plan: Plan<S>, convert: S -> CommandMatch, techniques: seq<string>, rules: seq<Rule>, c: Command)
    requires techniques != [] && rules == PlanRules(plan, convert, techniques)
    ensures SomeRuleMatches(rules, c) <==> PlanApplies(plan, convert, c)
  {
    if PlanApplies(plan, convert, c) {
      assert CommandMatchesRule(c, rules[0]);
    }
  }

  lemma RulesOfPlansMatch<S>(
      plans: seq<Plan<S>>, convert: S -> CommandMatch, techniques: seq<string>, rules: seq<Rule>, c: Command)
    requires techniques != [] && rules == RulesOfPlans(plans, convert, techniques)
    ensures SomeRuleMatches(rules, c) <==> SomePlanApplies(plans, convert, c)
  {
    var parts := seq(|plans|, i requires 0 <= i < |plans| => PlanRules(plans[i], convert, techniques));
    RulesArePartsJoined(plans, convert, techniques, parts);
    SomePartMatches(parts, c);
    forall i | 0 <= i < |plans| ensures SomeRuleMatches(parts[i], c) <==> PlanApplies(plans[i], convert, c) {
      PlanRulesMatch(plans[i], convert, techniques, parts[i], c);
    }
  }

  function JoinedRules(parts: seq<seq<Rule>>): seq<Rule> {
    if parts == [] then [] else JoinedRules(parts[..|parts| - 1]) + parts[|parts| - 1]
  }

  lemma {:induction false} RulesArePartsJoined<S>(
      plans: seq<Plan<S>>, convert: S -> CommandMatch, techniques: seq<string>, parts: seq<seq<Rule>>)
    requires |parts| == |plans| && forall i :: 0 <= i < |plans| ==> parts[i] == PlanRules(plans[i], convert, techniques)
    ensures RulesOfPlans(plans, convert, techniques) == JoinedRules(parts)
  {
    if plans != [] {
      var n := |plans| - 1;
      RulesArePartsJoined(plans[..n], convert, techniques, parts[..n]);
    }
  }

  lemma {:induction false} SomePartMatches(parts: seq<seq<Rule>>, c: Command)
    ensures SomeRuleMatches(JoinedRules(parts), c) <==> exists i :: 0 <= i < |parts| && SomeRuleMatches(parts[i], c)
  {
    if parts != [] {
      var n := |parts| - 1;
      SomePartMatches(parts[..n], c);
      SomeRuleMatchesConcat(JoinedRules(parts[..n]), parts[n], JoinedRules(parts), c);
      assert forall i :: 0 <= i < n ==> parts[..n][i] == parts[i];
    }
  }

  lemma SomeRuleMatchesConcat(front: seq<Rule>, last: seq<Rule>, all: seq<Rule>, c: Command)
    requires all == front + last
    ensures SomeRuleMatches(all, c) <==> SomeRuleMatches(front, c) || SomeRuleMatches(last, c)
  {
    if j :| 0 <= j < |last| && CommandMatchesRule(c, last[j]) {
      assert CommandMatchesRule(c, all[|front| + j]);
    }
    if j :| 0 <= j < |front| && CommandMatchesRule(c, front[j]) {
      assert CommandMatchesRule(c, all[j]);
    }
  }

  /** The exclusions of every plan are merged without loss for the command. */
  ghost predicate AllExact<S>(plans: seq<Plan<S>>, convert: S -> CommandMatch, c: Command) {
    forall i :: 0 <= i < |plans| ==> ExclusionsExact(plans[i], convert, c)
  }

  ghost predicate ConditionIsExact<S>(
      condition: seq<string>, d: Detection<S>, convert: S -> CommandMatch, c: Command)
    requires d.Valid()
  {
    var plans := ConditionPlans(condition, d.names);
    KnownPlans(plans, d.names) ==> AllExact(Render(plans, d), convert, c)
  }

  /** The filters of every plan, as translated, vary in one kind only: single ones do, and any
      number that constrain one and the same kind. */
  predicate FiltersMerge<S>(plans: seq<Plan<S>>, convert: S -> CommandMatch) {
    forall i :: 0 <= i < |plans| ==> VaryInOneKind(Converted(plans[i].negatives, convert))
  }

  predicate ConditionFiltersMerge<S>(condition: seq<string>, d: Detection<S>, convert: S -> CommandMatch)
    requires d.Valid()
  {
    var plans := ConditionPlans(condition, d.names);
    KnownPlans(plans, d.names) ==> FiltersMerge(Render(plans, d), convert)
  }

  ghost predicate UniformDetection<S>(d: Detection<S>, convert: S -> CommandMatch)
    requires d.Valid()
  {
    forall n :: n in d.names ==> Uniform(convert(d.selection[n]))
  }

  ghost predicate FullyConvertible<S>(d: Detection<S>, convert: S -> CommandMatch)
    requires d.Valid()
  {
    forall n :: n in d.names ==> convert(d.selection[n]).HasCondition()
  }

  lemma RuleIffPlanFires<S>(plan: NamePlan, d: Detection<S>, convert: S -> CommandMatch, c: Command)
    requires d.Valid() && UniformDetection(d, convert)
    requires Known(plan.positives, d.names) && Known(plan.negatives, d.names)
    requires plan.positives != [] && ExclusionsExact(RenderPlan(plan, d), convert, c)
    ensures var applies := PlanApplies(RenderPlan(plan, d), convert, c);
      var fires := PlanFires(plan, Hits(d, Applies(convert, c)));
      && (applies ==> fires)
      && (fires && FullyConvertible(d, convert) && OneLine(c.line, 0, |c.line|) ==> applies)
  {
    var p := RenderPlan(plan, d);
    RenderedConverts(plan, d, convert);
    HoldsIffFires(plan, d, Applies(convert, c));
    PlanMatchesMeaning(p, convert, c);
  }

  lemma RenderedConverts<S>(plan: NamePlan, d: Detection<S>, convert: S -> CommandMatch)
    requires d.Valid() && Known(plan.positives, d.names) && Known(plan.negatives, d.names)
    ensures UniformDetection(d, convert) ==> UniformConversion(RenderPlan(plan, d).positives, convert)
    ensures FullyConvertible(d, convert) ==>
            AllConvert(RenderPlan(plan, d).positives + RenderPlan(plan, d).negatives, convert)
  {
    assert forall i :: 0 <= i < |plan.positives| ==> plan.positives[i] in plan.positives;
    assert forall i :: 0 <= i < |plan.negatives| ==> plan.negatives[i] in plan.negatives;
  }

  /** Main result: on a command of one line for which the exclusions of each plan are merged without
      loss, the rules generated for a supported condition fire exactly when the condition holds of
      the command. With selections that cannot be translated, or on several lines, they still never
      fire wrongly. */
  lemma CommandRulesMeanCondition<S>(
      condition: seq<string>, d: Detection<S>, convert: S -> CommandMatch, techniques: seq<string>, c: Command)
    requires d.Valid() && AllSupported(condition, d.names) && UniformDetection(d, convert)
    requires ConditionIsExact(condition, d, convert, c)
    requires techniques != []
    ensures KnownPlans(ConditionPlans(condition, d.names), d.names)
    ensures var rules := RulesOfPlans(Render(ConditionPlans(condition, d.names), d), convert, techniques);
      var holds := ConditionHolds(condition, d.names, Hits(d, Applies(convert, c)));
      && (SomeRuleMatches(rules, c) ==> holds)
      && (holds && FullyConvertible(d, convert) && OneLine(c.line, 0, |c.line|) ==> SomeRuleMatches(rules, c))
  {
    var plans, hits := ConditionPlans(condition, d.names), Hits(d, Applies(convert, c));
    ConditionPlansKnown(condition, d.names);
    PlansMeanCondition(condition, d.names, hits);
    var rendered := Render(plans, d);
    var rules := RulesOfPlans(rendered, convert, techniques);
    RulesOfPlansMatch(rendered, convert, techniques, rules, c);
    if SomeRuleMatches(rules, c) {
      var i :| 0 <= i < |rendered| && PlanApplies(rendered[i], convert, c);
      RuleIffPlanFires(plans[i], d, convert, c);
      assert PlanFires(plans[i], hits);
    }
    if i :| 0 <= i < |plans| && PlanFires(plans[i], hits) {
      RuleIffPlanFires(plans[i], d, convert, c);
      assert rendered[i] == RenderPlan(plans[i], d);
    }
  }

  /** In particular for every command when the filters of each plan vary in one kind. */
  lemma CommandRulesOfOneKind<S>(
      condition: seq<string>, d: Detection<S>, convert: S -> CommandMatch, techniques: seq<string>, c: Command)
    requires d.Valid() && AllSupported(condition, d.names) && UniformDetection(d, convert)
    requires ConditionFiltersMerge(condition, d, convert)
    requires techniques != []
    ensures KnownPlans(ConditionPlans(condition, d.names), d.names)
    ensures var rules := RulesOfPlans(Render(ConditionPlans(condition, d.names), d), convert, techniques);
      var holds := ConditionHolds(condition, d.names, Hits(d, Applies(convert, c)));
      && (SomeRuleMatches(rules, c) ==> holds)
      && (holds && FullyConvertible(d, convert) && OneLine(c.line, 0, |c.line|) ==> SomeRuleMatches(rules, c))
  {
    ConditionPlansKnown(condition, d.names);
    var plans := Render(ConditionPlans(condition, d.names), d);
    forall i | 0 <= i < |plans| ensures ExclusionsExact(plans[i], convert, c) {
      OneKindIsExact(plans[i], convert, c);
    }
    CommandRulesMeanCondition(condition, d, convert, techniques, c);
  }

  lemma OneKindIsExact<S>(plan: Plan<S>, convert: S -> CommandMatch, c: Command)
    requires VaryInOneKind(Converted(plan.negatives, convert))
    ensures ExclusionsExact(plan, convert, c)
  {
    var matches := Converted(plan.negatives, convert);
    if matches != [] {
      MergeOrIsExact(matches, c);
    } else {
      MergeOrOfNone(c);
    }
  }
}
