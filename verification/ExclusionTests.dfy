/** Exclusions of process names, tokens and plain texts in any combination: whether they are merged
    without loss can be decided by trying finitely many commands. */
module ExclusionTests {
  import opened Wrappers
  import opened Sorting
  import opened SigmaPlans
  import opened Regexes
  import opened CommandMatching
  import opened Exclusions

  // ----- Plain texts -----

  /** The text a regular expression stands for when it is nothing but escaped text. */
  function TextOf(r: Regex): (t: Option<string>)
    ensures t.Some? ==> r == Text(t.value)
  {
    match r
    case Epsilon => Some("")
    case Cat(Literal(c), rest) =>
      var t := TextOf(rest);
      if t.Some? then Some([c] + t.value) else None
    case _ => None
  }

  function TextsIn(patterns: seq<Pattern>): (r: seq<string>)
    ensures |r| == |patterns|
    ensures forall i :: 0 <= i < |r| ==> r[i] == TextOf(RegexOf(patterns[i])).GetOr("")
  {
    seq(|patterns|, i requires 0 <= i < |patterns| => TextOf(RegexOf(patterns[i])).GetOr(""))
  }

  predicate ArePlain(patterns: seq<Pattern>) {
    forall i :: 0 <= i < |patterns| ==> TextOf(RegexOf(patterns[i])).Some?
  }

  lemma TextsAreContained(patterns: seq<Pattern>, line: string)
    requires ArePlain(patterns)
    ensures RegexGroup(patterns, line) <==> ContainsGroup(TextsIn(patterns), line)
  {
    forall i | 0 <= i < |patterns|
      ensures Search(RegexOf(patterns[i]), line) <==> Contains(line, TextsIn(patterns)[i])
    {
      SearchText(TextsIn(patterns)[i], line);
    }
    if i :| 0 <= i < |patterns| && Search(RegexOf(patterns[i]), line) {
      assert Contains(line, TextsIn(patterns)[i]);
    }
    if i :| 0 <= i < |patterns| && Contains(line, TextsIn(patterns)[i]) {
      assert Search(RegexOf(patterns[i]), line);
    }
  }

  lemma ContainedFurther(line: string, middle: string, part: string)
    requires Contains(line, middle) && Contains(middle, part)
    ensures Contains(line, part)
  {
    var i :| 0 <= i <= |line| && StartsWith(line[i..], middle);
    var j :| 0 <= j <= |middle| && StartsWith(middle[j..], part);
    assert line[i..i + |middle|] == middle;
    assert line[i + j..][..|part|] == middle[j..][..|part|];
    assert StartsWith(line[i + j..], part);
  }

  lemma ContainsItself(s: string)
    ensures Contains(s, s) && Contains(s, "")
  {
    assert StartsWith(s[0..], s) && StartsWith(s[0..], "");
  }

  lemma ContainsHalves(p: string, x: char, q: string)
    ensures Contains(p + [x] + q, p) && Contains(p + [x] + q, q)
  {
    var line := p + [x] + q;
    assert StartsWith(line[0..], p);
    assert line[|p| + 1..] == q && StartsWith(line[|p| + 1..], q);
  }

  /** What does not hold the separator lies on one side of it. */
  lemma OnOneSide(p: string, x: char, q: string, part: string)
    requires Contains(p + [x] + q, part) && x !in part
    ensures Contains(p, part) || Contains(q, part)
  {
    var line := p + [x] + q;
    var i :| 0 <= i <= |line| && StartsWith(line[i..], part);
    assert line[i..i + |part|] == part;
    forall k | i <= k < i + |part| ensures line[k] in part {
      assert line[k] == part[k - i];
    }
    assert line[|p|] == x;
    if i + |part| <= |p| {
      assert p[i..][..|part|] == line[i..i + |part|];
      assert StartsWith(p[i..], part);
    } else {
      var k := i - (|p| + 1);
      assert q[k..][..|part|] == line[i..i + |part|];
      assert StartsWith(q[k..], part);
    }
  }

  // ----- Commands to try -----

  /** The match is about these names, tokens and plain texts only, none of which holds the
      separator. */
  ghost predicate IsAbout(m: CommandMatch, names: seq<string>, tokens: seq<string>, texts: seq<string>, x: char) {
    && (forall n :: n in m.processNames ==> n in names)
    && (forall t :: t in m.containsAny ==> t in tokens && x !in t)
    && ArePlain(m.regexAny) && forall t :: t in TextsIn(m.regexAny) ==> t in texts && x !in t
  }

  /** A command to try: its line has some token and some text, or nothing, on two sides of the
      separator. */
  function Try(name: string, token: string, x: char, text: string): Command {
    Command(name, token + [x] + text)
  }

  /** Of the command, the name is kept if it is listed, and the token and the text are in its line. */
  ghost predicate Simplifies(
      c: Command, name: string, token: string, text: string, names: seq<string>, stranger: string)
  {
    && name == (if c.processName in names then c.processName else stranger)
    && Contains(c.line, token) && Contains(c.line, text)
  }

  lemma GroupLifts(group: seq<string>, line: string, token: string, x: char, text: string)
    requires ContainsGroup(group, token + [x] + text) && forall t :: t in group ==> x !in t
    requires Contains(line, token) && Contains(line, text)
    ensures ContainsGroup(group, line)
  {
    var i :| 0 <= i < |group| && Contains(token + [x] + text, group[i]);
    assert group[i] in group;
    OnOneSide(token, x, text, group[i]);
    if Contains(token, group[i]) {
      ContainedFurther(line, token, group[i]);
    } else {
      ContainedFurther(line, text, group[i]);
    }
  }

  /** What accepts the simple command accepts the command. */
  lemma MatchLifts(
      c: Command, m: CommandMatch, name: string, token: string, text: string, names: seq<string>, tokens: seq<string>,
      texts: seq<string>, stranger: string, x: char)
    requires IsAbout(m, names, tokens, texts, x) && stranger !in names
    requires Simplifies(c, name, token, text, names, stranger) && CommandMatches(Try(name, token, x, text), m)
    ensures CommandMatches(c, m)
  {
    if m.containsAny != [] {
      GroupLifts(m.containsAny, c.line, token, x, text);
    }
    if m.regexAny != [] {
      TextsAreContained(m.regexAny, token + [x] + text);
      GroupLifts(TextsIn(m.regexAny), c.line, token, x, text);
      TextsAreContained(m.regexAny, c.line);
    }
  }

  lemma GroupLowers(group: seq<string>, line: string) returns (part: string)
    requires group == [] || ContainsGroup(group, line)
    ensures Contains(line, part) && (if group == [] then part == "" else part in group)
  {
    if group == [] {
      part := "";
      ContainsItself(line);
    } else {
      var i :| 0 <= i < |group| && Contains(line, group[i]);
      part := group[i];
    }
  }

  lemma PartIsContained(group: seq<string>, token: string, x: char, text: string)
    requires token in group || text in group
    ensures ContainsGroup(group, token + [x] + text)
  {
    ContainsHalves(token, x, text);
    var part := if token in group then token else text;
    var i :| 0 <= i < |group| && group[i] == part;
  }

  /** What accepts a command accepts a simple one. */
  lemma MatchLowers(
      c: Command, m: CommandMatch, names: seq<string>, tokens: seq<string>, texts: seq<string>, stranger: string,
      x: char)
    returns (name: string, token: string, text: string)
    requires IsAbout(m, names, tokens, texts, x) && CommandMatches(c, m)
    ensures Simplifies(c, name, token, text, names, stranger) && CommandMatches(Try(name, token, x, text), m)
    ensures token in [""] + tokens && text in [""] + texts
  {
    name := if c.processName in names then c.processName else stranger;
    TextsAreContained(m.regexAny, c.line);
    token := GroupLowers(m.containsAny, c.line);
    text := GroupLowers(TextsIn(m.regexAny), c.line);
    if m.containsAny != [] {
      PartIsContained(m.containsAny, token, x, text);
    }
    if m.regexAny != [] {
      PartIsContained(TextsIn(m.regexAny), token, x, text);
      TextsAreContained(m.regexAny, token + [x] + text);
    }
  }

  // ----- Main result -----

  function AllTextsOf(matches: seq<CommandMatch>): seq<string> {
    TextsIn(AllRegexes(matches))
  }

  /** The exclusions use no other regular expressions than plain texts, and the separator occurs in
      none of their tokens and texts. */
  predicate Testable(matches: seq<CommandMatch>, x: char) {
    && (forall i :: 0 <= i < |matches| ==> ArePlain(matches[i].regexAny))
    && (forall t :: t in AllTokens(matches) ==> x !in t) && forall t :: t in AllTextsOf(matches) ==> x !in t
  }

  predicate IsTest(matches: seq<CommandMatch>, stranger: string, name: string, token: string, text: string) {
    name in [stranger] + AllNames(matches) && token in [""] + AllTokens(matches) && text in [""] + AllTextsOf(matches)
  }

  /** The merged exclusion agrees with the single ones on all commands made of listed names, tokens
      and texts, and of none. */
  ghost predicate ExactOnTests(matches: seq<CommandMatch>, x: char, stranger: string) {
    forall name, token, text :: IsTest(matches, stranger, name, token, text) ==>
      ExactFor(matches, Try(name, token, x, text))
  }

  lemma {:induction false} ListedIn(matches: seq<CommandMatch>, i: nat, t: string)
    requires i < |matches|
    ensures t in matches[i].containsAny ==> t in AllTokens(matches)
    ensures t in matches[i].processNames ==> t in AllNames(matches)
    ensures forall p :: p in matches[i].regexAny ==> p in AllRegexes(matches)
  {
    if i < |matches| - 1 {
      ListedIn(matches[..|matches| - 1], i, t);
    }
  }

  lemma {:induction false} AllArePlain(matches: seq<CommandMatch>)
    requires forall i :: 0 <= i < |matches| ==> ArePlain(matches[i].regexAny)
    ensures ArePlain(AllRegexes(matches))
  {
    if matches != [] {
      AllArePlain(matches[..|matches| - 1]);
    }
  }

  lemma SingleIsAbout(matches: seq<CommandMatch>, i: nat, x: char)
    requires i < |matches| && Testable(matches, x)
    ensures IsAbout(matches[i], AllNames(matches), AllTokens(matches), AllTextsOf(matches), x)
  {
    var m := matches[i];
    forall t ensures t in m.containsAny ==> t in AllTokens(matches)
             ensures t in m.processNames ==> t in AllNames(matches) {
      ListedIn(matches, i, t);
    }
    forall t | t in TextsIn(m.regexAny) ensures t in AllTextsOf(matches) {
      var k :| 0 <= k < |m.regexAny| && TextsIn(m.regexAny)[k] == t;
      ListedIn(matches, i, "");
      assert m.regexAny[k] in AllRegexes(matches);
      var j :| 0 <= j < |AllRegexes(matches)| && AllRegexes(matches)[j] == m.regexAny[k];
      assert AllTextsOf(matches)[j] == t;
    }
  }

  lemma MergedIsAbout(matches: seq<CommandMatch>, x: char)
    requires Testable(matches, x)
    ensures IsAbout(MergeOr(matches), AllNames(matches), AllTokens(matches), AllTextsOf(matches), x)
  {
    SortedSetOrdered(AllNames(matches));
    SortedSetOrdered(AllTokens(matches));
    AllArePlain(matches);
  }

  lemma ExactFollows(matches: seq<CommandMatch>, x: char, stranger: string, c: Command)
    requires Testable(matches, x) && stranger !in AllNames(matches) && ExactOnTests(matches, x, stranger)
    ensures ExactFor(matches, c)
  {
    var names, tokens, texts := AllNames(matches), AllTokens(matches), AllTextsOf(matches);
    MergedIsAbout(matches, x);
    if CommandMatches(c, MergeOr(matches)) {
      var name, token, text := MatchLowers(c, MergeOr(matches), names, tokens, texts, stranger, x);
      assert IsTest(matches, stranger, name, token, text);
      assert ExactFor(matches, Try(name, token, x, text));
      var i :| 0 <= i < |matches| && CommandMatches(Try(name, token, x, text), matches[i]);
      SingleIsAbout(matches, i, x);
      MatchLifts(c, matches[i], name, token, text, names, tokens, texts, stranger, x);
    }
    if i :| 0 <= i < |matches| && CommandMatches(c, matches[i]) {
      SingleIsAbout(matches, i, x);
      var name, token, text := MatchLowers(c, matches[i], names, tokens, texts, stranger, x);
      assert IsTest(matches, stranger, name, token, text);
      assert ExactFor(matches, Try(name, token, x, text));
      MatchLifts(c, MergeOr(matches), name, token, text, names, tokens, texts, stranger, x);
    }
  }

  /** Main result: exclusions of names, tokens and plain texts in any combination are merged without
      loss exactly when they are for the finitely many commands to try. */
  lemma MergeOrIsExactIffOnTests(matches: seq<CommandMatch>, x: char, stranger: string)
    requires Testable(matches, x) && stranger !in AllNames(matches)
    ensures (forall c :: ExactFor(matches, c)) <==> ExactOnTests(matches, x, stranger)
  {
    if ExactOnTests(matches, x, stranger) {
      forall c ensures ExactFor(matches, c) {
        ExactFollows(matches, x, stranger, c);
      }
    }
  }
}
