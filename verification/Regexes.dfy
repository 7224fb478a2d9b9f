/** Regular expressions as trees, with the positional matching that Python's `re.search` decides:
    whether some match exists. */
module Regexes {
  import opened SigmaPlans

  datatype Regex =
    | Epsilon
    | Literal(c: char)
    | AnyChar                       // `.`, which does not match a newline
    | OneOf(cs: set<char>)
    | Cat(first: Regex, second: Regex)
    | Alt(left: Regex, right: Regex)
    | Star(body: Regex)
    | Begin                         // `^`
    | End                           // `$`, also just before a final newline
    | Lookahead(body: Regex)        // `(?=...)`
    | IgnoreCase(body: Regex)       // `(?i:...)`, or a leading `(?i)`

  function LowerChar(c: char): char {
    if 'A' <= c <= 'Z' then c + 32 as char else c
  }

  predicate SameChar(ignoreCase: bool, a: char, b: char) {
    a == b || (ignoreCase && LowerChar(a) == LowerChar(b))
  }

  predicate Position(s: string, k: int) {
    0 <= k <= |s|
  }

  /** `r` can match `s` from position `i` up to position `j`. */
  ghost predicate MatchAt(ignoreCase: bool, r: Regex, s: string, i: nat, j: nat)
    requires i <= j <= |s|
    decreases r, j - i
  {
    match r
    case Epsilon => i == j
    case Literal(c) => j == i + 1 && SameChar(ignoreCase, c, s[i])
    case AnyChar => j == i + 1 && s[i] != '\n'
    case OneOf(cs) => j == i + 1 && exists c :: c in cs && SameChar(ignoreCase, c, s[i])
    case Cat(a, b) =>
      exists k {:trigger Position(s, k)} :: Position(s, k) && i <= k <= j
        && MatchAt(ignoreCase, a, s, i, k) && MatchAt(ignoreCase, b, s, k, j)
    case Alt(a, b) => MatchAt(ignoreCase, a, s, i, j) || MatchAt(ignoreCase, b, s, i, j)
    case Star(a) =>
      i == j ||
      (exists k {:trigger Position(s, k)} :: Position(s, k) && i < k <= j
         && MatchAt(ignoreCase, a, s, i, k) && MatchAt(ignoreCase, r, s, k, j))
    case Begin => i == j == 0
    case End => i == j && (i == |s| || (i == |s| - 1 && s[i] == '\n'))
    case Lookahead(a) => i == j && exists k {:trigger Position(s, k)} ::
        Position(s, k) && i <= k && MatchAt(ignoreCase, a, s, i, k)
    case IgnoreCase(a) => MatchAt(true, a, s, i, j)
  }

  ghost predicate MatchesFrom(r: Regex, s: string, i: nat)
    requires i <= |s|
  {
    exists j {:trigger Position(s, j)} :: Position(s, j) && i <= j && MatchAt(false, r, s, i, j)
  }

  ghost predicate Search(r: Regex, s: string) {
    exists i :: 0 <= i <= |s| && MatchesFrom(r, s, i)
  }

  // ----- Literal text: `re.escape` -----

  function Text(t: string): Regex {
    if t == "" then Epsilon else Cat(Literal(t[0]), Text(t[1..]))
  }

  lemma {:induction false} TextMatches(t: string, s: string, i: nat, j: nat)
    requires i <= j <= |s|
    ensures MatchAt(false, Text(t), s, i, j) <==> s[i..j] == t
  {
    if t != "" {
      if i < j {
        assert Position(s, i + 1);
        TextMatches(t[1..], s, i + 1, j);
        assert s[i..j] == [s[i]] + s[i + 1..j] && t == [t[0]] + t[1..];
        assert MatchAt(false, Literal(t[0]), s, i, i + 1) <==> s[i] == t[0];
      }
    }
  }

  lemma SearchText(t: string, s: string)
    ensures Search(Text(t), s) <==> Contains(s, t)
  {
    if Search(Text(t), s) {
      var i :| 0 <= i <= |s| && MatchesFrom(Text(t), s, i);
      var j :| Position(s, j) && i <= j && MatchAt(false, Text(t), s, i, j);
      TextMatches(t, s, i, j);
      assert s[i..][..|t|] == s[i..j];
      assert StartsWith(s[i..], t);
    }
    if Contains(s, t) {
      var i :| 0 <= i <= |s| && StartsWith(s[i..], t);
      assert s[i..i + |t|] == t;
      TextMatches(t, s, i, i + |t|);
      assert Position(s, i + |t|);
      assert MatchesFrom(Text(t), s, i);
    }
  }

  /** The same character, or the upper and the lower case of the same letter. */
  predicate SameLetter(a: char, b: char) {
    || a == b
    || ('A' <= a <= 'Z' && b as int == a as int + 32)
    || ('A' <= b <= 'Z' && a as int == b as int + 32)
  }

  lemma {:induction false} IgnoredCaseMatches(t: string, s: string, i: nat, j: nat)
    requires i <= j <= |s|
    ensures MatchAt(true, Text(t), s, i, j) <==>
            j - i == |t| && forall k :: 0 <= k < |t| ==> SameLetter(t[k], s[i + k])
  {
    if t != "" && i < j {
      assert Position(s, i + 1);
      IgnoredCaseMatches(t[1..], s, i + 1, j);
      assert MatchAt(true, Literal(t[0]), s, i, i + 1) <==> SameLetter(t[0], s[i]);
      if j - i == |t| {
        assert forall k :: 0 <= k < |t[1..]| ==> t[1..][k] == t[k + 1];
        assert forall k :: 0 < k < |t| ==> t[k] == t[1..][k - 1];
      }
    }
  }

  // ----- `.*`, alternatives and conjunctions of lookaheads -----

  predicate OneLine(s: string, i: nat, j: nat)
    requires i <= j <= |s|
  {
    forall k :: i <= k < j ==> s[k] != '\n'
  }

  lemma {:induction false} AnythingMatches(s: string, i: nat, j: nat)
    requires i <= j <= |s|
    ensures MatchAt(false, Star(AnyChar), s, i, j) <==> OneLine(s, i, j)
    decreases j - i
  {
    if i < j {
      assert Position(s, i + 1);
      AnythingMatches(s, i + 1, j);
      assert MatchAt(false, AnyChar, s, i, i + 1) <==> s[i] != '\n';
    }
  }

  function AnyOf(options: seq<Regex>): Regex
    requires options != []
  {
    if |options| == 1 then options[0] else Alt(options[0], AnyOf(options[1..]))
  }

  ghost predicate OptionAt(options: seq<Regex>, s: string, i: nat)
    requires i <= |s|
  {
    exists n :: 0 <= n < |options| && MatchesFrom(options[n], s, i)
  }

  lemma {:induction false} AnyOfMatches(options: seq<Regex>, s: string, i: nat)
    requires options != [] && i <= |s|
    ensures MatchesFrom(AnyOf(options), s, i) <==> OptionAt(options, s, i)
  {
    if |options| > 1 {
      var rest := options[1..];
      assert AnyOf(options) == Alt(options[0], AnyOf(rest));
      AnyOfMatches(rest, s, i);
      if MatchesFrom(AnyOf(options), s, i) {
        var j :| Position(s, j) && i <= j && MatchAt(false, AnyOf(options), s, i, j);
        if MatchAt(false, options[0], s, i, j) {
          assert MatchesFrom(options[0], s, i);
        } else {
          assert MatchesFrom(AnyOf(rest), s, i);
          var n :| 0 <= n < |rest| && MatchesFrom(rest[n], s, i);
          assert MatchesFrom(options[n + 1], s, i);
        }
      }
      if OptionAt(options, s, i) {
        var n :| 0 <= n < |options| && MatchesFrom(options[n], s, i);
        if n > 0 {
          assert MatchesFrom(rest[n - 1], s, i);
          var j :| Position(s, j) && i <= j && MatchAt(false, AnyOf(rest), s, i, j);
          assert MatchAt(false, AnyOf(options), s, i, j);
        } else {
          var j :| Position(s, j) && i <= j && MatchAt(false, options[0], s, i, j);
          assert MatchAt(false, AnyOf(options), s, i, j);
        }
      }
    }
  }

  /** `(?=.*(?:a|b|...))` */
  function Ahead(options: seq<Regex>): Regex
    requires options != []
  {
    Lookahead(Cat(Star(AnyChar), AnyOf(options)))
  }

  /** Some option matches further along, with no newline in between. */
  ghost predicate FoundAhead(options: seq<Regex>, s: string, i: nat)
    requires i <= |s|
  {
    exists q :: i <= q <= |s| && OneLine(s, i, q) && OptionAt(options, s, q)
  }

  lemma LookaheadMatches(body: Regex, s: string, i: nat)
    requires i <= |s|
    ensures MatchAt(false, Lookahead(body), s, i, i) <==>
            exists k {:trigger Position(s, k)} :: Position(s, k) && i <= k && MatchAt(false, body, s, i, k)
  {
  }

  lemma CatMatches(first: Regex, second: Regex, s: string, i: nat, j: nat)
    requires i <= j <= |s|
    ensures MatchAt(false, Cat(first, second), s, i, j) <==>
            exists k {:trigger Position(s, k)} :: Position(s, k) && i <= k <= j
              && MatchAt(false, first, s, i, k) && MatchAt(false, second, s, k, j)
  {
  }

  lemma AheadMatches(options: seq<Regex>, s: string, i: nat)
    requires options != [] && i <= |s|
    ensures MatchAt(false, Ahead(options), s, i, i) <==> FoundAhead(options, s, i)
  {
    var body := Cat(Star(AnyChar), AnyOf(options));
    LookaheadMatches(body, s, i);
    if MatchAt(false, Ahead(options), s, i, i) {
      var k :| Position(s, k) && i <= k && MatchAt(false, body, s, i, k);
      CatMatches(Star(AnyChar), AnyOf(options), s, i, k);
      var q :| Position(s, q) && i <= q <= k && MatchAt(false, Star(AnyChar), s, i, q)
          && MatchAt(false, AnyOf(options), s, q, k);
      AnythingMatches(s, i, q);
      assert MatchesFrom(AnyOf(options), s, q);
      AnyOfMatches(options, s, q);
    }
    if FoundAhead(options, s, i) {
      var q :| i <= q <= |s| && OneLine(s, i, q) && OptionAt(options, s, q);
      AnythingMatches(s, i, q);
      AnyOfMatches(options, s, q);
      var k :| Position(s, k) && q <= k && MatchAt(false, AnyOf(options), s, q, k);
      CatMatches(Star(AnyChar), AnyOf(options), s, i, k);
      assert Position(s, q);
      assert MatchAt(false, body, s, i, k);
    }
  }

  function AllAhead(groups: seq<seq<Regex>>): Regex
    requires forall g :: 0 <= g < |groups| ==> groups[g] != []
  {
    if groups == [] then Epsilon else Cat(Ahead(groups[0]), AllAhead(groups[1..]))
  }

  ghost predicate AllFoundAhead(groups: seq<seq<Regex>>, s: string, i: nat)
    requires i <= |s|
  {
    forall g :: 0 <= g < |groups| ==> FoundAhead(groups[g], s, i)
  }

  lemma {:induction false} AllAheadMatches(groups: seq<seq<Regex>>, s: string, i: nat, j: nat)
    requires i <= j <= |s|
    requires forall g :: 0 <= g < |groups| ==> groups[g] != []
    ensures MatchAt(false, AllAhead(groups), s, i, j) <==>
            i == j && AllFoundAhead(groups, s, i)
  {
    if groups != [] {
      var rest := groups[1..];
      AllAheadMatches(rest, s, i, j);
      AheadMatches(groups[0], s, i);
      assert Position(s, i);
      assert MatchAt(false, AllAhead(groups), s, i, j) <==>
             MatchAt(false, Ahead(groups[0]), s, i, i) && MatchAt(false, AllAhead(rest), s, i, j) by {
        assert forall k :: i <= k <= j && k != i ==> !MatchAt(false, Ahead(groups[0]), s, i, k);
      }
      assert AllFoundAhead(groups, s, i) <==> FoundAhead(groups[0], s, i) && AllFoundAhead(rest, s, i) by {
        assert forall g :: 0 <= g < |rest| ==> rest[g] == groups[g + 1];
        assert forall g :: 1 <= g < |groups| ==> groups[g] == rest[g - 1];
      }
    }
  }

  // ----- Main results -----

  predicate LineStart(s: string, a: nat) {
    a <= |s| && (a == 0 || s[a - 1] == '\n')
  }

  /** Where the physical line of position `p` starts. */
  function StartOfLine(s: string, p: nat): (a: nat)
    requires p <= |s|
    ensures a <= p && LineStart(s, a) && OneLine(s, a, p)
  {
    if p == 0 || s[p - 1] == '\n' then p else StartOfLine(s, p - 1)
  }

  /** The conjunction of lookaheads is found exactly when on one physical line every group has a
      match that starts there. */
  lemma AllAheadSearch(groups: seq<seq<Regex>>, s: string)
    requires forall g :: 0 <= g < |groups| ==> groups[g] != []
    ensures Search(AllAhead(groups), s) <==>
            exists a: nat :: LineStart(s, a) && AllFoundAhead(groups, s, a)
  {
    if Search(AllAhead(groups), s) {
      var p :| 0 <= p <= |s| && MatchesFrom(AllAhead(groups), s, p);
      var j :| Position(s, j) && p <= j && MatchAt(false, AllAhead(groups), s, p, j);
      AllAheadMatches(groups, s, p, j);
      var a := StartOfLine(s, p);
      forall g | 0 <= g < |groups| ensures FoundAhead(groups[g], s, a) {
        assert FoundAhead(groups[g], s, p);
        var q :| p <= q <= |s| && OneLine(s, p, q) && OptionAt(groups[g], s, q);
        assert OneLine(s, a, q);
      }
      assert LineStart(s, a) && AllFoundAhead(groups, s, a);
    }
    if a: nat :| LineStart(s, a) && AllFoundAhead(groups, s, a) {
      AllAheadMatches(groups, s, a, a);
      assert Position(s, a) && MatchAt(false, AllAhead(groups), s, a, a);
      assert MatchesFrom(AllAhead(groups), s, a);
    }
  }

  ghost predicate SomeFound(options: seq<Regex>, s: string) {
    exists n :: 0 <= n < |options| && Search(options[n], s)
  }

  lemma FoundAheadFromStart(options: seq<Regex>, s: string)
    requires OneLine(s, 0, |s|)
    ensures FoundAhead(options, s, 0) <==> SomeFound(options, s)
  {
    if FoundAhead(options, s, 0) {
      var q :| 0 <= q <= |s| && OneLine(s, 0, q) && OptionAt(options, s, q);
      var n :| 0 <= n < |options| && MatchesFrom(options[n], s, q);
      assert Search(options[n], s);
    }
    if n :| 0 <= n < |options| && Search(options[n], s) {
      var q :| 0 <= q <= |s| && MatchesFrom(options[n], s, q);
      assert OneLine(s, 0, q) && OptionAt(options, s, q);
    }
  }

  /** On a single line, that is when each group is found somewhere. */
  lemma AllAheadOnOneLine(groups: seq<seq<Regex>>, s: string)
    requires forall g :: 0 <= g < |groups| ==> groups[g] != []
    requires OneLine(s, 0, |s|)
    ensures Search(AllAhead(groups), s) <==> forall g :: 0 <= g < |groups| ==> SomeFound(groups[g], s)
  {
    AllAheadSearch(groups, s);
    forall g | 0 <= g < |groups| ensures FoundAhead(groups[g], s, 0) <==> SomeFound(groups[g], s) {
      FoundAheadFromStart(groups[g], s);
    }
    assert LineStart(s, 0);
    if a: nat :| LineStart(s, a) && AllFoundAhead(groups, s, a) {
      assert a == 0;
    }
    if forall g :: 0 <= g < |groups| ==> SomeFound(groups[g], s) {
      assert AllFoundAhead(groups, s, 0);
    }
  }
}
