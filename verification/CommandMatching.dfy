/** Matching one shell command against a command rule. */
module CommandMatching {
  import opened Wrappers
  import opened SigmaPlans
  import opened Regexes

  /** A regular expression as rules write it: possibly the empty text, possibly with a leading
      `(?i)`. */
  datatype Pattern = EmptyText | Plain(regex: Regex) | CaseInsensitive(regex: Regex)

  function RegexOf(p: Pattern): Regex {
    match p
    case EmptyText => Epsilon
    case Plain(r) => r
    case CaseInsensitive(r) => IgnoreCase(r)
  }

  /** Values inside one condition are alternatives; an empty list is an absent condition. */
  datatype CommandMatch = CommandMatch(
    processNames: seq<string>,
    containsAny: seq<string>,
    regexAny: seq<Pattern>)
  {
    predicate HasCondition() {
      processNames != [] || containsAny != [] || regexAny != []
    }
  }

  const NO_MATCH := CommandMatch([], [], [])

  datatype Command = Command(processName: string, line: string)

  datatype Rule = Rule(technique: string, positive: CommandMatch, exclude: Option<CommandMatch>)

  ghost predicate ContainsGroup(tokens: seq<string>, line: string) {
    exists i :: 0 <= i < |tokens| && Contains(line, tokens[i])
  }

  ghost predicate RegexGroup(patterns: seq<Pattern>, line: string) {
    exists i :: 0 <= i < |patterns| && Search(RegexOf(patterns[i]), line)
  }

  ghost predicate ProcessMatches(c: Command, m: CommandMatch) {
    m.processNames == [] || c.processName in m.processNames
  }

  /** A match without any condition never applies. */
  ghost predicate CommandMatches(c: Command, m: CommandMatch) {
    && ProcessMatches(c, m)
    && (m.containsAny == [] || ContainsGroup(m.containsAny, c.line))
    && (m.regexAny == [] || RegexGroup(m.regexAny, c.line))
    && m.HasCondition()
  }

  ghost predicate CommandMatchesRule(c: Command, r: Rule) {
    CommandMatches(c, r.positive) && !(r.exclude.Some? && CommandMatches(c, r.exclude.value))
  }
}
