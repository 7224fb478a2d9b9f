/** The texts of the route log, and how the orchestrator reads asset ids back out of them to decide
    what to start. */
module RouteLog {
  import opened Wrappers

  const EXPOSES_WORD := " exposes "
  const ROUTES_WORD := " routes "

  function Exposing(bindingId: string, assetId: string): string {
    "binding " + bindingId + EXPOSES_WORD + assetId
  }

  function Routing(bindingId: string, assetId: string): string {
    "binding " + bindingId + ROUTES_WORD + assetId
  }

  predicate At(s: string, word: string, i: nat) {
    i + |word| <= |s| && s[i..i + |word|] == word
  }

  predicate Occurs(s: string, word: string) {
    exists i :: 0 <= i <= |s| && At(s, word, i)
  }

  /** The last place below `n` at which the word stands. */
  function LastAt(s: string, word: string, n: nat): (r: Option<nat>)
    ensures r.Some? ==> r.value < n && At(s, word, r.value) && forall i :: r.value < i < n ==> !At(s, word, i)
    ensures r.None? ==> forall i :: 0 <= i < n ==> !At(s, word, i)
  {
    if n == 0 then None else if At(s, word, n - 1) then Some(n - 1) else LastAt(s, word, n - 1)
  }

  /** What stands behind the last occurrence of the word. */
  function Behind(s: string, word: string): Option<string> {
    match LastAt(s, word, |s| + 1)
    case None => None
    case Some(i) => Some(s[i + |word|..])
  }

  /** The asset an update names, as the orchestrator reads it. */
  function AssetNamed(update: string): Option<string> {
    if Occurs(update, EXPOSES_WORD) then Behind(update, EXPOSES_WORD)
    else if Occurs(update, ROUTES_WORD) then Behind(update, ROUTES_WORD)
    else None
  }

  method NewAssetIds(updates: seq<string>) returns (ids: seq<string>)
    ensures ids == AllNamed(updates)
  {
    ids := [];
    for i := 0 to |updates|
      invariant ids == AllNamed(updates[..i])
    {
      assert updates[..i + 1][..i] == updates[..i];
      var named := AssetNamed(updates[i]);
      if named.Some? {
        ids := ids + [named.value];
      }
    }
    assert updates[..|updates|] == updates;
  }

  function AllNamed(updates: seq<string>): seq<string> {
    if updates == [] then []
    else
      var n := |updates| - 1;
      var named := AssetNamed(updates[n]);
      AllNamed(updates[..n]) + if named.Some? then [named.value] else []
  }

  /** A word between blanks that has no blank inside. */
  predicate BetweenBlanks(word: string) {
    |word| >= 2 && word[0] == ' ' && word[|word| - 1] == ' ' && forall i :: 0 < i < |word| - 1 ==> word[i] != ' '
  }

  lemma SliceOfTail(s: string, k: nat, j: nat, n: nat)
    requires k + j + n <= |s|
    ensures s[k..][j..j + n] == s[k + j..k + j + n]
  {
  }

  /** Behind the word, further occurrences are those in the rest with the word's last blank. */
  lemma LaterOccurrence(prefix: string, word: string, rest: string, i: nat)
    requires BetweenBlanks(word) && |prefix| < i
    ensures At(prefix + word + rest, word, i) <==>
            i >= |prefix| + |word| - 1 && At(" " + rest, word, i - |prefix| - (|word| - 1))
  {
    var s, k := prefix + word + rest, |prefix| + |word| - 1;
    if i < k {
      assert s[i] == word[i - |prefix|];
      if i + |word| <= |s| {
        assert s[i..i + |word|][0] == s[i];
      }
    } else {
      assert s[k..] == " " + rest;
      var j := i - k;
      if i + |word| <= |s| {
        SliceOfTail(s, k, j, |word|);
      }
    }
  }

  /** The last occurrence is the given one exactly when the rest has none, counting the blank. */
  lemma BehindIsRest(prefix: string, word: string, rest: string)
    requires BetweenBlanks(word)
    ensures Occurs(prefix + word + rest, word)
    ensures Behind(prefix + word + rest, word) == Some(rest) <==> !Occurs(" " + rest, word)
  {
    var s, p := prefix + word + rest, |prefix|;
    assert s[p..p + |word|] == word && s[p + |word|..] == rest;
    assert At(s, word, p);
    var last := LastAt(s, word, |s| + 1);
    assert last.Some? && last.value >= p;
    if last.value > p {
      LaterOccurrence(prefix, word, rest, last.value);
      assert At(" " + rest, word, last.value - p - (|word| - 1));
    }
    if Occurs(" " + rest, word) {
      var j :| 0 <= j <= |" " + rest| && At(" " + rest, word, j);
      LaterOccurrence(prefix, word, rest, p + |word| - 1 + j);
    }
  }

  lemma WordsAreBetweenBlanks()
    ensures BetweenBlanks(EXPOSES_WORD) && BetweenBlanks(ROUTES_WORD)
  {
  }

  /** The id of an exposed asset is read back exactly when it does not itself say that something
      exposes something. */
  lemma ExposedIsReadBack(bindingId: string, assetId: string)
    ensures AssetNamed("binding " + bindingId + " exposes " + assetId) == Some(assetId) <==>
            !Occurs(" " + assetId, " exposes ")
  {
    assert Exposing(bindingId, assetId) == "binding " + bindingId + " exposes " + assetId;
    ExposingIsReadBack(bindingId, assetId);
  }

  lemma ExposingIsReadBack(bindingId: string, assetId: string)
    ensures AssetNamed(Exposing(bindingId, assetId)) == Some(assetId) <==> !Occurs(" " + assetId, EXPOSES_WORD)
  {
    WordsAreBetweenBlanks();
    BehindIsRest("binding " + bindingId, EXPOSES_WORD, assetId);
  }

  /** The two words differ in the letter that is seventh from the end, so that they never end at
      the same place. */
  lemma WordsEndApart(prefix: string, assetId: string, i: nat)
    requires At(prefix + ROUTES_WORD + assetId, EXPOSES_WORD, i)
    ensures (prefix + ROUTES_WORD + assetId)[i + |EXPOSES_WORD|..] != assetId
  {
    var s, k := prefix + ROUTES_WORD + assetId, |prefix| + |ROUTES_WORD|;
    assert s[k - 7] == ROUTES_WORD[1];
    assert s[i..i + |EXPOSES_WORD|][2] == s[i + 2];
    assert i + |EXPOSES_WORD| != k;
  }

  lemma RoutingIsReadBack(bindingId: string, assetId: string)
    ensures AssetNamed(Routing(bindingId, assetId)) == Some(assetId) <==>
            !Occurs(Routing(bindingId, assetId), EXPOSES_WORD) && !Occurs(" " + assetId, ROUTES_WORD)
  {
    var s, prefix := Routing(bindingId, assetId), "binding " + bindingId;
    WordsAreBetweenBlanks();
    BehindIsRest(prefix, ROUTES_WORD, assetId);
    if Occurs(s, EXPOSES_WORD) {
      WordsEndApart(prefix, assetId, LastAt(s, EXPOSES_WORD, |s| + 1).value);
    }
  }

  /** For a route that is refreshed, no part of the update may say that something exposes
      something, and the id may not say that something routes something. */
  lemma RoutedIsReadBack(bindingId: string, assetId: string)
    ensures var update := "binding " + bindingId + " routes " + assetId;
      AssetNamed(update) == Some(assetId) <==> !Occurs(update, " exposes ") && !Occurs(" " + assetId, " routes ")
  {
    assert Routing(bindingId, assetId) == "binding " + bindingId + " routes " + assetId;
    RoutingIsReadBack(bindingId, assetId);
  }

  lemma OccursInside(a: string, word: string, b: string)
    ensures Occurs(a + word + b, word)
  {
    assert (a + word + b)[|a|..|a| + |word|] == word;
    assert At(a + word + b, word, |a|);
  }

  /** For instance, no id of this form is read back, whatever stands around the word. */
  lemma ExposedIdsNotReadBack(bindingId: string, x: string, y: string)
    ensures var id := x + " exposes " + y; AssetNamed(Exposing(bindingId, id)) != Some(id)
  {
    OccursInside(" " + x, EXPOSES_WORD, y);
    assert " " + x + EXPOSES_WORD + y == " " + (x + EXPOSES_WORD + y);
    ExposingIsReadBack(bindingId, x + EXPOSES_WORD + y);
  }

  lemma RoutedIdsNotReadBack(bindingId: string, x: string, y: string)
    ensures var id := x + " routes " + y; AssetNamed(Routing(bindingId, id)) != Some(id)
  {
    OccursInside(" " + x, ROUTES_WORD, y);
    assert " " + x + ROUTES_WORD + y == " " + (x + ROUTES_WORD + y);
    RoutingIsReadBack(bindingId, x + ROUTES_WORD + y);
  }

  /** Nor is any id after a binding of this form. */
  lemma RoutedBindingsHideIds(x: string, y: string, assetId: string)
    ensures AssetNamed(Routing(x + " exposes " + y, assetId)) != Some(assetId)
  {
    OccursInside("binding " + x, EXPOSES_WORD, y + ROUTES_WORD + assetId);
    assert Routing(x + EXPOSES_WORD + y, assetId) == "binding " + x + EXPOSES_WORD + (y + ROUTES_WORD + assetId);
    RoutingIsReadBack(x + EXPOSES_WORD + y, assetId);
  }
}
