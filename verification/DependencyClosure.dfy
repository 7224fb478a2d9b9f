/** Chains of dependencies, and the smallest set around an asset that is closed under them. */
module DependencyClosure {
  import opened Iterables
  import opened Scoring

  // ----- Dependency chains -----

  predicate NeedsNext(assets: seq<Asset>, x: string, y: string) {
    exists i :: 0 <= i < |assets| && assets[i].id == x && y in assets[i].dependencies
  }

  predicate Chain(assets: seq<Asset>, ids: seq<string>) {
    ids != [] && forall i :: 0 <= i < |ids| - 1 ==> NeedsNext(assets, ids[i], ids[i + 1])
  }

  /** `d` is `x` or a dependency of it, directly or not. */
  ghost predicate Needs(assets: seq<Asset>, x: string, d: string) {
    exists ids :: Chain(assets, ids) && ids[0] == x && ids[|ids| - 1] == d
  }

  lemma NeedsItself(assets: seq<Asset>, x: string)
    ensures Needs(assets, x, x)
  {
    assert Chain(assets, [x]);
  }

  lemma NeedsFurther(assets: seq<Asset>, x: string, y: string, d: string)
    requires Needs(assets, x, y) && NeedsNext(assets, y, d)
    ensures Needs(assets, x, d)
  {
    var ids :| Chain(assets, ids) && ids[0] == x && ids[|ids| - 1] == y;
    var longer := ids + [d];
    assert forall i :: 0 <= i < |ids| ==> longer[i] == ids[i];
    assert Chain(assets, longer);
  }

  /** With every asset its dependencies are there, too. */
  ghost predicate Closed(assets: seq<Asset>, unlocked: seq<string>) {
    forall a :: a in assets && a.id in unlocked ==> DependenciesMet(a, unlocked)
  }

  lemma ClosedHasNext(assets: seq<Asset>, unlocked: seq<string>, x: string, y: string)
    requires Closed(assets, unlocked) && x in unlocked && NeedsNext(assets, x, y)
    ensures y in unlocked
  {
    var i :| 0 <= i < |assets| && assets[i].id == x && y in assets[i].dependencies;
    var j :| 0 <= j < |assets[i].dependencies| && assets[i].dependencies[j] == y;
    assert assets[i] in assets;
  }

  lemma {:induction false} ClosedHasChain(assets: seq<Asset>, unlocked: seq<string>, ids: seq<string>)
    requires Closed(assets, unlocked) && Chain(assets, ids) && ids[0] in unlocked
    ensures ids[|ids| - 1] in unlocked
  {
    if |ids| > 1 {
      var n := |ids| - 1;
      assert Chain(assets, ids[..n]);
      ClosedHasChain(assets, unlocked, ids[..n]);
      ClosedHasNext(assets, unlocked, ids[n - 1], ids[n]);
    }
  }

  lemma ClosedHasNeeded(assets: seq<Asset>, unlocked: seq<string>, x: string, d: string)
    requires Closed(assets, unlocked) && x in unlocked && Needs(assets, x, d)
    ensures d in unlocked
  {
    var ids :| Chain(assets, ids) && ids[0] == x && ids[|ids| - 1] == d;
    ClosedHasChain(assets, unlocked, ids);
  }

  // ----- The smallest closed set around an asset -----

  function AllDependencies(assets: seq<Asset>): seq<string> {
    if assets == [] then [] else AllDependencies(assets[..|assets| - 1]) + assets[|assets| - 1].dependencies
  }

  lemma {:induction false} NextIsDependency(assets: seq<Asset>, x: string, y: string)
    requires NeedsNext(assets, x, y)
    ensures y in AllDependencies(assets)
  {
    var n := |assets| - 1;
    var i :| 0 <= i < |assets| && assets[i].id == x && y in assets[i].dependencies;
    if i < n {
      assert assets[..n][i] == assets[i];
      NextIsDependency(assets[..n], x, y);
    }
  }

  ghost function NeededAmong(assets: seq<Asset>, x: string, among: seq<string>): (r: seq<string>)
    ensures forall d :: d in r <==> d in among && Needs(assets, x, d)
  {
    if among == [] then []
    else (if Needs(assets, x, among[0]) then [among[0]] else []) + NeededAmong(assets, x, among[1..])
  }

  ghost function Closure(assets: seq<Asset>, x: string): seq<string> {
    NeededAmong(assets, x, [x] + AllDependencies(assets))
  }

  lemma ClosureMembers(assets: seq<Asset>, x: string, d: string)
    ensures d in Closure(assets, x) <==> Needs(assets, x, d)
  {
    if Needs(assets, x, d) {
      var ids :| Chain(assets, ids) && ids[0] == x && ids[|ids| - 1] == d;
      if |ids| > 1 {
        NextIsDependency(assets, ids[|ids| - 2], d);
      }
    }
  }

  lemma ClosureIsClosed(assets: seq<Asset>, x: string)
    ensures Closed(assets, Closure(assets, x)) && x in Closure(assets, x)
  {
    NeedsItself(assets, x);
    ClosureMembers(assets, x, x);
    forall a | a in assets && a.id in Closure(assets, x) ensures DependenciesMet(a, Closure(assets, x)) {
      forall j | 0 <= j < |a.dependencies| ensures a.dependencies[j] in Closure(assets, x) {
        var i :| 0 <= i < |assets| && assets[i] == a;
        assert NeedsNext(assets, a.id, a.dependencies[j]);
        ClosureMembers(assets, x, a.id);
        NeedsFurther(assets, x, a.id, a.dependencies[j]);
        ClosureMembers(assets, x, a.dependencies[j]);
      }
    }
  }

  // ----- One more asset -----

  /** Every asset of that id has its dependencies in the list, itself aside. */
  ghost predicate MetWith(assets: seq<Asset>, id: string, unlocked: seq<string>) {
    forall a, d :: a in assets && a.id == id && d in a.dependencies ==> d == id || d in unlocked
  }

  lemma AppendKeepsClosed(assets: seq<Asset>, unlocked: seq<string>, id: string)
    requires Closed(assets, unlocked)
    ensures Closed(assets, AppendNew(unlocked, [id])) <==> id in unlocked || MetWith(assets, id, unlocked)
  {
    var more := AppendNew(unlocked, [id]);
    forall a | a in assets && a.id in unlocked ensures DependenciesMet(a, more) {
      assert DependenciesMet(a, unlocked);
    }
    if Closed(assets, more) {
      forall a, d | a in assets && a.id == id && d in a.dependencies ensures d == id || d in unlocked {
        assert DependenciesMet(a, more);
      }
    }
    if MetWith(assets, id, unlocked) {
      forall a, j | a in assets && a.id == id && 0 <= j < |a.dependencies| ensures a.dependencies[j] in more {
        assert a.dependencies[j] in a.dependencies;
      }
    }
  }
}
