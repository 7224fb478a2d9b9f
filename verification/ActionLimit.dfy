/** How the adaptive loop turns chosen reveals into actions and limits how many it sends. */
module ActionLimit {
  import opened Scoring
  import opened ControlPlane

  function ActionOf(c: Candidate): Action {
    match c.option.variant
    case None => Unlock(c.option.asset.id)
    case Some(v) => Configure(c.option.asset.id, v.configurationId.GetOr(""), v.target, v.targetRuntime)
  }

  function ActionsOf(chosen: seq<Candidate>): (r: seq<Action>)
    ensures |r| == |chosen|
  {
    seq(|chosen|, i requires 0 <= i < |chosen| => ActionOf(chosen[i]))
  }

  predicate IsReveal(a: Action) {
    a.Unlock? || a.Configure?
  }

  function RevealActions(actions: seq<Action>): seq<Action> {
    if actions == [] then []
    else
      var n := |actions| - 1;
      RevealActions(actions[..n]) + if IsReveal(actions[n]) then [actions[n]] else []
  }

  function OtherActions(actions: seq<Action>): seq<Action> {
    if actions == [] then []
    else
      var n := |actions| - 1;
      OtherActions(actions[..n]) + if IsReveal(actions[n]) then [] else [actions[n]]
  }

  function KeepFirst(actions: seq<Action>, limit: nat): seq<Action> {
    if actions == [] then []
    else
      var n := |actions| - 1;
      KeepFirst(actions[..n], limit) +
      if IsReveal(actions[n]) && |RevealActions(actions[..n])| >= limit then [] else [actions[n]]
  }

  /** A limit that allows no reveal drops every action, other ones included. */
  function Limited(actions: seq<Action>, limit: int): seq<Action> {
    if limit <= 0 then [] else KeepFirst(actions, limit)
  }

  function Least(a: nat, b: nat): nat {
    if a <= b then a else b
  }

  /** The first reveals survive, in order, up to the limit. Nothing else is lost while the limit
      allows a reveal at all; everything else is when it does not. */
  lemma {:induction false} LimitKeepsFirstReveals(actions: seq<Action>, limit: int)
    ensures var revealing, kept := RevealActions(actions), Limited(actions, limit);
      && RevealActions(kept) == revealing[..Least(AtLeastZero(limit), |revealing|)]
      && OtherActions(kept) == if limit > 0 then OtherActions(actions) else []
  {
    if actions != [] && limit > 0 {
      var n := |actions| - 1;
      var front, last := actions[..n], actions[n];
      LimitKeepsFirstReveals(front, limit);
      var kept := Limited(front, limit);
      if !(IsReveal(last) && |RevealActions(front)| >= limit) {
        assert (kept + [last])[..|kept|] == kept;
      } else {
        assert Limited(actions, limit) == kept;
      }
    }
  }

  function AtLeastZero(n: int): nat {
    if n < 0 then 0 else n
  }

  /** Actions that are no reveals are preserved, as the limiter promises, exactly when the limit is
      positive or there are none. */
  lemma LimitKeepsOthersIff(actions: seq<Action>, limit: int)
    ensures OtherActions(Limited(actions, limit)) == OtherActions(actions) <==> limit > 0 || OtherActions(actions) == []
  {
    LimitKeepsFirstReveals(actions, limit);
  }

  /** For instance, a limit of zero drops a route update. */
  lemma ZeroDropsOthers(reason: string)
    ensures OtherActions(Limited([RouteUpdate(reason)], 0)) != OtherActions([RouteUpdate(reason)])
  {
    LimitKeepsOthersIff([RouteUpdate(reason)], 0);
    assert [RouteUpdate(reason)][..0] == [];
  }

  /** Of reveals only, a prefix is kept. */
  lemma {:induction false} LimitOfReveals(actions: seq<Action>, limit: int)
    requires forall i :: 0 <= i < |actions| ==> IsReveal(actions[i])
    ensures RevealActions(actions) == actions
    ensures Limited(actions, limit) == actions[..if limit <= 0 then 0 else Least(limit, |actions|)]
  {
    if actions != [] {
      var n := |actions| - 1;
      LimitOfReveals(actions[..n], limit);
      assert actions == actions[..n] + [actions[n]];
    }
  }

  method LimitReveals(actions: seq<Action>, limit: int) returns (limited: seq<Action>)
    ensures limited == Limited(actions, limit)
  {
    limited := [];
    if limit <= 0 {
      return;
    }
    var count := 0;
    for i := 0 to |actions|
      invariant limited == KeepFirst(actions[..i], limit)
      invariant count == Least(limit, |RevealActions(actions[..i])|)
    {
      assert actions[..i + 1][..i] == actions[..i];
      if !IsReveal(actions[i]) {
        limited := limited + [actions[i]];
        continue;
      }
      if count >= limit {
        continue;
      }
      limited := limited + [actions[i]];
      count := count + 1;
    }
    assert actions[..|actions|] == actions;
  }

  method CollectReveals(actions: seq<Action>) returns (revealing: seq<Action>)
    ensures revealing == RevealActions(actions)
  {
    revealing := [];
    for i := 0 to |actions|
      invariant revealing == RevealActions(actions[..i])
    {
      assert actions[..i + 1][..i] == actions[..i];
      if IsReveal(actions[i]) {
        revealing := revealing + [actions[i]];
      }
    }
    assert actions[..|actions|] == actions;
  }
}
