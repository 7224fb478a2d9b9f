/** What resolving, heartbeats, recycling, unlocking and configuring leave in the binding records,
    field by field. */
module BindingResults {
  import opened Wrappers
  import opened Iterables
  import opened Bindings
  import opened Runtime
  import opened ControlPlane

  // ----- Resolving -----

  /** `records[i]` is the record in use for its attacker. */
  ghost predicate IsInUse(records: seq<Binding>, i: nat) {
    i < |records| && forall j :: i < j < |records| ==> records[j].attacker != records[i].attacker
  }

  /** Saving an update of a stored record changes that record and no other. */
  lemma SavedInPlace(records: seq<Binding>, i: nat, b: Binding)
    requires DistinctBy(records, IdOf) && i < |records| && b.id == records[i].id
    ensures Bindings.Save(records, b) == records[i := b]
  {
    assert IdOf(records[i]) == IdOf(b);
    assert forall j :: 0 <= j < |records| && j != i ==> IdOf(records[j]) != IdOf(b);
  }

  /** A record that has not expired is used again; a recycled one recovers by that. */
  lemma ResolveReuses(s: Setting, w: World, i: nat, freshId: string, now: int)
    requires Inv(w) && w.clock <= now && IsInUse(w.bindings, i) && w.bindings[i].ttlExpires >= now
    ensures var b := w.bindings[i];
      Next(s, w, Resolve(b.attacker, freshId, now)).bindings ==
        w.bindings[i := b.(status := if b.status == Recycled then Recovered else Active, lastSeen := now,
                           ttlExpires := now + s.ttl)]
  {
    LatestIsLast(w.bindings, w.bindings[i].attacker, i);
    var b := w.bindings[i];
    ResolveSaves(s, w, b.attacker, freshId, now);
    SavedInPlace(w.bindings, i, b.(status := if b.status == Recycled then Recovered else Active, lastSeen := now,
                                   ttlExpires := now + s.ttl));
  }

  /** Otherwise a new record is added behind the others. */
  lemma ResolveCreates(s: Setting, w: World, attacker: string, freshId: string, now: int)
    requires Inv(w) && w.clock <= now && (forall b :: b in w.bindings ==> b.id != freshId)
    requires forall i: nat :: IsInUse(w.bindings, i) && w.bindings[i].attacker == attacker ==>
               w.bindings[i].ttlExpires < now
    ensures Next(s, w, Resolve(attacker, freshId, now)).bindings ==
            w.bindings + [Binding(freshId, attacker, Active, now, now, now + s.ttl, [], map[])]
  {
    var latest := LatestByAttacker(w.bindings, attacker);
    if latest.Some? {
      var i := LatestIndex(w.bindings, attacker);
      assert IsInUse(w.bindings, i) && w.bindings[i].ttlExpires < now;
    }
    var b := Binding(freshId, attacker, Active, now, now, now + s.ttl, [], map[]);
    assert Resolved(w.bindings, attacker, now, s.ttl, freshId) == b;
    SavedBehind(w.bindings, b);
    ResolveSaves(s, w, attacker, freshId, now);
  }

  lemma ResolveSaves(s: Setting, w: World, attacker: string, freshId: string, now: int)
    ensures Next(s, w, Resolve(attacker, freshId, now)).bindings ==
            Bindings.Save(w.bindings, Resolved(w.bindings, attacker, now, s.ttl, freshId))
  {
  }

  lemma SavedBehind(records: seq<Binding>, b: Binding)
    requires forall x :: x in records ==> x.id != b.id
    ensures Bindings.Save(records, b) == records + [b]
  {
    assert !HasKey(records, IdOf, b.id);
  }

  /** Main result: after recycling, the attacker's next resolution gets the same binding back, as a
      recovered one with all its reveals, exactly when it comes within the lifetime that recycling
      left; a hard recycle leaves none beyond its own instant. */
  lemma RecycledIsReplacedIff(
      s: Setting, w: World, i: nat, hard: bool, at: int, freshId: string, now: int)
    requires Inv(w) && w.clock <= at <= now && IsInUse(w.bindings, i)
    requires forall b :: b in w.bindings ==> b.id != freshId
    ensures var b := w.bindings[i];
      var recycled := Next(s, w, Recycle(b.id, hard, at));
      var resolved := Next(s, recycled, Resolve(b.attacker, freshId, now));
      if now <= (if hard then at else at + s.ttl) then
        resolved.bindings == w.bindings[i := b.(status := Recovered, lastSeen := now, ttlExpires := now + s.ttl)]
      else
        resolved.bindings ==
          w.bindings[i := b.(status := Recycled, lastSeen := at, ttlExpires := if hard then at else at + s.ttl)]
          + [Binding(freshId, b.attacker, Active, now, now, now + s.ttl, [], map[])]
  {
    var b := w.bindings[i];
    var b' := RecycleIsRecorded(s, w, i, hard, at);
    NextResolution(s, w, i, Next(s, w, Recycle(b.id, hard, at)), b', freshId, now);
  }

  lemma RecycleIsRecorded(s: Setting, w: World, i: nat, hard: bool, at: int) returns (b': Binding)
    requires Inv(w) && w.clock <= at && i < |w.bindings|
    ensures b' == w.bindings[i].(status := Recycled, lastSeen := at, ttlExpires := if hard then at else at + s.ttl)
    ensures var w1 := Next(s, w, Recycle(w.bindings[i].id, hard, at));
      w1.bindings == w.bindings[i := b'] && Inv(w1) && w1.clock == at
  {
    var b := w.bindings[i];
    b' := b.(status := Recycled, lastSeen := at, ttlExpires := if hard then at else at + s.ttl);
    FindByIdUnique(w.bindings, i);
    SavedInPlace(w.bindings, i, b');
    RecycleStep(s, w, b.id, hard, at);
  }

  /** The first resolution after the record in use was changed. */
  lemma NextResolution(s: Setting, w: World, i: nat, w1: World, b': Binding, freshId: string, now: int)
    requires IsInUse(w.bindings, i) && w1.bindings == w.bindings[i := b'] && Inv(w1) && w1.clock <= now
    requires b'.id == w.bindings[i].id && b'.attacker == w.bindings[i].attacker
    requires forall b :: b in w.bindings ==> b.id != freshId
    ensures Next(s, w1, Resolve(b'.attacker, freshId, now)).bindings ==
      if now <= b'.ttlExpires then
        w.bindings[i := b'.(status := if b'.status == Recycled then Recovered else Active, lastSeen := now,
                            ttlExpires := now + s.ttl)]
      else w.bindings[i := b'] + [Binding(freshId, b'.attacker, Active, now, now, now + s.ttl, [], map[])]
  {
    StillInUse(w.bindings, w1.bindings, i);
    if now <= b'.ttlExpires {
      ResolveReuses(s, w1, i, freshId, now);
    } else {
      forall b | b in w1.bindings ensures b.id != freshId {
        assert b in w.bindings || b == b';
        assert w.bindings[i] in w.bindings;
      }
      ResolveCreates(s, w1, b'.attacker, freshId, now);
    }
  }

  lemma StillInUse(before: seq<Binding>, after: seq<Binding>, i: nat)
    requires IsInUse(before, i) && |after| == |before|
    requires forall j :: 0 <= j < |before| ==> after[j].attacker == before[j].attacker
    ensures IsInUse(after, i)
    ensures forall j: nat :: IsInUse(after, j) && after[j].attacker == after[i].attacker ==> j == i
  {
  }

  /** After a heartbeat it is the lifetime counted from its time stamp. */
  lemma BeatenIsReplacedIff(s: Setting, w: World, i: nat, ts: int, at: int, freshId: string, now: int)
    requires Inv(w) && w.clock <= at <= now && IsInUse(w.bindings, i)
    requires forall b :: b in w.bindings ==> b.id != freshId
    ensures var b := w.bindings[i];
      var beaten := Next(s, w, Heartbeat(b.id, ts, at));
      var resolved := Next(s, beaten, Resolve(b.attacker, freshId, now));
      if now <= ts + s.ttl then
        resolved.bindings == w.bindings[i := b.(status := Active, lastSeen := now, ttlExpires := now + s.ttl)]
      else
        resolved.bindings ==
          w.bindings[i := b.(status := Active, lastSeen := ts, ttlExpires := ts + s.ttl)]
          + [Binding(freshId, b.attacker, Active, now, now, now + s.ttl, [], map[])]
  {
    var b := w.bindings[i];
    var b' := BeatIsRecorded(s, w, i, ts, at);
    NextResolution(s, w, i, Next(s, w, Heartbeat(b.id, ts, at)), b', freshId, now);
  }

  lemma BeatIsRecorded(s: Setting, w: World, i: nat, ts: int, at: int) returns (b': Binding)
    requires Inv(w) && w.clock <= at && i < |w.bindings|
    ensures b' == w.bindings[i].(status := Active, lastSeen := ts, ttlExpires := ts + s.ttl)
    ensures var w1 := Next(s, w, Heartbeat(w.bindings[i].id, ts, at));
      w1.bindings == w.bindings[i := b'] && Inv(w1) && w1.clock == at
  {
    var b := w.bindings[i];
    b' := b.(status := Active, lastSeen := ts, ttlExpires := ts + s.ttl);
    FindByIdUnique(w.bindings, i);
    SavedInPlace(w.bindings, i, b');
    HeartbeatStep(s, w, b.id, ts, at);
  }

  // ----- Acting -----

  /** `more` is `present` with `x` behind, unless it is in there already. */
  ghost predicate Adds(present: seq<string>, x: string, more: seq<string>) {
    if x in present then more == present else more == present + [x]
  }

  lemma AppendOne(present: seq<string>, x: string)
    ensures Adds(present, x, AppendNew(present, [x]))
  {
    assert [x][1..] == [];
  }

  /** The event is the action on the stored binding. */
  lemma ActionHappens(s: Setting, w: World, i: nat, action: Action, env: Env)
    requires Inv(w) && i < |w.bindings| && w.clock <= env.now
    requires forall r :: r in w.plane.records ==> r.runtimeId != env.runtimeId
    ensures var w1 := w.(clock := env.now);
      && Inv(w1) && FindById(w1.bindings, w.bindings[i].id) == Some(w.bindings[i])
      && !HasKey(w1.plane.records, RuntimeIdOf, env.runtimeId)
      && Next(s, w, Act(w.bindings[i].id, action, env)) == ActOn(s, w1, w.bindings[i], action, env)
  {
    FindByIdUnique(w.bindings, i);
    assert !HasKey(w.plane.records, RuntimeIdOf, env.runtimeId);
    TimeMayPass(w, env.now);
  }

  /** Unlocking touches the one record: the asset is in it, once, and the lifetime stays. */
  lemma UnlockIsRecorded(s: Setting, w: World, i: nat, assetId: string, env: Env) returns (b': Binding)
    requires Inv(w) && i < |w.bindings| && w.clock <= env.now && assetId != ""
    requires forall r :: r in w.plane.records ==> r.runtimeId != env.runtimeId
    ensures Next(s, w, Act(w.bindings[i].id, Unlock(assetId), env)).bindings == w.bindings[i := b']
    ensures b' == w.bindings[i].(status := Active, lastSeen := env.now, unlocked := b'.unlocked)
    ensures Adds(w.bindings[i].unlocked, assetId, b'.unlocked)
  {
    ActionHappens(s, w, i, Unlock(assetId), env);
    b' := WithUnlocked(w.bindings[i], [assetId], env.now);
    AppendOne(w.bindings[i].unlocked, assetId);
    SavedInPlace(w.bindings, i, b');
  }

  /** The configuration is listed for its asset and nothing else changes in the lists. */
  ghost predicate AddsConfiguration(b: Binding, a: string, c: string, b': Binding) {
    && b'.revealed.Keys == b.revealed.Keys + {a}
    && Adds(if a in b.revealed then b.revealed[a] else [], c, b'.revealed[a])
    && forall k :: k in b.revealed && k != a ==> b'.revealed[k] == b.revealed[k]
  }

  ghost predicate AddsTarget(b: Binding, target: Option<string>, b': Binding) {
    if target.Some? && target.value != "" then Adds(b.unlocked, target.value, b'.unlocked)
    else b'.unlocked == b.unlocked
  }

  /** A configuration is recorded for its asset, once; its target is unlocked; the lifetime stays. */
  lemma ConfigurationIsRecorded(
      s: Setting, w: World, i: nat, a: string, c: string, target: Option<string>, runtime: Option<RuntimeSpec>,
      env: Env) returns (b': Binding)
    requires Inv(w) && i < |w.bindings| && w.clock <= env.now && a != "" && c != ""
    requires forall r :: r in w.plane.records ==> r.runtimeId != env.runtimeId
    ensures var b := w.bindings[i];
      && Next(s, w, Act(b.id, Configure(a, c, target, runtime), env)).bindings == w.bindings[i := b']
      && b' == b.(status := Active, lastSeen := env.now, unlocked := b'.unlocked, revealed := b'.revealed)
      && AddsTarget(b, target, b') && AddsConfiguration(b, a, c, b')
  {
    var b, w0 := w.bindings[i], w.(clock := env.now);
    ConfigureIsTarget(s, w, i, a, c, target, runtime, env);
    var b1 := RevealIsRecorded(w0, i, a, c, runtime.Some?, env);
    var w1 := RevealIn(w0, b, a, c, runtime.Some?, env);
    b' := TargetIsRecorded(s, w1, i, target, runtime, env);
    assert w1.bindings[i := b'] == w.bindings[i := b'];
  }

  lemma ConfigureIsTarget(
      s: Setting, w: World, i: nat, a: string, c: string, target: Option<string>, runtime: Option<RuntimeSpec>,
      env: Env)
    requires Inv(w) && i < |w.bindings| && w.clock <= env.now && a != "" && c != ""
    requires forall r :: r in w.plane.records ==> r.runtimeId != env.runtimeId
    ensures var b, w0 := w.bindings[i], w.(clock := env.now);
      && Inv(w0)
      && Next(s, w, Act(b.id, Configure(a, c, target, runtime), env)).bindings ==
           TargetIn(s, RevealIn(w0, b, a, c, runtime.Some?, env), WithRevealed(b, a, [c], env.now), target, runtime,
                    env).bindings
  {
    ActionHappens(s, w, i, Configure(a, c, target, runtime), env);
  }

  lemma RevealIsRecorded(w: World, i: nat, a: string, c: string, swaps: bool, env: Env) returns (b': Binding)
    requires Inv(w) && i < |w.bindings|
    ensures var b := w.bindings[i];
      && b' == WithRevealed(b, a, [c], env.now)
      && Inv(RevealIn(w, b, a, c, swaps, env)) && RevealIn(w, b, a, c, swaps, env).bindings == w.bindings[i := b']
      && b' == b.(status := Active, lastSeen := env.now, revealed := b'.revealed)
      && AddsConfiguration(b, a, c, b')
  {
    var b := w.bindings[i];
    FindByIdUnique(w.bindings, i);
    RevealInOk(w, b, a, c, swaps, env);
    b' := WithRevealed(b, a, [c], env.now);
    ConfigurationAdded(b, a, c, env.now);
    SavedInPlace(w.bindings, i, b');
  }

  lemma ConfigurationAdded(b: Binding, a: string, c: string, now: int)
    ensures AddsConfiguration(b, a, c, WithRevealed(b, a, [c], now))
  {
    AppendOne(if a in b.revealed then b.revealed[a] else [], c);
  }

  lemma TargetIsRecorded(
      s: Setting, w: World, i: nat, target: Option<string>, runtime: Option<RuntimeSpec>, env: Env)
    returns (b': Binding)
    requires Inv(w) && i < |w.bindings| && w.bindings[i].status == Active && w.bindings[i].lastSeen == env.now
    ensures TargetIn(s, w, w.bindings[i], target, runtime, env).bindings == w.bindings[i := b']
    ensures b' == w.bindings[i].(unlocked := b'.unlocked) && AddsTarget(w.bindings[i], target, b')
  {
    b' := WithTarget(w.bindings[i], target, env.now);
    if target.Some? && target.value != "" {
      AppendOne(w.bindings[i].unlocked, target.value);
      SavedInPlace(w.bindings, i, b');
    }
  }

  /** Some of the configurations lists the id for the asset. */
  ghost predicate Lists(configurations: seq<(string, seq<string>)>, asset: string, id: string) {
    exists x :: x in configurations && x.0 == asset && id in x.1
  }

  ghost predicate WasRevealed(b: Binding, asset: string, id: string) {
    asset in b.revealed && id in b.revealed[asset]
  }

  /** When configurations of several assets are revealed at once, exactly those are added. */
  lemma {:induction false} AllAreRevealed(
      b: Binding, configurations: seq<(string, seq<string>)>, now: int, asset: string, id: string)
    ensures var b' := WithAllRevealed(b, configurations, now);
      && b' == b.(status := Active, lastSeen := now, revealed := b'.revealed)
      && (WasRevealed(b', asset, id) <==> WasRevealed(b, asset, id) || Lists(configurations, asset, id))
  {
    if configurations != [] {
      var n := |configurations| - 1;
      AllAreRevealed(b, configurations[..n], now, asset, id);
      assert configurations == configurations[..n] + [configurations[n]];
      assert configurations[n] in configurations;
    }
  }
}
