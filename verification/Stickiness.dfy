/** How long an attacker keeps its binding. */
module Stickiness {
  import opened Wrappers
  import opened Iterables
  import opened Bindings
  import opened Runtime
  import opened ControlPlane

  /** `id` is the attacker's most recent binding and good at least until the given time. */
  ghost predicate Current(w: World, attacker: string, id: string, until: int) {
    var b := FindById(w.bindings, id);
    b.Some? && b.value.attacker == attacker && b.value.ttlExpires >= until
    && LatestByAttacker(w.bindings, attacker) == b
  }

  lemma SaveKeepsCurrent(w: World, b: Binding, b': Binding, attacker: string, id: string, until: int)
    requires Inv(w) && FindById(w.bindings, b.id) == Some(b) && Current(w, attacker, id, until)
    requires Updates(b, b')
    requires b'.id == id ==> b'.ttlExpires >= until
    ensures Inv(SaveBinding(w, b')) && Current(SaveBinding(w, b'), attacker, id, until)
    ensures FindById(SaveBinding(w, b').bindings, b.id) == Some(b')
  {
    SaveBindingOk(w, b, b');
    SaveGrows(w.bindings, b, b');
    LatestGrows(w.bindings, SaveBinding(w, b').bindings, attacker);
    LatestStays(w.bindings, SaveBinding(w, b').bindings, attacker, id);
    if b.id != id {
      var i := LatestIndex(w.bindings, attacker);
      FindByIdUnique(SaveBinding(w, b').bindings, i);
    }
  }

  lemma LatestStays(before: seq<Binding>, after: seq<Binding>, attacker: string, id: string)
    requires Wellformed(before) && Wellformed(after) && Grows(before, after)
    requires FindById(before, id).Some? && LatestByAttacker(before, attacker) == FindById(before, id)
    requires forall j :: |before| <= j < |after| ==> after[j].attacker != attacker
    ensures LatestByAttacker(after, attacker) == FindById(after, id)
  {
    var i := LatestIndex(before, attacker);
    assert Extends(before[i], after[i]);
    forall j | i < j < |after| ensures after[j].attacker != attacker {
      if j < |before| {
        assert Extends(before[j], after[j]);
      }
    }
    LatestIsLast(after, attacker, i);
    FindByIdUnique(after, i);
  }

  lemma UnlockKeepsCurrent(
      s: Setting, w: World, b: Binding, assetId: string, override: Option<RuntimeSpec>, env: Env,
      attacker: string, id: string, until: int)
    requires Inv(w) && FindById(w.bindings, b.id) == Some(b) && Current(w, attacker, id, until)
    requires !HasKey(w.plane.records, RuntimeIdOf, env.runtimeId) && w.clock == env.now
    ensures Current(UnlockIn(s, w, b, assetId, override, env), attacker, id, until)
  {
    StoredIsDistinct(w, b.id);
    UnlockUpdates(b, [assetId], env.now);
    SaveKeepsCurrent(w, b, WithUnlocked(b, [assetId], env.now), attacker, id, until);
  }

  lemma ConfigureKeepsCurrent(
      s: Setting, w: World, b: Binding, a: string, c: string, target: Option<string>, runtime: Option<RuntimeSpec>,
      env: Env, attacker: string, id: string, until: int)
    requires Inv(w) && FindById(w.bindings, b.id) == Some(b) && Current(w, attacker, id, until)
    requires !HasKey(w.plane.records, RuntimeIdOf, env.runtimeId) && w.clock == env.now && a != "" && c != ""
    ensures Current(ActOn(s, w, b, Configure(a, c, target, runtime), env), attacker, id, until)
  {
    StoredIsDistinct(w, b.id);
    var b1 := WithRevealed(b, a, [c], env.now);
    RevealUpdates(b, a, [c], env.now);
    SaveKeepsCurrent(w, b, b1, attacker, id, until);
    RevealInOk(w, b, a, c, runtime.Some?, env);
    var w1 := RevealIn(w, b, a, c, runtime.Some?, env);
    if target.Some? && target.value != "" {
      UnlockKeepsCurrent(s, w1, b1, target.value, runtime, env, attacker, id, until);
    }
    ConfigureBindings(s, w, b, a, c, target, runtime, env);
  }

  /** Attaching a configuration to a backend changes no binding. */
  lemma ConfigureBindings(
      s: Setting, w: World, b: Binding, a: string, c: string, target: Option<string>, runtime: Option<RuntimeSpec>,
      env: Env)
    requires a != "" && c != ""
    ensures ActOn(s, w, b, Configure(a, c, target, runtime), env).bindings ==
            TargetIn(s, RevealIn(w, b, a, c, runtime.Some?, env), WithRevealed(b, a, [c], env.now), target, runtime,
                     env).bindings
  {
  }

  lemma ActKeepsCurrent(
      s: Setting, w: World, b: Binding, action: Action, env: Env, attacker: string, id: string, until: int)
    requires Inv(w) && FindById(w.bindings, b.id) == Some(b) && Current(w, attacker, id, until)
    requires !HasKey(w.plane.records, RuntimeIdOf, env.runtimeId) && w.clock == env.now
    requires until <= env.now + s.ttl
    ensures Current(ActOn(s, w, b, action, env), attacker, id, until)
  {
    StoredIsDistinct(w, b.id);
    match action
    case Unlock(a) =>
      if a != "" {
        UnlockKeepsCurrent(s, w, b, a, None, env, attacker, id, until);
      }
    case Configure(a, c, target, runtime) =>
      if a != "" && c != "" {
        ConfigureKeepsCurrent(s, w, b, a, c, target, runtime, env, attacker, id, until);
      }
    case RecycleBinding =>
      StopAllOk(w, b.id);
      StatusUpdates(b, env.now, s.ttl, false);
      SaveKeepsCurrent(StopAll(w, b.id), b, RecycledBinding(b, false, env.now, s.ttl), attacker, id, until);
    case _ =>
  }

  /** The events that can end a binding early are a hard recycle and a heartbeat that carries an
      older time stamp. */
  predicate Quiet(e: Event, id: string, since: int) {
    match e
    case Heartbeat(other, ts, _) => other == id ==> ts >= since
    case Recycle(other, hard, _) => other == id ==> !hard
    case _ => true
  }

  lemma NextKeepsCurrent(s: Setting, w0: World, e: Event, attacker: string, id: string, since: int)
    requires Inv(w0) && Enabled(w0, e) && Current(w0, attacker, id, since + s.ttl)
    requires since <= e.Time() <= since + s.ttl && Quiet(e, id, since)
    ensures Current(Next(s, w0, e), attacker, id, since + s.ttl)
  {
    var w := w0.(clock := e.Time());
    var until := since + s.ttl;
    assert Inv(w) && Current(w, attacker, id, until);
    match e
    case Resolve(other, freshId, now) => ResolveKeepsCurrent(s, w, other, freshId, now, attacker, id, until);
    case Heartbeat(other, ts, _) =>
      if FindById(w.bindings, other).Some? {
        var b := FindById(w.bindings, other).value;
        StoredIsDistinct(w, other);
        StatusUpdates(b, ts, s.ttl, false);
        SaveKeepsCurrent(w, b, Beaten(b, ts, s.ttl), attacker, id, until);
      }
    case Recycle(other, hard, now) =>
      if FindById(w.bindings, other).Some? {
        var b := FindById(w.bindings, other).value;
        StoredIsDistinct(w, other);
        StatusUpdates(b, now, s.ttl, hard);
        SaveKeepsCurrent(w, b, RecycledBinding(b, hard, now, s.ttl), attacker, id, until);
      }
    case Act(other, action, env) =>
      if FindById(w.bindings, other).Some? {
        ActKeepsCurrent(s, w, FindById(w.bindings, other).value, action, env, attacker, id, until);
      }
    case _ =>
  }

  lemma ResolveKeepsCurrent(
      s: Setting, w: World, other: string, freshId: string, now: int, attacker: string, id: string, until: int)
    requires Inv(w) && !HasKey(w.bindings, IdOf, freshId) && Current(w, attacker, id, until)
    requires now <= until <= now + s.ttl
    ensures Current(SaveBinding(w, Resolved(w.bindings, other, now, s.ttl, freshId)), attacker, id, until)
  {
    ResolveIsSticky(w.bindings, other, now, s.ttl, freshId);
    var r := Resolved(w.bindings, other, now, s.ttl, freshId);
    var after := Bindings.Save(w.bindings, r);
    if other != attacker {
      LatestStays(w.bindings, after, attacker, id);
      var i := LatestIndex(w.bindings, attacker);
      FindByIdUnique(w.bindings, i);
      assert Extends(w.bindings[i], after[i]);
      FindByIdUnique(after, i);
      assert w.bindings[i].id != r.id;
    }
  }

  lemma {:induction false} RunKeepsCurrent(
      s: Setting, w: World, events: seq<Event>, attacker: string, id: string, since: int)
    requires Inv(w) && ValidRun(s, w, events) && Current(w, attacker, id, since + s.ttl)
    requires since <= w.clock && After(s, w, events).clock <= since + s.ttl
    requires forall i :: 0 <= i < |events| ==> Quiet(events[i], id, since)
    ensures Inv(After(s, w, events)) && Current(After(s, w, events), attacker, id, since + s.ttl)
    decreases |events|
  {
    if events != [] {
      var n := |events| - 1;
      var w1 := After(s, w, events[..n]);
      RunOk(s, w, events[..n]);
      NextOk(s, w1, events[n]);
      RunKeepsCurrent(s, w, events[..n], attacker, id, since);
      NextKeepsCurrent(s, w1, events[n], attacker, id, since);
    }
  }

  lemma ResolvedIsCurrent(s: Setting, w: World, attacker: string, freshId: string, since: int)
    requires Inv(w) && Enabled(w, Resolve(attacker, freshId, since))
    ensures Current(Next(s, w, Resolve(attacker, freshId, since)), attacker,
                    Resolved(w.bindings, attacker, since, s.ttl, freshId).id, since + s.ttl)
  {
    ResolveIsSticky(w.bindings, attacker, since, s.ttl, freshId);
  }

  /** Main result: once resolved, an attacker is given the same binding by every later resolution
      within the lifetime, whatever happens in between short of a hard recycle or a back-dated
      heartbeat of that binding. */
  lemma BindingSticks(
      s: Setting, w: World, attacker: string, freshId: string, since: int, events: seq<Event>, now: int,
      freshId2: string)
    requires Inv(w) && Enabled(w, Resolve(attacker, freshId, since)) && 0 <= s.ttl
    requires ValidRun(s, Next(s, w, Resolve(attacker, freshId, since)), events)
    requires After(s, Next(s, w, Resolve(attacker, freshId, since)), events).clock <= now <= since + s.ttl
    requires forall i :: 0 <= i < |events| ==>
               Quiet(events[i], Resolved(w.bindings, attacker, since, s.ttl, freshId).id, since)
    ensures Resolved(After(s, Next(s, w, Resolve(attacker, freshId, since)), events).bindings,
                     attacker, now, s.ttl, freshId2).id
         == Resolved(w.bindings, attacker, since, s.ttl, freshId).id
  {
    var w1 := Next(s, w, Resolve(attacker, freshId, since));
    var id := Resolved(w.bindings, attacker, since, s.ttl, freshId).id;
    NextOk(s, w, Resolve(attacker, freshId, since));
    ResolvedIsCurrent(s, w, attacker, freshId, since);
    RunKeepsCurrent(s, w1, events, attacker, id, since);
  }
}
