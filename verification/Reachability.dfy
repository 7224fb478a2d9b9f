/** What every run of the control plane guarantees: who can reach what, who owns a port, what
    prewarming and recycling do, and how long a binding sticks to its attacker. */
module Reachability {
  import opened Wrappers
  import opened Iterables
  import opened ListStore
  import opened Bindings
  import opened RouteTable
  import opened Runtime
  import opened ControlPlane
  import opened Orchestrator

  lemma EmptyOk()
    ensures Inv(EMPTY)
  {
  }

  // ----- Reachability -----

  /** In every reachable state, without the single-route fallback, a client that connects to a port
      is sent only to an asset that its own binding has unlocked. */
  lemma OnlyUnlockedAssetsAreReachable(s: Setting, events: seq<Event>, client: string, port: int)
    requires ValidRun(s, EMPTY, events)
    ensures var w := After(s, EMPTY, events);
      var r := SelectRoute(w.plane.routes, client, port, false);
      r.Some? ==> r.value.attacker == client && r.value.publicPort == port
                  && BelongsTo(w.bindings, r.value.bindingId, client)
                  && IsUnlocked(w.bindings, r.value.bindingId, r.value.assetId)
  {
    EmptyOk();
    RunOk(s, EMPTY, events);
    SelectedRouteIsClients(After(s, EMPTY, events).plane.routes, client, port);
  }

  /** In every reachable state the gateway lists an asset as exposed only when the binding has
      unlocked it, and no asset of a binding has two running backends. */
  lemma OnlyUnlockedAssetsAreExposed(s: Setting, events: seq<Event>)
    requires ValidRun(s, EMPTY, events)
    ensures var w := After(s, EMPTY, events);
      && (forall g, a :: g in w.exposure && a in g.exposed ==> IsUnlocked(w.bindings, g.bindingId, a))
      && OneRunning(w.plane.records)
  {
    EmptyOk();
    RunOk(s, EMPTY, events);
  }

  /** A binding's reveals only grow, by appending and without duplicates, whatever happens. */
  lemma RevealsOnlyGrow(s: Setting, events: seq<Event>, k: nat, id: string)
    requires ValidRun(s, EMPTY, events) && k <= |events|
    ensures ValidRun(s, EMPTY, events[..k])
    ensures var b := FindById(After(s, EMPTY, events[..k]).bindings, id);
            var b' := FindById(After(s, EMPTY, events).bindings, id);
      b.Some? ==> b'.Some? && Extends(b.value, b'.value) && Distinct(b'.value.unlocked)
  {
    EmptyOk();
    RunOk(s, EMPTY, events);
    PrefixGrows(s, EMPTY, events, k);
    if FindById(After(s, EMPTY, events[..k]).bindings, id).Some? {
      GrowsFind(After(s, EMPTY, events[..k]).bindings, After(s, EMPTY, events).bindings, id);
    }
  }

  // ----- The last shown owns the port -----

  /** An asset whose routes were published for an attacker. */
  datatype Reveal = Reveal(attacker: string, bindingId: string, assetId: string, ports: seq<Port>)

  /** The start that unlocking an asset of a stored binding leads to. */
  function StartOfUnlock(s: Setting, w: World, b: Binding, assetId: string, override: Option<RuntimeSpec>, env: Env)
    : Option<Start>
  {
    StartOf(s, SaveBinding(w, WithUnlocked(b, [assetId], env.now)), b.id, b.attacker, assetId, override, env)
  }

  function RevealOf(s: Setting, w0: World, e: Event): Option<Reveal> {
    if !e.Act? || FindById(w0.bindings, e.id).None? then None
    else
      var w, b, env := w0.(clock := e.Time()), FindById(w0.bindings, e.id).value, e.env;
      match e.action
      case Unlock(a) =>
        var start := StartOfUnlock(s, w, b, a, None, env);
        if a == "" || start.None? then None else Some(Reveal(b.attacker, b.id, a, start.value.published))
      case Configure(a, c, target, runtime) =>
        if a == "" || c == "" || target.None? || target.value == "" then None
        else
          var b1 := WithRevealed(b, a, [c], env.now);
          var start := StartOfUnlock(s, RevealIn(w, b, a, c, runtime.Some?, env), b1, target.value, runtime, env);
          if start.None? then None else Some(Reveal(b.attacker, b.id, target.value, start.value.published))
      case _ => None
  }

  lemma StartOfRoutes(
      s: Setting, w: World, id: string, attacker: string, assetId: string, override: Option<RuntimeSpec>, env: Env)
    requires RecordsOk(w.plane.records) && !HasKey(w.plane.records, RuntimeIdOf, env.runtimeId)
    ensures var start := StartOf(s, w, id, attacker, assetId, override, env);
      StartIn(s, w, id, attacker, assetId, override, env).plane.routes ==
        if start.None? then w.plane.routes
        else Publish(w.plane.routes, attacker, id, assetId, start.value.published, env.now)
  {
    var found := FindTemplate(s.catalogue, assetId);
    if found.Some? {
      StartAssetOk(s.deployment, w.plane, env.runtimeId, id, found.value, attacker, false, override, env.outcome,
                   env.now);
    }
  }

  /** A step changes the route table only by publishing what it reveals. */
  lemma StepRoutes(s: Setting, w: World, e: Event)
    requires Inv(w) && Enabled(w, e)
    ensures var shown := RevealOf(s, w, e);
      Next(s, w, e).plane.routes ==
        if shown.None? then w.plane.routes
        else Publish(w.plane.routes, shown.value.attacker, shown.value.bindingId, shown.value.assetId,
                     shown.value.ports, e.Time())
    ensures RevealOf(s, w, e).Some? ==>
            BelongsTo(w.bindings, RevealOf(s, w, e).value.bindingId, RevealOf(s, w, e).value.attacker)
  {
    if e.Prewarm? {
      StartAssetOk(s.deployment, w.plane, e.env.runtimeId, e.id, e.template, "", true, None, e.env.outcome, e.env.now);
    } else if e.Act? && FindById(w.bindings, e.id).Some? {
      var b := FindById(w.bindings, e.id).value;
      var w1 := w.(clock := e.Time());
      assert Inv(w1);
      match e.action
      case Unlock(a) => UnlockRoutes(s, w1, b, a, None, e.env);
      case Configure(a, c, target, runtime) => ConfigureRoutes(s, w1, b, a, c, target, runtime, e.env);
      case _ =>
    }
  }

  lemma UnlockRoutes(s: Setting, w: World, b: Binding, assetId: string, override: Option<RuntimeSpec>, env: Env)
    requires RecordsOk(w.plane.records) && !HasKey(w.plane.records, RuntimeIdOf, env.runtimeId)
    ensures var start := StartOfUnlock(s, w, b, assetId, override, env);
      UnlockIn(s, w, b, assetId, override, env).plane.routes ==
        if start.None? then w.plane.routes
        else Publish(w.plane.routes, b.attacker, b.id, assetId, start.value.published, env.now)
  {
    StartOfRoutes(s, SaveBinding(w, WithUnlocked(b, [assetId], env.now)), b.id, b.attacker, assetId, override, env);
  }

  lemma ConfigureKeepsRoutes(w: World, id: string, assetId: string, configurationId: string)
    ensures ConfigureIn(w, id, assetId, configurationId).plane.routes == w.plane.routes
  {
  }

  lemma ShownByConfigure(
      s: Setting, w: World, b: Binding, a: string, c: string, target: Option<string>, runtime: Option<RuntimeSpec>,
      env: Env)
    requires FindById(w.bindings, b.id) == Some(b) && w.clock == env.now && a != "" && c != ""
    ensures RevealOf(s, w, Act(b.id, Configure(a, c, target, runtime), env)) ==
      if target.None? || target.value == "" then None
      else
        var start := StartOfUnlock(s, RevealIn(w, b, a, c, runtime.Some?, env), WithRevealed(b, a, [c], env.now),
                                   target.value, runtime, env);
        if start.None? then None else Some(Reveal(b.attacker, b.id, target.value, start.value.published))
  {
    assert w.(clock := env.now) == w;
  }

  lemma ConfigureRoutes(
      s: Setting, w: World, b: Binding, a: string, c: string, target: Option<string>, runtime: Option<RuntimeSpec>,
      env: Env)
    requires Inv(w) && FindById(w.bindings, b.id) == Some(b) && w.clock == env.now
    requires !HasKey(w.plane.records, RuntimeIdOf, env.runtimeId)
    ensures var shown := RevealOf(s, w, Act(b.id, Configure(a, c, target, runtime), env));
      ActOn(s, w, b, Configure(a, c, target, runtime), env).plane.routes ==
        if shown.None? then w.plane.routes
        else Publish(w.plane.routes, b.attacker, b.id, shown.value.assetId, shown.value.ports, env.now)
  {
    if a != "" && c != "" {
      RevealInOk(w, b, a, c, runtime.Some?, env);
      var b1 := WithRevealed(b, a, [c], env.now);
      var w1 := RevealIn(w, b, a, c, runtime.Some?, env);
      ShownByConfigure(s, w, b, a, c, target, runtime, env);
      if target.Some? && target.value != "" {
        UnlockRoutes(s, w1, b1, target.value, runtime, env);
        ConfigureKeepsRoutes(UnlockIn(s, w1, b1, target.value, runtime, env), b.id, a, c);
      } else {
        ConfigureKeepsRoutes(w1, b.id, a, c);
      }
    }
  }

  /** The reveal of a run that published the port for the client last. */
  ghost function LastReveal(s: Setting, events: seq<Event>, client: string, port: int): Option<Reveal>
    requires ValidRun(s, EMPTY, events)
    decreases |events|
  {
    if events == [] then None
    else
      var n := |events| - 1;
      var shown := RevealOf(s, After(s, EMPTY, events[..n]), events[n]);
      if shown.Some? && shown.value.attacker == client && Offers(shown.value.ports, port) then shown
      else LastReveal(s, events[..n], client, port)
  }

  /** Main result: in every run, the route a client gets on a port is the one published by the last
      reveal that offered that port to it, however many other assets share the port. */
  lemma {:induction false} LastRevealOwnsPort(s: Setting, events: seq<Event>, client: string, port: int)
    requires ValidRun(s, EMPTY, events)
    ensures var r := SelectRoute(After(s, EMPTY, events).plane.routes, client, port, false);
      var shown := LastReveal(s, events, client, port);
      && (r.Some? <==> shown.Some?)
      && (r.Some? ==> r.value.bindingId == shown.value.bindingId && r.value.assetId == shown.value.assetId
                      && Port(port, r.value.backendPort) in shown.value.ports)
    decreases |events|
  {
    EmptyOk();
    RunOk(s, EMPTY, events);
    var w := After(s, EMPTY, events);
    SelectIsLastRoute(w.plane.routes, client, port);
    if events != [] {
      var n := |events| - 1;
      var w0, e := After(s, EMPTY, events[..n]), events[n];
      RunOk(s, EMPTY, events[..n]);
      LastRevealOwnsPort(s, events[..n], client, port);
      SelectIsLastRoute(w0.plane.routes, client, port);
      StepRoutes(s, w0, e);
      var shown := RevealOf(s, w0, e);
      if shown.Some? {
        RoutesOfBinding(w0, shown.value.bindingId, shown.value.attacker);
        PublishOverwrites(w0.plane.routes, shown.value.attacker, shown.value.bindingId, shown.value.assetId,
                          shown.value.ports, e.Time(), client, port);
      }
    }
  }

  lemma RoutesOfBinding(w: World, id: string, attacker: string)
    requires RoutesOk(w.bindings, w.plane.routes) && BelongsTo(w.bindings, id, attacker)
    ensures BindingBelongsTo(w.plane.routes, id, attacker)
  {
    forall r | r in w.plane.routes && r.bindingId == id ensures r.attacker == attacker {
      assert BelongsTo(w.bindings, r.bindingId, r.attacker);
    }
  }

  /** Unlocking an asset that is unlocked already refreshes its route: when its backend runs behind
      the gateway, the attacker is sent back to it, even after a same-port upgrade to another. */
  lemma RefreshTakesPortBack(s: Setting, w: World, id: string, assetId: string, env: Env, port: int)
    requires Inv(w) && assetId != "" && Enabled(w, Act(id, Unlock(assetId), env))
    requires FindById(w.bindings, id).Some? && FindById(w.bindings, id).value.attacker != ""
    requires FindTemplate(s.catalogue, assetId).Some?
    requires GatewayBacked(s.deployment, FindTemplate(s.catalogue, assetId).value, None)
    requires var r := ExistingRunning(w.plane.records, id, assetId);
             r.Some? && r.value.managed && Offers(r.value.ports, port)
    ensures var client := FindById(w.bindings, id).value.attacker;
      var r := SelectRoute(Next(s, w, Act(id, Unlock(assetId), env)).plane.routes, client, port, false);
      r.Some? && r.value.bindingId == id && r.value.assetId == assetId
  {
    var e := Act(id, Unlock(assetId), env);
    var b := FindById(w.bindings, id).value;
    NextOk(s, w, e);
    StepRoutes(s, w, e);
    var shown := RevealOf(s, w, e);
    assert shown.Some? && shown.value.ports == ExistingRunning(w.plane.records, id, assetId).value.ports;
    RoutesOfBinding(w, id, b.attacker);
    PublishOverwrites(w.plane.routes, b.attacker, id, assetId, shown.value.ports, e.Time(), b.attacker, port);
    SelectIsLastRoute(Next(s, w, e).plane.routes, b.attacker, port);
  }

  // ----- Prewarming -----

  lemma {:induction false} AssetsWhereUnchanged(records: seq<Record>, r: Record, keep: Record -> bool)
    requires !keep(r)
    ensures AssetsWhere(records + [r], keep) == AssetsWhere(records, keep)
  {
    assert (records + [r])[..|records|] == records;
  }

  /** Prewarming changes neither bindings nor routes, and nothing becomes reachable by it, whatever
      containers are up. */
  lemma PrewarmShowsNothing(s: Setting, w: World, id: string, t: Template, env: Env, other: string, up: set<string>)
    requires Inv(w) && Enabled(w, Prewarm(id, t, env))
    ensures var w' := Next(s, w, Prewarm(id, t, env));
      && w'.bindings == w.bindings && w'.plane.routes == w.plane.routes && w'.exposure == w.exposure
      && AccessibleAssets(s.deployment, w'.plane.records, other, up)
          == AccessibleAssets(s.deployment, w.plane.records, other, up)
      && w.plane.records <= w'.plane.records
  {
    StepRoutes(s, w, Prewarm(id, t, env));
    var records, after := w.plane.records, Next(s, w, Prewarm(id, t, env)).plane.records;
    if after != records {
      assert IdOf(FindById(w.bindings, id).value) == id;
      WarmStartAppends(s.deployment, w.plane, env.runtimeId, id, t, env.outcome, env.now);
      var r := after[|records|];
      assert after == records + [r];
      AssetsWhereUnchanged(records, r, x => ComposeAccessible(x, other, up));
      AssetsWhereUnchanged(records, r, x => DockerAccessible(x, other, up));
      AssetsWhereUnchanged(records, r, x => MockAccessible(x, other));
    }
  }

  lemma WarmStartAppends(
      d: Deployment, p: Plane, id: string, bindingId: string, t: Template, outcome: StartOutcome, now: int)
    requires RecordsOk(p.records) && !HasKey(p.records, RuntimeIdOf, id)
    ensures var after := StartAsset(d, p, id, bindingId, t, "", true, None, outcome, now).plane.records;
      after == p.records || (|after| == |p.records| + 1 && after[..|p.records|] == p.records
                              && after[|p.records|].hidden)
  {
    var s := StartAsset(d, p, id, bindingId, t, "", true, None, outcome, now);
    if ExistingRunning(p.records, bindingId, t.id).None? {
      assert HasKey(p.records, RuntimeIdOf, RuntimeIdOf(s.record)) <==> HasKey(p.records, RuntimeIdOf, id);
    }
  }

  // ----- Recycling -----

  /** Recycling a binding stops all it runs and nothing else. */
  lemma RecycleStopsBinding(s: Setting, w: World, id: string, env: Env)
    requires Inv(w) && Enabled(w, Act(id, RecycleBinding, env)) && FindById(w.bindings, id).Some?
    ensures var w' := Next(s, w, Act(id, RecycleBinding, env));
      && (forall r :: r in w'.plane.records ==> !(r.bindingId == id && r.status.Running?))
      && |w'.plane.records| == |w.plane.records|
      && (forall i :: 0 <= i < |w.plane.records| && w.plane.records[i].bindingId != id ==>
            w'.plane.records[i] == w.plane.records[i])
      && w'.plane.routes == w.plane.routes
      && FindById(w'.bindings, id).Some? && FindById(w'.bindings, id).value.status.Recycled?
  {
    var b := FindById(w.bindings, id).value;
    StopIsComplete(w.plane.records, id, s.deployment, {});
    StoredIsDistinct(w, id);
    StatusUpdates(b, env.now, s.ttl, false);
    SaveGrows(w.bindings, b, RecycledBinding(b, false, env.now, s.ttl));
  }

  /** While nothing of the binding runs, a sync empties what the gateway exposes for it. */
  lemma SyncOfStoppedBinding(s: Setting, w: World, id: string, up: set<string>, notes: seq<Note>, now: int)
    requires FindById(w.bindings, id).Some?
    requires forall r :: r in w.plane.records ==> !(r.bindingId == id && r.status.Running?)
    ensures var w' := Next(s, w, Sync(id, up, notes, now));
      && (forall g :: g in w'.exposure && g.bindingId == id ==> g.exposed == []) && w'.plane == w.plane
  {
    var w1 := w.(clock := now);
    var b := FindById(w.bindings, id).value;
    var g := Exposure(s, w1, b, up, notes);
    UpsertFrame(w.exposure, GatewayIdOf, g);
    if g.exposed != [] {
      assert g.exposed[0] in AccessibleAssets(s.deployment, w.plane.records, id, up);
      AccessibleIsVisible(s.deployment, w.plane.records, id, up, g.exposed[0]);
    }
  }

  ghost predicate NothingRuns(w: World, id: string) {
    forall r :: r in w.plane.records ==> !(r.bindingId == id && r.status.Running?)
  }

  lemma RecycleLeavesNothing(s: Setting, w: World, id: string, action: Action, env: Env)
    requires Inv(w) && Enabled(w, Act(id, action, env)) && FindById(w.bindings, id).Some? && action.RecycleBinding?
    ensures var w' := Next(s, w, Act(id, action, env));
      NothingRuns(w', id) && FindById(w'.bindings, id).Some? && w'.plane.routes == w.plane.routes
  {
    RecycleStopsBinding(s, w, id, env);
  }

  lemma LastAction(s: Setting, w: World, id: string, actions: seq<Action>, envs: seq<Env>)
    requires |envs| == |actions| > 0
    ensures var n := |actions| - 1;
      After(s, w, ActEvents(id, actions, envs))
        == Next(s, After(s, w, ActEvents(id, actions[..n], envs[..n])), Act(id, actions[n], envs[n]))
  {
    var n := |actions| - 1;
    ActEventsLast(s, w, id, actions, envs, n);
    assert actions[..n + 1] == actions && envs[..n + 1] == envs;
  }

  lemma RecyclingRequestStops(s: Setting, w: World, id: string, actions: seq<Action>, envs: seq<Env>)
    requires Inv(w) && FindById(w.bindings, id).Some? && |envs| == |actions| > 0
    requires actions[|actions| - 1].RecycleBinding? && ValidRun(s, w, ActEvents(id, actions, envs))
    ensures var n, after := |actions| - 1, After(s, w, ActEvents(id, actions, envs));
      && NothingRuns(after, id) && FindById(after.bindings, id).Some?
      && after.plane.routes == After(s, w, ActEvents(id, actions[..n], envs[..n])).plane.routes
  {
    var n := |actions| - 1;
    BeforeAction(s, w, id, actions, envs, n);
    RecycleLeavesNothing(s, After(s, w, ActEvents(id, actions[..n], envs[..n])), id, actions[n], envs[n]);
    LastAction(s, w, id, actions, envs);
  }

  /** Main result: after a request that ends in a recycle, in whatever state it was made, nothing of
      the binding runs and the gateway exposes nothing for it, while the routes stay. */
  lemma RecyclingRequestExposesNothing(
      s: Setting, w: World, id: string, actions: seq<Action>, envs: seq<Env>, up: set<string>, notes: seq<Note>,
      now: int)
    requires Inv(w) && FindById(w.bindings, id).Some? && |envs| == |actions| > 0
    requires actions[|actions| - 1].RecycleBinding? && ValidRun(s, w, ActEvents(id, actions, envs))
    ensures var n := |actions| - 1;
      var after := Next(s, After(s, w, ActEvents(id, actions, envs)), Sync(id, up, notes, now));
      && NothingRuns(after, id) && (forall g :: g in after.exposure && g.bindingId == id ==> g.exposed == [])
      && after.plane.routes == After(s, w, ActEvents(id, actions[..n], envs[..n])).plane.routes
  {
    RecyclingRequestStops(s, w, id, actions, envs);
    SyncOfStoppedBinding(s, After(s, w, ActEvents(id, actions, envs)), id, up, notes, now);
  }
}
