/** The orchestrator and the gateway service: applying a request's actions in order, then telling
    the gateway what is reachable. */
module Orchestrator {
  import opened Wrappers
  import opened ListStore
  import opened Bindings
  import opened Runtime
  import opened TemplateRuntime
  import opened ControlPlane

  // ----- Requests as sequences of events -----

  function ActEvents(id: string, actions: seq<Action>, envs: seq<Env>): (r: seq<Event>)
    requires |envs| == |actions|
    ensures |r| == |actions|
    ensures forall i :: 0 <= i < |r| ==> r[i] == Act(id, actions[i], envs[i])
  {
    seq(|actions|, i requires 0 <= i < |actions| => Act(id, actions[i], envs[i]))
  }

  function NotesOfAll(s: Setting, w: World, id: string, actions: seq<Action>, envs: seq<Env>): seq<Note>
    requires |envs| == |actions|
  {
    if actions == [] then []
    else
      var n := |actions| - 1;
      var b := FindById(After(s, w, ActEvents(id, actions[..n], envs[..n])).bindings, id);
      NotesOfAll(s, w, id, actions[..n], envs[..n]) + if b.None? then [] else NotesOf(b.value, actions[n])
  }

  lemma ActEventsLast(s: Setting, w: World, id: string, actions: seq<Action>, envs: seq<Env>, i: nat)
    requires |envs| == |actions| && i < |actions|
    ensures After(s, w, ActEvents(id, actions[..i + 1], envs[..i + 1]))
         == Next(s, After(s, w, ActEvents(id, actions[..i], envs[..i])), Act(id, actions[i], envs[i]))
    ensures NotesOfAll(s, w, id, actions[..i + 1], envs[..i + 1]) ==
            NotesOfAll(s, w, id, actions[..i], envs[..i]) +
            var b := FindById(After(s, w, ActEvents(id, actions[..i], envs[..i])).bindings, id);
            if b.None? then [] else NotesOf(b.value, actions[i])
  {
    var longer := ActEvents(id, actions[..i + 1], envs[..i + 1]);
    assert longer[..i] == ActEvents(id, actions[..i], envs[..i]);
    assert actions[..i + 1][..i] == actions[..i] && envs[..i + 1][..i] == envs[..i];
  }

  lemma {:induction false} ValidPrefix(s: Setting, w: World, events: seq<Event>, k: nat)
    requires ValidRun(s, w, events) && k <= |events|
    ensures ValidRun(s, w, events[..k])
    decreases |events|
  {
    if k == |events| {
      assert events[..k] == events;
    } else {
      ValidPrefix(s, w, events[..|events| - 1], k);
      assert events[..|events| - 1][..k] == events[..k];
    }
  }

  lemma EnabledInRun(s: Setting, w: World, events: seq<Event>, k: nat)
    requires ValidRun(s, w, events) && k < |events|
    ensures Enabled(After(s, w, events[..k]), events[k])
  {
    ValidPrefix(s, w, events, k + 1);
    assert events[..k + 1][..k] == events[..k];
  }

  /** The assets a prewarming request starts: requested ones (all, if none is named) that are not
      unlocked and that the catalogue marks as warm standbys. */
  predicate WantsWarm(b: Binding, t: Template, requested: seq<string>) {
    t.id !in b.unlocked && (requested == [] || t.id in requested)
    && t.runtime.Some? && t.runtime.value.warmStandby
  }

  function WarmEvents(b: Binding, catalogue: seq<Template>, envs: seq<Env>, requested: seq<string>): seq<Event>
    requires |envs| == |catalogue|
  {
    if catalogue == [] then []
    else
      var n := |catalogue| - 1;
      WarmEvents(b, catalogue[..n], envs[..n], requested) +
      if WantsWarm(b, catalogue[n], requested) then [Event.Prewarm(b.id, catalogue[n], envs[n])] else []
  }

  function LastTime(start: int, events: seq<Event>): int {
    if events == [] then start else events[|events| - 1].Time()
  }

  lemma WarmEventsLast(
      s: Setting, w: World, b: Binding, catalogue: seq<Template>, envs: seq<Env>, requested: seq<string>, i: nat)
    requires |envs| == |catalogue| && i < |catalogue|
    ensures var before, after := WarmEvents(b, catalogue[..i], envs[..i], requested),
                                 WarmEvents(b, catalogue[..i + 1], envs[..i + 1], requested);
      if WantsWarm(b, catalogue[i], requested)
      then After(s, w, after) == Next(s, After(s, w, before), Event.Prewarm(b.id, catalogue[i], envs[i]))
           && LastTime(0, after) == envs[i].now
      else after == before
  {
    assert catalogue[..i + 1][..i] == catalogue[..i] && envs[..i + 1][..i] == envs[..i];
    var before, after := WarmEvents(b, catalogue[..i], envs[..i], requested),
                         WarmEvents(b, catalogue[..i + 1], envs[..i + 1], requested);
    if WantsWarm(b, catalogue[i], requested) {
      assert after[..|before|] == before;
    }
  }

  lemma WarmStep(
      s: Setting, w: World, b: Binding, catalogue: seq<Template>, envs: seq<Env>, requested: seq<string>, i: nat,
      before: World, after: World)
    requires |envs| == |catalogue| && i < |catalogue| && FindById(before.bindings, b.id) == Some(b)
    requires after ==
             if WantsWarm(b, catalogue[i], requested) then WarmIn(s, before, b.id, catalogue[i], envs[i]) else before
    requires var events := WarmEvents(b, catalogue[..i], envs[..i], requested);
             before.(clock := LastTime(0, events)) == After(s, w, events)
    ensures var events := WarmEvents(b, catalogue[..i + 1], envs[..i + 1], requested);
            after.(clock := LastTime(0, events)) == After(s, w, events)
  {
    WarmEventsLast(s, w, b, catalogue, envs, requested, i);
  }

  // ----- The gateway's view -----

  class GatewayService {
    var states: seq<GatewayState>

    constructor ()
      ensures states == []
    {
      states := [];
    }

    method Sync(b: Binding, notes: seq<Note>, exposed: seq<string>)
      modifies this
      ensures var earlier := FindExposure(old(states), b.id);
        states == Upsert(old(states), GatewayIdOf,
          GatewayState(b.id, b.attacker, b.status, exposed,
                       (if earlier.Some? then earlier.value.notes else []) + notes))
    {
      var existing := FindExposure(states, b.id);
      var routeUpdates := if existing.Some? then existing.value.notes else [];
      routeUpdates := routeUpdates + notes;
      states := UpsertListItem(states, GatewayIdOf, GatewayState(b.id, b.attacker, b.status, exposed, routeUpdates));
    }
  }

  // ----- The orchestrator -----

  class OrchestratorService {
    const bindings: BindingService
    const gateway: GatewayService
    const runtime: HybridRuntime
    const catalogue: seq<Template>

    constructor (bindings: BindingService, gateway: GatewayService, runtime: HybridRuntime, catalogue: seq<Template>)
      ensures this.bindings == bindings && this.gateway == gateway && this.runtime == runtime
      ensures this.catalogue == catalogue
    {
      this.bindings, this.gateway, this.runtime, this.catalogue := bindings, gateway, runtime, catalogue;
    }

    function Configuration(): Setting {
      Setting(runtime.deployment, bindings.ttl, catalogue)
    }

    function State(clock: int): World
      reads bindings.repository, runtime, gateway
    {
      World(bindings.repository.records, runtime.State(), gateway.states, clock)
    }

    /** Starts the runtime of one unlocked asset when the catalogue knows it. */
    method StartAssetRuntime(b: Binding, assetId: string, override: Option<RuntimeSpec>, env: Env)
      modifies runtime
      ensures State(env.now) == StartIn(Configuration(), old(State(env.now)), b.id, b.attacker, assetId, override, env)
    {
      var template := FindTemplate(catalogue, assetId);
      if template.Some? {
        var _ := runtime.Start(env.runtimeId, b.id, template.value, b.attacker, false, override, env.outcome, env.now);
      }
    }

    /** Persists the unlock and says whether the asset is new or has its route refreshed. */
    method ApplyUnlock(b: Binding, assetId: string, now: int) returns (updated: Binding, note: Note)
      requires FindById(bindings.repository.records, b.id) == Some(b)
      modifies bindings.repository
      ensures updated == WithUnlocked(b, [assetId], now) && note == UnlockNote(b, assetId)
      ensures State(now) == SaveBinding(old(State(now)), updated)
    {
      var previous := b.unlocked;
      var r := bindings.UnlockAssets(b.id, [assetId], now);
      updated := r.value;
      note := if assetId !in previous then Exposes(assetId) else RoutesTo(assetId);
    }

    method UnlockAndStart(b: Binding, assetId: string, override: Option<RuntimeSpec>, env: Env)
      returns (updated: Binding, note: Note)
      requires FindById(bindings.repository.records, b.id) == Some(b)
      modifies bindings.repository, runtime
      ensures updated == WithUnlocked(b, [assetId], env.now) && note == UnlockNote(b, assetId)
      ensures State(env.now) == UnlockIn(Configuration(), old(State(env.now)), b, assetId, override, env)
    {
      updated, note := ApplyUnlock(b, assetId, env.now);
      StartAssetRuntime(updated, note.assetId, override, env);
    }

    /** Records the reveal; the running backend follows at once unless it is about to be swapped. */
    method RecordConfiguration(b: Binding, assetId: string, configurationId: string, swaps: bool, env: Env)
      returns (updated: Binding)
      requires FindById(bindings.repository.records, b.id) == Some(b)
      modifies bindings.repository, runtime
      ensures updated == WithRevealed(b, assetId, [configurationId], env.now)
      ensures State(env.now) == RevealIn(old(State(env.now)), b, assetId, configurationId, swaps, env)
    {
      OneRevealed(b, assetId, [configurationId], env.now);
      var r := bindings.RevealConfigurations(b.id, [(assetId, [configurationId])], env.now);
      updated := r.value;
      if !swaps {
        var _ := runtime.Configure(b.id, assetId, configurationId);
      }
    }

    /** The asset that a configuration exposes, if it names one. */
    method RevealTarget(b: Binding, target: Option<string>, override: Option<RuntimeSpec>, env: Env)
      returns (updated: Binding, notes: seq<Note>)
      requires FindById(bindings.repository.records, b.id) == Some(b)
      modifies bindings.repository, runtime
      ensures updated == WithTarget(b, target, env.now) && notes == TargetNotes(b, target)
      ensures State(env.now) == TargetIn(Configuration(), old(State(env.now)), b, target, override, env)
    {
      updated, notes := b, [];
      if target.Some? && target.value != "" {
        var note;
        updated, note := UnlockAndStart(b, target.value, override, env);
        notes := [note];
      }
    }

    method ApplyConfigure(b: Binding, action: Action, env: Env) returns (updated: Binding, notes: seq<Note>)
      requires action.Configure? && action.assetId != "" && action.configurationId != ""
      requires FindById(bindings.repository.records, b.id) == Some(b) && Inv(State(env.now))
      modifies bindings.repository, runtime
      ensures notes == NotesOf(b, action) && updated == Acted(Configuration(), b, action, env)
      ensures State(env.now) == ActOn(Configuration(), old(State(env.now)), b, action, env)
    {
      var Configure(a, c, target, targetRuntime) := action;
      RevealInStores(State(env.now), b, a, c, targetRuntime.Some?, env);
      updated := RecordConfiguration(b, a, c, targetRuntime.Some?, env);
      var more;
      updated, more := RevealTarget(updated, target, targetRuntime, env);
      SameNotes(b, a, c, target, env.now);
      notes := [Configures(a, c)] + more;
      if targetRuntime.Some? {
        // The configuration follows the backend that has just been swapped in.
        var _ := runtime.Configure(b.id, a, c);
      }
    }

    method ApplyAction(b: Binding, action: Action, env: Env) returns (updated: Binding, notes: seq<Note>)
      requires FindById(bindings.repository.records, b.id) == Some(b) && Inv(State(env.now))
      modifies bindings.repository, runtime
      ensures notes == NotesOf(b, action) && updated == Acted(Configuration(), b, action, env)
      ensures State(env.now) == ActOn(Configuration(), old(State(env.now)), b, action, env)
    {
      updated, notes := b, [];
      match action
      case Unlock(a) =>
        if a != "" {
          var note;
          updated, note := UnlockAndStart(b, a, None, env);
          notes := [note];
        }
      case Configure(a, c, _, _) =>
        if a != "" && c != "" {
          updated, notes := ApplyConfigure(b, action, env);
        }
      case RouteUpdate(reason) =>
        notes := [Updated(reason)];
      case RecycleBinding =>
        var _ := runtime.StopBindingRuntimes(b.id);
        var r := bindings.Recycle(b.id, false, env.now);
        updated := r.value;
        notes := [WasRecycled];
      case Noop =>
    }

    /** One action, seen as one event of the control plane. */
    method ApplyNext(
        b: Binding, action: Action, env: Env, ghost clock: int) returns (updated: Binding, notes: seq<Note>)
      requires FindById(bindings.repository.records, b.id) == Some(b) && Inv(State(clock))
      requires Enabled(State(clock), Act(b.id, action, env))
      modifies bindings.repository, runtime
      ensures notes == NotesOf(b, action)
      ensures State(env.now) == Next(Configuration(), old(State(clock)), Act(b.id, action, env))
      ensures Inv(State(env.now))
      ensures FindById(bindings.repository.records, updated.id) == Some(updated) && updated.id == b.id
    {
      ghost var s, w := Configuration(), State(env.now);
      assert Inv(w);
      ActOnOk(s, w, b, action, env);
      updated, notes := ApplyAction(b, action, env);
    }

    /** An unknown binding raises before anything happens. */
    method Apply(id: string, actions: seq<Action>, envs: seq<Env>, up: set<string>, ghost start: int, now: int)
      returns (r: Option<Binding>)
      requires |envs| == |actions| && Inv(State(start))
      requires ValidRun(Configuration(), State(start), ActEvents(id, actions, envs))
      modifies bindings.repository, runtime, gateway
      ensures FindById(old(bindings.repository.records), id).None? ==> r == None && State(start) == old(State(start))
      ensures FindById(old(bindings.repository.records), id).Some? ==>
        var w := old(State(start));
        State(now) == Next(Configuration(), After(Configuration(), w, ActEvents(id, actions, envs)),
                           Sync(id, up, NotesOfAll(Configuration(), w, id, actions, envs), now))
    {
      var found := bindings.repository.GetByBinding(id);
      if found.None? {
        return None;
      }
      var b, notes := ApplyAll(found.value, actions, envs, start);
      ApplySync(b, notes, up, if actions == [] then start else envs[|envs| - 1].now, now);
      r := Some(b);
    }

    /** The actions in order; each sees what the earlier ones did. */
    method ApplyAll(b0: Binding, actions: seq<Action>, envs: seq<Env>, ghost start: int)
      returns (b: Binding, notes: seq<Note>)
      requires |envs| == |actions| && Inv(State(start))
      requires FindById(bindings.repository.records, b0.id) == Some(b0)
      requires ValidRun(Configuration(), State(start), ActEvents(b0.id, actions, envs))
      modifies bindings.repository, runtime
      ensures State(if actions == [] then start else envs[|envs| - 1].now)
           == After(Configuration(), old(State(start)), ActEvents(b0.id, actions, envs))
      ensures notes == NotesOfAll(Configuration(), old(State(start)), b0.id, actions, envs)
      ensures FindById(bindings.repository.records, b.id) == Some(b) && b.id == b0.id
    {
      b, notes := b0, [];
      ghost var s, w, clock := Configuration(), State(start), start;
      for i := 0 to |actions|
        invariant clock == if i == 0 then start else envs[i - 1].now
        invariant State(clock) == After(s, w, ActEvents(b0.id, actions[..i], envs[..i]))
        invariant Inv(State(clock)) && FindById(bindings.repository.records, b.id) == Some(b) && b.id == b0.id
        invariant notes == NotesOfAll(s, w, b0.id, actions[..i], envs[..i])
      {
        ActEventsLast(s, w, b0.id, actions, envs, i);
        ActEnabled(s, w, b0.id, actions, envs, i);
        var more;
        b, more := ApplyNext(b, actions[i], envs[i], clock);
        clock := envs[i].now;
        notes := notes + more;
      }
      assert actions[..|actions|] == actions && envs[..|envs|] == envs;
    }

    /** Warms hidden standbys without telling the gateway. */
    method Prewarm(id: string, requested: seq<string>, envs: seq<Env>)
      requires |envs| == |catalogue|
      modifies runtime
      ensures FindById(bindings.repository.records, id).None? ==> State(0) == old(State(0))
      ensures FindById(bindings.repository.records, id).Some? ==>
        var b := FindById(bindings.repository.records, id).value;
        State(0).(clock := LastTime(0, WarmEvents(b, catalogue, envs, requested)))
          == After(Configuration(), old(State(0)), WarmEvents(b, catalogue, envs, requested))
    {
      var found := bindings.repository.GetByBinding(id);
      if found.None? {
        return;
      }
      var b := found.value;
      ghost var s, w := Configuration(), State(0);
      for i := 0 to |catalogue|
        invariant State(0).(clock := LastTime(0, WarmEvents(b, catalogue[..i], envs[..i], requested)))
               == After(s, w, WarmEvents(b, catalogue[..i], envs[..i], requested))
      {
        ghost var before := State(0);
        WarmIfWanted(b, catalogue[i], requested, envs[i]);
        WarmStep(s, w, b, catalogue, envs, requested, i, before, State(0));
      }
      assert catalogue[..|catalogue|] == catalogue && envs[..|envs|] == envs;
    }

    method WarmIfWanted(b: Binding, t: Template, requested: seq<string>, env: Env)
      modifies runtime
      ensures State(0) == if WantsWarm(b, t, requested) then WarmIn(Configuration(), old(State(0)), b.id, t, env)
                          else old(State(0))
    {
      if WantsWarm(b, t, requested) {
        var _ := runtime.Start(env.runtimeId, b.id, t, "", true, None, env.outcome, env.now);
      }
    }

    /** The gateway is told what is reachable now, not what is unlocked. */
    method ApplySync(b: Binding, notes: seq<Note>, up: set<string>, ghost clock: int, now: int)
      requires FindById(bindings.repository.records, b.id) == Some(b)
      modifies gateway
      ensures State(now) == Next(Configuration(), old(State(clock)), Sync(b.id, up, notes, now))
    {
      var exposed := AccessibleAssets(runtime.deployment, runtime.records, b.id, up);
      gateway.Sync(b, notes, exposed);
    }
  }

  /** Recording a configuration does not change what counts as unlocked before. */
  lemma SameNotes(b: Binding, a: string, c: string, target: Option<string>, now: int)
    ensures TargetNotes(WithRevealed(b, a, [c], now), target) == TargetNotes(b, target)
  {
  }

  lemma ActEnabled(s: Setting, w: World, id: string, actions: seq<Action>, envs: seq<Env>, i: nat)
    requires |envs| == |actions| && i < |actions|
    requires ValidRun(s, w, ActEvents(id, actions, envs))
    ensures Enabled(After(s, w, ActEvents(id, actions[..i], envs[..i])), Act(id, actions[i], envs[i]))
  {
    var events := ActEvents(id, actions, envs);
    EnabledInRun(s, w, events, i);
    assert events[..i] == ActEvents(id, actions[..i], envs[..i]);
  }

  /** The state in which an action of a request is applied. */
  lemma BeforeAction(s: Setting, w: World, id: string, actions: seq<Action>, envs: seq<Env>, i: nat)
    requires Inv(w) && FindById(w.bindings, id).Some? && |envs| == |actions| && i < |actions|
    requires ValidRun(s, w, ActEvents(id, actions, envs))
    ensures var before := After(s, w, ActEvents(id, actions[..i], envs[..i]));
      && Inv(before) && FindById(before.bindings, id).Some? && Enabled(before, Act(id, actions[i], envs[i]))
      && Grows(w.bindings, before.bindings)
  {
    var events := ActEvents(id, actions, envs);
    ActEnabled(s, w, id, actions, envs, i);
    assert events[..i] == ActEvents(id, actions[..i], envs[..i]);
    ValidPrefix(s, w, events, i);
    RunOk(s, w, events[..i]);
    GrowsFind(w.bindings, After(s, w, events[..i]).bindings, id);
  }

  /** From the state after an action of a request to its end bindings only grow. */
  lemma AfterAction(s: Setting, w: World, id: string, actions: seq<Action>, envs: seq<Env>, i: nat)
    requires Inv(w) && |envs| == |actions| && i < |actions|
    requires ValidRun(s, w, ActEvents(id, actions, envs))
    ensures var before := After(s, w, ActEvents(id, actions[..i], envs[..i]));
      && Inv(Next(s, before, Act(id, actions[i], envs[i]))) && Inv(After(s, w, ActEvents(id, actions, envs)))
      && Grows(Next(s, before, Act(id, actions[i], envs[i])).bindings,
            After(s, w, ActEvents(id, actions, envs)).bindings)
  {
    var events := ActEvents(id, actions, envs);
    assert events[..i] == ActEvents(id, actions[..i], envs[..i]);
    StateInRun(s, w, events, i);
  }

  /** The states before and after a step of a run. */
  lemma StateInRun(s: Setting, w: World, events: seq<Event>, i: nat)
    requires Inv(w) && ValidRun(s, w, events) && i < |events|
    ensures var before := After(s, w, events[..i]);
      && Inv(before) && Grows(w.bindings, before.bindings)
      && Inv(Next(s, before, events[i])) && Grows(Next(s, before, events[i]).bindings, After(s, w, events).bindings)
    ensures Inv(After(s, w, events))
  {
    PrefixGrows(s, w, events, i + 1);
    ValidPrefix(s, w, events, i);
    assert events[..i + 1][..i] == events[..i];
    RunOk(s, w, events[..i]);
    RunOk(s, w, events);
  }
}
