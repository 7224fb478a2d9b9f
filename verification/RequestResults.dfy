/** What an orchestration request and a prewarming request leave behind: the entries of the route log,
    and hidden standbys. */
module RequestResults {
  import opened Wrappers
  import opened Iterables
  import opened ListStore
  import opened Bindings
  import opened Runtime
  import opened ControlPlane
  import opened Orchestrator
  import opened StartResults

  // ----- The route log -----

  /** An asset that was not open is exposed, one that was has its route refreshed. */
  ghost predicate LogsUnlock(b: Binding, assetId: string, note: Note) {
    note == if assetId in b.unlocked then RoutesTo(assetId) else Exposes(assetId)
  }

  /** What an action on the binding is logged as. */
  ghost predicate LogsAs(b: Binding, action: Action, notes: seq<Note>) {
    match action
    case Unlock(a) => if a == "" then notes == [] else |notes| == 1 && LogsUnlock(b, a, notes[0])
    case Configure(a, c, target, _) =>
      if a == "" || c == "" then notes == []
      else
        && |notes| == (if target.Some? && target.value != "" then 2 else 1) && notes[0] == Configures(a, c)
        && (|notes| == 2 ==> LogsUnlock(b, target.value, notes[1]))
    case RouteUpdate(reason) => notes == [Updated(reason)]
    case RecycleBinding => notes == [WasRecycled]
    case Noop => notes == []
  }

  /** Every action of a request is logged behind those before it, by the binding as it finds it. */
  lemma ActionsAreLogged(s: Setting, w: World, id: string, actions: seq<Action>, envs: seq<Env>)
    returns (more: seq<Note>)
    requires |envs| == |actions| > 0
    ensures var n := |actions| - 1;
      var before := After(s, w, ActEvents(id, actions[..n], envs[..n]));
      && NotesOfAll(s, w, id, actions, envs) == NotesOfAll(s, w, id, actions[..n], envs[..n]) + more
      && (FindById(before.bindings, id).Some? ==> LogsAs(FindById(before.bindings, id).value, actions[n], more))
  {
    var n := |actions| - 1;
    var b := FindById(After(s, w, ActEvents(id, actions[..n], envs[..n])).bindings, id);
    more := if b.None? then [] else NotesOf(b.value, actions[n]);
  }

  /** The entry of the binding in the gateway's list. */
  ghost predicate IsEntryAt(exposure: seq<GatewayState>, id: string, k: nat) {
    && k < |exposure| && exposure[k].bindingId == id
    && forall j :: k < j < |exposure| ==> exposure[j].bindingId != id
  }

  lemma {:induction false} EntryIsFound(exposure: seq<GatewayState>, id: string, k: nat)
    requires IsEntryAt(exposure, id, k)
    ensures FindExposure(exposure, id) == Some(exposure[k])
  {
    if k < |exposure| - 1 {
      EntryIsFound(exposure[..|exposure| - 1], id, k);
    }
  }

  /** Main result on the log: a sync puts the notes of the request behind those the binding has already,
      with its attacker and status. */
  lemma SyncAppends(s: Setting, w: World, i: nat, up: set<string>, notes: seq<Note>, now: int)
    returns (g: GatewayState)
    requires Inv(w) && i < |w.bindings|
    ensures var b := w.bindings[i];
      && g in Next(s, w, Sync(b.id, up, notes, now)).exposure
      && g.bindingId == b.id && g.attacker == b.attacker && g.status == b.status
      && (forall k: nat :: IsEntryAt(w.exposure, b.id, k) ==> g.notes == w.exposure[k].notes + notes)
      && ((forall x :: x in w.exposure ==> x.bindingId != b.id) ==> g.notes == notes)
  {
    var b := w.bindings[i];
    FindByIdUnique(w.bindings, i);
    g := Exposure(s, w.(clock := now), b, up, notes);
    UpsertFrame(w.exposure, GatewayIdOf, g);
    forall k: nat | IsEntryAt(w.exposure, b.id, k) ensures g.notes == w.exposure[k].notes + notes {
      EntryIsFound(w.exposure, b.id, k);
    }
  }

  // ----- Prewarming -----

  /** The catalogue wants the asset warm, the request does not rule it out, and it is not open yet. */
  ghost predicate IsWarmed(b: Binding, t: Template, requested: seq<string>) {
    && t.id !in b.unlocked && (requested != [] ==> t.id in requested)
    && t.runtime != None && t.runtime.value.warmStandby
  }

  /** Exactly these assets are started. */
  lemma {:induction false} WarmedIff(
      b: Binding, catalogue: seq<Template>, envs: seq<Env>, requested: seq<string>, e: Event)
    requires |envs| == |catalogue|
    ensures e in WarmEvents(b, catalogue, envs, requested) <==>
            exists i :: 0 <= i < |catalogue| && IsWarmed(b, catalogue[i], requested)
                        && e == Event.Prewarm(b.id, catalogue[i], envs[i])
  {
    if catalogue != [] {
      var n := |catalogue| - 1;
      WarmedIff(b, catalogue[..n], envs[..n], requested, e);
      assert forall i :: 0 <= i < n ==> catalogue[..n][i] == catalogue[i] && envs[..n][i] == envs[i];
    }
  }

  /** Main result on prewarming: the asset gets a backend behind all others, a running one on its ports
      unless the start fails, hidden and without a route. */
  lemma WarmedIsHidden(s: Setting, w: World, i: nat, t: Template, env: Env) returns (r: Record)
    requires Inv(w) && i < |w.bindings| && w.clock <= env.now
    requires forall x :: x in w.plane.records ==> x.runtimeId != env.runtimeId
    requires NothingRuns(w.plane.records, w.bindings[i].id, t.id)
    ensures var w' := Next(s, w, Event.Prewarm(w.bindings[i].id, t, env));
      && w'.plane == Plane(w.plane.records + [r], w.plane.routes)
      && r.bindingId == w.bindings[i].id && r.assetId == t.id && r.runtimeId == env.runtimeId && r.hidden
      && (if Fails(AdapterFor(s.deployment, t, None), None, env.outcome) then r.status == Failed
          else RunsAs(s.deployment, t, None, env.outcome, r))
  {
    var b, d := w.bindings[i], s.deployment;
    FindByIdUnique(w.bindings, i);
    var start := StartAsset(d, w.plane, env.runtimeId, b.id, t, "", true, None, env.outcome, env.now);
    NewBackend(d, w.plane, env.runtimeId, b.id, t, "", true, None, env.outcome, env.now);
    OthersStay(d, w.plane, env.runtimeId, b.id, t, "", true, None, env.outcome, env.now);
    var others, added := PublishedAreRouted(d, w.plane, env.runtimeId, b.id, t, "", true, None, env.outcome, env.now);
    r := start.record;
    WarmIsAppended(d, w.plane, env.runtimeId, b.id, t, env.outcome, env.now);
    assert Next(s, w, Event.Prewarm(b.id, t, env)).plane == start.plane;
  }

  lemma WarmIsAppended(
      d: Deployment, p: Plane, id: string, bindingId: string, t: Template, outcome: StartOutcome, now: int)
    requires RecordsOk(p.records) && (forall x :: x in p.records ==> x.runtimeId != id)
    requires NothingRuns(p.records, bindingId, t.id)
    ensures var s := StartAsset(d, p, id, bindingId, t, "", true, None, outcome, now);
      s.plane == Plane(p.records + [s.record], p.routes)
  {
    var s := StartAsset(d, p, id, bindingId, t, "", true, None, outcome, now);
    OthersStay(d, p, id, bindingId, t, "", true, None, outcome, now);
    assert !HasKey(p.records, RuntimeIdOf, id);
    NewBackend(d, p, id, bindingId, t, "", true, None, outcome, now);
    StartAssetOk(d, p, id, bindingId, t, "", true, None, outcome, now);
    assert s.plane.records == p.records + [s.record];
  }
}
