/** What unlocking an asset brings about in the honeynet: the asset is put up or shown, the gateway
    lists it, and its attacker is sent to it. */
module UnlockResults {
  import opened Wrappers
  import opened Iterables
  import opened ListStore
  import opened Bindings
  import opened RouteTable
  import opened Runtime
  import opened ControlPlane
  import opened StartResults

  /** `t` is the catalogue's template for its id. */
  ghost predicate IsListed(catalogue: seq<Template>, t: Template) {
    t in catalogue && forall x :: x in catalogue && x.id == t.id ==> x == t
  }

  lemma {:induction false} ListedIsFound(catalogue: seq<Template>, t: Template)
    requires IsListed(catalogue, t)
    ensures FindTemplate(catalogue, t.id) == Some(t)
  {
    assert catalogue[0] in catalogue;
    if catalogue[0].id != t.id {
      ListedIsFound(catalogue[1..], t);
    }
  }

  /** The binding may unlock the asset in this step. */
  ghost predicate CanUnlock(s: Setting, w: World, b: Binding, t: Template, env: Env) {
    && Inv(w) && b in w.bindings && IsListed(s.catalogue, t) && t.id != ""
    && w.clock <= env.now && (forall r :: r in w.plane.records ==> r.runtimeId != env.runtimeId)
  }

  function Unlocked(s: Setting, w: World, b: Binding, t: Template, env: Env): World {
    Next(s, w, Act(b.id, Unlock(t.id), env))
  }

  /** An unlock starts the runtime of the asset, for the attacker and not as a standby. */
  lemma UnlockStarts(s: Setting, w: World, b: Binding, t: Template, env: Env)
    requires CanUnlock(s, w, b, t, env)
    ensures Enabled(w, Act(b.id, Unlock(t.id), env)) && Inv(Unlocked(s, w, b, t, env))
    ensures Unlocked(s, w, b, t, env).plane ==
            StartAsset(s.deployment, w.plane, env.runtimeId, b.id, t, b.attacker, false, None, env.outcome,
                       env.now).plane
    ensures Unlocked(s, w, b, t, env).clock == env.now
    ensures BelongsTo(Unlocked(s, w, b, t, env).bindings, b.id, b.attacker)
  {
    ListedIsFound(s.catalogue, t);
    var i :| 0 <= i < |w.bindings| && w.bindings[i] == b;
    FindByIdUnique(w.bindings, i);
    assert !HasKey(w.plane.records, RuntimeIdOf, env.runtimeId);
    NextOk(s, w, Act(b.id, Unlock(t.id), env));
    GrowsFind(w.bindings, Unlocked(s, w, b, t, env).bindings, b.id);
  }

  /** The gateway's entry for the binding, after it was told which containers are up. */
  ghost predicate ListedFor(w: World, b: Binding, assetId: string) {
    exists g :: g in w.exposure && g.bindingId == b.id && g.attacker == b.attacker && assetId in g.exposed
  }

  lemma SyncLists(s: Setting, w: World, b: Binding, up: set<string>, notes: seq<Note>, now: int, r: Record)
    requires BelongsTo(w.bindings, b.id, b.attacker)
    requires r in w.plane.records && r.bindingId == b.id && r.status == Running && !r.hidden
    requires r.backend == Docker ==> r.runtimeId in up
    ensures ListedFor(Next(s, w, Sync(b.id, up, notes, now)), b, r.assetId)
    ensures Next(s, w, Sync(b.id, up, notes, now)).plane == w.plane
  {
    var stored := FindById(w.bindings, b.id).value;
    var g := Exposure(s, w.(clock := now), stored, up, notes);
    AccessibleIff(s.deployment, w.plane.records, b.id, up, r.assetId);
    UpsertFrame(w.exposure, GatewayIdOf, g);
  }

  lemma {:induction false} LastIsFound(routes: seq<Route>, i: nat)
    requires i < |routes|
    requires forall j :: i < j < |routes| ==>
               routes[j].attacker != routes[i].attacker || routes[j].publicPort != routes[i].publicPort
    ensures LastRoute(routes, routes[i].attacker, routes[i].publicPort) == Some(routes[i])
  {
    if i < |routes| - 1 {
      LastIsFound(routes[..|routes| - 1], i);
    }
  }

  /** The port of a mapping, when no later mapping claims it too. */
  ghost predicate IsLastOn(d: Deployment, assetId: string, mappings: seq<PortMapping>, k: nat, p: Port) {
    && k < |mappings| && IsMapped(d, assetId, mappings[k], p)
    && forall j, q :: k < j < |mappings| && IsMapped(d, assetId, mappings[j], q) ==> q.public != p.public
  }

  /** Where the published ports lead. */
  lemma PublishedLeadThere(
      s: Setting, w: World, b: Binding, t: Template, env: Env, ports: seq<Port>, k: nat)
    requires CanUnlock(s, w, b, t, env) && k < |ports|
    requires StartAsset(s.deployment, w.plane, env.runtimeId, b.id, t, b.attacker, false, None, env.outcome,
                        env.now).published == ports
    requires forall j :: k < j < |ports| ==> ports[j].public != ports[k].public
    ensures SelectRoute(Unlocked(s, w, b, t, env).plane.routes, b.attacker, ports[k].public, false)
         == Some(Route(b.attacker, b.id, t.id, ports[k].public, ports[k].backend, env.now))
  {
    UnlockStarts(s, w, b, t, env);
    var routes := Unlocked(s, w, b, t, env).plane.routes;
    var others, added := PublishedAreRouted(s.deployment, w.plane, env.runtimeId, b.id, t, b.attacker, false, None,
                                            env.outcome, env.now);
    assert routes[|others| + k] == added[k];
    LastIsFound(routes, |others| + k);
    SelectIsLastRoute(routes, b.attacker, ports[k].public);
  }

  /** Main result: an asset that does not run yet and comes up when it is unlocked is in the exposed
      list after the next sync that finds it up. */
  lemma NewAssetIsExposed(
      s: Setting, w: World, b: Binding, t: Template, env: Env, up: set<string>, notes: seq<Note>, synced: int)
    requires CanUnlock(s, w, b, t, env) && NothingRuns(w.plane.records, b.id, t.id)
    requires !Fails(AdapterFor(s.deployment, t, None), None, env.outcome)
    requires AdapterFor(s.deployment, t, None) == Docker ==> env.runtimeId in up
    ensures ListedFor(Next(s, Unlocked(s, w, b, t, env), Sync(b.id, up, notes, synced)), b, t.id)
  {
    var w1 := Unlocked(s, w, b, t, env);
    UnlockStarts(s, w, b, t, env);
    NewBackend(s.deployment, w.plane, env.runtimeId, b.id, t, b.attacker, false, None, env.outcome, env.now);
    OthersStay(s.deployment, w.plane, env.runtimeId, b.id, t, b.attacker, false, None, env.outcome, env.now);
    var r := w1.plane.records[|w.plane.records|];
    assert r in w1.plane.records && r.assetId == t.id;
    SyncLists(s, w1, b, up, notes, synced, r);
  }

  /** Main result: and if the gateway manages it, then from the unlock on its attacker is sent to it on
      every port that it maps. */
  lemma NewAssetIsReached(
      s: Setting, w: World, b: Binding, t: Template, env: Env, up: set<string>, notes: seq<Note>, synced: int,
      k: nat, p: Port)
    requires CanUnlock(s, w, b, t, env) && NothingRuns(w.plane.records, b.id, t.id) && b.attacker != ""
    requires AdapterFor(s.deployment, t, None) != Mock && env.outcome == ComesUp(true)
    requires AdapterFor(s.deployment, t, None) == Docker ==> s.deployment.gatewayEnabled && t.isInternal
    requires IsLastOn(s.deployment, t.id, t.runtime.value.ports, k, p)
    ensures var w2 := Next(s, Unlocked(s, w, b, t, env), Sync(b.id, up, notes, synced));
      SelectRoute(w2.plane.routes, b.attacker, p.public, false)
        == Some(Route(b.attacker, b.id, t.id, p.public, t.runtime.value.ports[k].container, env.now))
  {
    var ports := StartAsset(s.deployment, w.plane, env.runtimeId, b.id, t, b.attacker, false, None, env.outcome,
                            env.now).published;
    NewBackend(s.deployment, w.plane, env.runtimeId, b.id, t, b.attacker, false, None, env.outcome, env.now);
    SamePorts(s.deployment, t.id, t.runtime.value.ports, ports, k, p);
    PublishedLeadThere(s, w, b, t, env, ports, k);
    var w1 := Unlocked(s, w, b, t, env);
    SyncKeepsPlane(s, w1, b.id, up, notes, synced);
  }

  lemma SyncKeepsPlane(s: Setting, w: World, id: string, up: set<string>, notes: seq<Note>, now: int)
    ensures Next(s, w, Sync(id, up, notes, now)).plane == w.plane
  {
  }

  lemma SamePorts(
      d: Deployment, assetId: string, mappings: seq<PortMapping>, ports: seq<Port>, k: nat, p: Port)
    requires OnMappedPorts(d, assetId, mappings, ports) && IsLastOn(d, assetId, mappings, k, p)
    ensures ports[k] == p && forall j :: k < j < |ports| ==> ports[j].public != ports[k].public
  {
    assert IsMapped(d, assetId, mappings[k], ports[k]);
    forall j | k < j < |ports| ensures ports[j].public != ports[k].public {
      assert IsMapped(d, assetId, mappings[j], ports[j]);
    }
  }

  /** Main result on standbys and refreshes: a backend that runs behind the gateway already is shown by
      an unlock, and its attacker is sent to it, on the last of its ports for each public port. */
  lemma RunningAssetIsShown(
      s: Setting, w: World, b: Binding, t: Template, env: Env, up: set<string>, notes: seq<Note>, synced: int,
      r: Record, k: nat)
    requires CanUnlock(s, w, b, t, env) && b.attacker != "" && AdapterFor(s.deployment, t, None) != Mock
    requires r in w.plane.records && r.bindingId == b.id && r.assetId == t.id && r.status == Running && r.managed
    requires r.backend == Docker ==> r.runtimeId in up
    requires k < |r.ports| && forall j :: k < j < |r.ports| ==> r.ports[j].public != r.ports[k].public
    ensures var w2 := Next(s, Unlocked(s, w, b, t, env), Sync(b.id, up, notes, synced));
      && ListedFor(w2, b, t.id)
      && SelectRoute(w2.plane.routes, b.attacker, r.ports[k].public, false)
           == Some(Route(b.attacker, b.id, t.id, r.ports[k].public, r.ports[k].backend, env.now))
  {
    var w1 := Unlocked(s, w, b, t, env);
    UnlockStarts(s, w, b, t, env);
    RunningBackend(s.deployment, w.plane, env.runtimeId, b.id, t, b.attacker, false, env.outcome, env.now, r);
    var i :| 0 <= i < |w.plane.records| && w.plane.records[i] == r;
    var shown := r.(hidden := false);
    assert w1.plane.records[i] == shown;
    SyncLists(s, w1, b, up, notes, synced, shown);
    PublishedLeadThere(s, w, b, t, env, r.ports, k);
  }
}
