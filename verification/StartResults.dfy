/** What starting an asset comes to, field by field: which backend is put up, whether it runs, its
    ports and routes, and what happens to a backend that ran before. */
module StartResults {
  import opened Wrappers
  import opened Iterables
  import opened ListStore
  import opened RouteTable
  import opened Runtime

  /** The adapter an asset is given to. A runtime that comes with a configuration is always for
      Docker; without an adapter for Compose its assets are mocked. */
  ghost function AdapterFor(d: Deployment, t: Template, override: Option<RuntimeSpec>): Backend {
    if override.Some? then Docker
    else if t.runtime.None? then Mock
    else if t.runtime.value.backend == Compose && !d.hasCompose then Mock
    else t.runtime.value.backend
  }

  ghost predicate NothingRuns(records: seq<Record>, bindingId: string, assetId: string) {
    forall r :: r in records ==> r.bindingId != bindingId || r.assetId != assetId || r.status != Running
  }

  /** The record is on the mapped ports: an override of the deployment, else the requested port, else
      the one inside the container. */
  ghost predicate OnMappedPorts(d: Deployment, assetId: string, mappings: seq<PortMapping>, ports: seq<Port>) {
    |ports| == |mappings| && forall i :: 0 <= i < |ports| ==> IsMapped(d, assetId, mappings[i], ports[i])
  }

  ghost predicate IsMapped(d: Deployment, assetId: string, m: PortMapping, p: Port) {
    && p.backend == m.container
    && (assetId in d.portOverride ==> p.public == d.portOverride[assetId])
    && (assetId !in d.portOverride && m.requested.Some? ==> p.public == m.requested.value)
    && (assetId !in d.portOverride && m.requested.None? ==> p.public == m.container)
  }

  lemma {:induction false} PortsAreMapped(d: Deployment, assetId: string, mappings: seq<PortMapping>)
    ensures OnMappedPorts(d, assetId, mappings, ResolvePorts(d, assetId, mappings))
  {
    if mappings != [] {
      PortsAreMapped(d, assetId, mappings[..|mappings| - 1]);
    }
  }

  lemma NothingIsFound(records: seq<Record>, bindingId: string, assetId: string)
    ensures NothingRuns(records, bindingId, assetId) <==> ExistingRunning(records, bindingId, assetId).None?
  {
    var found := ExistingRunning(records, bindingId, assetId);
    if found.Some? {
      assert found.value in records && IsRunning(found.value, bindingId, assetId);
    } else {
      forall r | r in records ensures r.bindingId != bindingId || r.assetId != assetId || r.status != Running {
        assert !IsRunning(r, bindingId, assetId);
      }
    }
  }

  /** The start fails: the adapter for Docker is given something else, or nothing comes up. */
  ghost predicate Fails(adapter: Backend, override: Option<RuntimeSpec>, outcome: StartOutcome) {
    || (adapter == Docker && (!outcome.ComesUp? || (override.Some? && override.value.backend != Docker)))
    || (adapter == Compose && !outcome.ComesUp?)
  }

  /** The record of a start that did not fail. */
  ghost predicate RunsAs(
      d: Deployment, t: Template, override: Option<RuntimeSpec>, outcome: StartOutcome, r: Record)
  {
    var adapter := AdapterFor(d, t, override);
    && r.status == Running
    && (adapter == Mock ==> r.ports == [] && !r.managed)
    && (adapter == Compose ==>
          && (outcome == ComesUp(true) ==> OnMappedPorts(d, t.id, t.runtime.value.ports, r.ports))
          && (outcome == ComesUp(false) ==> r.ports == [])
          && (r.managed <==> r.ports != []))
    && (adapter == Docker ==>
          && OnMappedPorts(d, t.id, (if override.Some? then override else t.runtime).value.ports, r.ports)
          && (r.managed <==> d.gatewayEnabled && t.isInternal && r.ports != []))
  }

  /** What a start that finds nothing to show leads to. */
  ghost predicate IsNewBackend(
      d: Deployment, id: string, bindingId: string, t: Template, attacker: string, warm: bool,
      override: Option<RuntimeSpec>, outcome: StartOutcome, s: Start)
  {
    var r, adapter := s.record, AdapterFor(d, t, override);
    && r.runtimeId == id && r.bindingId == bindingId && r.assetId == t.id && r.backend == adapter
    && r.hidden == warm && r.configurations == []
    && (if Fails(adapter, override, outcome) then r.status == Failed && r.ports == [] && !r.managed
        else RunsAs(d, t, override, outcome, r))
    && s.published == if r.managed && attacker != "" then r.ports else []
  }

  lemma NewDocker(
      d: Deployment, p: Plane, id: string, bindingId: string, t: Template, attacker: string, warm: bool,
      override: Option<RuntimeSpec>, outcome: StartOutcome, now: int)
    requires override.Some? || (t.runtime.Some? && t.runtime.value.backend == Docker)
    requires override.Some? || NothingRuns(p.records, bindingId, t.id)
    ensures IsNewBackend(d, id, bindingId, t, attacker, warm, override, outcome,
                         StartAsset(d, p, id, bindingId, t, attacker, warm, override, outcome, now))
  {
    NothingIsFound(p.records, bindingId, t.id);
    var spec := (if override.Some? then override else t.runtime).value;
    PortsAreMapped(d, t.id, spec.ports);
    var s := StartDocker(d, p, id, bindingId, t, attacker, warm, override, outcome, now);
    assert StartAsset(d, p, id, bindingId, t, attacker, warm, override, outcome, now) == s;
    assert s.record.status == Failed <==> Fails(Docker, override, outcome);
  }

  lemma NewCompose(
      d: Deployment, p: Plane, id: string, bindingId: string, t: Template, attacker: string, warm: bool,
      outcome: StartOutcome, now: int)
    requires d.hasCompose && t.runtime.Some? && t.runtime.value.backend == Compose
    requires NothingRuns(p.records, bindingId, t.id)
    ensures IsNewBackend(d, id, bindingId, t, attacker, warm, None, outcome,
                         StartAsset(d, p, id, bindingId, t, attacker, warm, None, outcome, now))
  {
    NothingIsFound(p.records, bindingId, t.id);
    PortsAreMapped(d, t.id, t.runtime.value.ports);
    var s := StartCompose(d, p, id, bindingId, t, attacker, warm, outcome, now);
    assert StartAsset(d, p, id, bindingId, t, attacker, warm, None, outcome, now) == s;
  }

  /** Main result on new backends: exactly when a start fails, and otherwise what runs, on which
      ports, and which of them are published. */
  lemma NewBackend(
      d: Deployment, p: Plane, id: string, bindingId: string, t: Template, attacker: string, warm: bool,
      override: Option<RuntimeSpec>, outcome: StartOutcome, now: int)
    requires override.Some? || NothingRuns(p.records, bindingId, t.id)
    ensures IsNewBackend(d, id, bindingId, t, attacker, warm, override, outcome,
                         StartAsset(d, p, id, bindingId, t, attacker, warm, override, outcome, now))
  {
    if AdapterFor(d, t, override) == Docker {
      NewDocker(d, p, id, bindingId, t, attacker, warm, override, outcome, now);
    } else if AdapterFor(d, t, override) == Compose {
      NewCompose(d, p, id, bindingId, t, attacker, warm, outcome, now);
    } else {
      NothingIsFound(p.records, bindingId, t.id);
    }
  }

  /** A replacement stops what ran before, as soon as it is known to be for Docker. */
  ghost predicate MakesWay(
      r: Record, bindingId: string, assetId: string, override: Option<RuntimeSpec>, outcome: StartOutcome) {
    && r.bindingId == bindingId && r.assetId == assetId && r.status == Running
    && override.Some? && override.value.backend == Docker && outcome != FailsEarly
  }

  /** Main result on the other records: the new record is added behind all others, which stay as
      they are but for the one that makes way. */
  lemma OthersStay(
      d: Deployment, p: Plane, id: string, bindingId: string, t: Template, attacker: string, warm: bool,
      override: Option<RuntimeSpec>, outcome: StartOutcome, now: int)
    requires RecordsOk(p.records) && (forall r :: r in p.records ==> r.runtimeId != id)
    requires override.Some? || NothingRuns(p.records, bindingId, t.id)
    ensures var s := StartAsset(d, p, id, bindingId, t, attacker, warm, override, outcome, now);
      var n := |p.records|;
      && |s.plane.records| == n + 1 && s.plane.records[n] == s.record
      && forall i :: 0 <= i < n ==>
           s.plane.records[i] ==
             if MakesWay(p.records[i], bindingId, t.id, override, outcome) then p.records[i].(status := Stopped)
             else p.records[i]
  {
    NothingIsFound(p.records, bindingId, t.id);
    var s := StartAsset(d, p, id, bindingId, t, attacker, warm, override, outcome, now);
    var existing := ExistingRunning(p.records, bindingId, t.id);
    assert !HasKey(p.records, RuntimeIdOf, id);
    var before := p.records;
    if override.Some? && override.value.backend == Docker && outcome != FailsEarly && existing.Some? {
      StopExisting(p.records, bindingId, t.id);
      before := Save(p.records, existing.value.(status := Stopped));
      OnlyOneRuns(p.records, existing.value);
    }
    NewBackend(d, p, id, bindingId, t, attacker, warm, override, outcome, now);
    assert !HasKey(before, RuntimeIdOf, RuntimeIdOf(s.record)) by {
      assert HasKey(before, RuntimeIdOf, RuntimeIdOf(s.record)) <==> HasKey(before, RuntimeIdOf, id);
    }
    SavedLast(d, p, before, id, bindingId, t, attacker, warm, override, outcome, now);
  }

  lemma OnlyOneRuns(records: seq<Record>, r: Record)
    requires OneRunning(records) && r in records && r.status == Running
    ensures forall x :: x in records && x.bindingId == r.bindingId && x.assetId == r.assetId && x.status == Running ==>
              x == r
  {
  }

  lemma SavedLast(
      d: Deployment, p: Plane, before: seq<Record>, id: string, bindingId: string, t: Template, attacker: string,
      warm: bool, override: Option<RuntimeSpec>, outcome: StartOutcome, now: int)
    requires var existing := ExistingRunning(p.records, bindingId, t.id);
      && (override.Some? || existing.None?)
      && before == if override.Some? && override.value.backend == Docker && outcome != FailsEarly && existing.Some?
                   then Save(p.records, existing.value.(status := Stopped)) else p.records
    ensures var s := StartAsset(d, p, id, bindingId, t, attacker, warm, override, outcome, now);
      s.plane.records == Save(before, s.record)
  {
  }

  /** Main result on a backend that runs already and is not replaced: it stays the one it is, is
      shown and gets its routes as soon as there is an attacker and the gateway manages it. Mocked
      assets have no routes to show. */
  lemma RunningBackend(
      d: Deployment, p: Plane, id: string, bindingId: string, t: Template, attacker: string, warm: bool,
      outcome: StartOutcome, now: int, r: Record)
    requires RecordsOk(p.records) && r in p.records
    requires r.bindingId == bindingId && r.assetId == t.id && r.status == Running
    ensures var s := StartAsset(d, p, id, bindingId, t, attacker, warm, None, outcome, now);
      var shows := attacker != "" && r.managed && AdapterFor(d, t, None) != Mock;
      && s.record == (if shows then r.(hidden := false) else r)
      && s.published == (if shows then r.ports else [])
      && |s.plane.records| == |p.records|
      && forall i :: 0 <= i < |p.records| ==>
           s.plane.records[i] == if p.records[i] == r then s.record else p.records[i]
  {
    RunningIsAttached(d, p, id, bindingId, t, attacker, warm, outcome, now, r);
    SaveExisting(p.records, r, r.(hidden := false));
    SaveExisting(p.records, r, r);
    var shows := attacker != "" && r.managed && AdapterFor(d, t, None) != Mock;
    var s := StartAsset(d, p, id, bindingId, t, attacker, warm, None, outcome, now);
    assert s.record == (if shows then r.(hidden := false) else r) && s.published == (if shows then r.ports else []);
    assert s.plane.records == (if shows && r.hidden then Save(p.records, r.(hidden := false)) else p.records);
  }

  lemma RunningIsAttached(
      d: Deployment, p: Plane, id: string, bindingId: string, t: Template, attacker: string, warm: bool,
      outcome: StartOutcome, now: int, r: Record)
    requires OneRunning(p.records) && r in p.records
    requires r.bindingId == bindingId && r.assetId == t.id && r.status == Running
    ensures StartAsset(d, p, id, bindingId, t, attacker, warm, None, outcome, now) ==
            if AdapterFor(d, t, None) == Mock then Start(p, r, []) else Attach(p, r, attacker, now)
  {
    var i :| 0 <= i < |p.records| && p.records[i] == r;
    ExistingIsUnique(p.records, i);
  }

  /** The route is republished with the ports. */
  ghost predicate Replaces(ports: seq<Port>, bindingId: string, assetId: string, x: Route) {
    exists q :: q in ports && x.bindingId == bindingId && x.assetId == assetId && x.publicPort == q.public
  }

  /** Main result on routes: what a start publishes stands last in the route table, with the ports of
      the record, in place of what the asset had published there before. */
  lemma PublishedAreRouted(
      d: Deployment, p: Plane, id: string, bindingId: string, t: Template, attacker: string, warm: bool,
      override: Option<RuntimeSpec>, outcome: StartOutcome, now: int) returns (others: seq<Route>, added: seq<Route>)
    requires RecordsOk(p.records) && (forall r :: r in p.records ==> r.runtimeId != id)
    requires warm ==> attacker == ""
    ensures var s := StartAsset(d, p, id, bindingId, t, attacker, warm, override, outcome, now);
      && s.plane.routes == others + added && |added| == |s.published|
      && (forall i :: 0 <= i < |added| ==>
            added[i] == Route(attacker, bindingId, t.id, s.published[i].public, s.published[i].backend, now))
      && (forall x :: x in others <==> x in p.routes && !Replaces(s.published, bindingId, t.id, x))
  {
    var s := StartAsset(d, p, id, bindingId, t, attacker, warm, override, outcome, now);
    assert !HasKey(p.records, RuntimeIdOf, id);
    StartAssetOk(d, p, id, bindingId, t, attacker, warm, override, outcome, now);
    added := NewRoutes(attacker, bindingId, t.id, s.published, now);
    others := WithoutKeys(p.routes, RouteKey, added);
    KeptAreOthers(p.routes, attacker, bindingId, t.id, s.published, now);
    if s.published == [] {
      NothingIsReplaced(p.routes);
      assert others + added == p.routes;
    }
  }

  lemma {:induction false} NothingIsReplaced(routes: seq<Route>)
    ensures WithoutKeys(routes, RouteKey, []) == routes
  {
    if routes != [] {
      NothingIsReplaced(routes[..|routes| - 1]);
    }
  }

  lemma KeptAreOthers(
      routes: seq<Route>, attacker: string, bindingId: string, assetId: string, ports: seq<Port>, now: int)
    ensures forall x :: x in WithoutKeys(routes, RouteKey, NewRoutes(attacker, bindingId, assetId, ports, now)) <==>
                        x in routes && !Replaces(ports, bindingId, assetId, x)
  {
    var added := NewRoutes(attacker, bindingId, assetId, ports, now);
    WithoutKeysMembers(routes, RouteKey, added);
    forall x: Route ensures HasKey(added, RouteKey, RouteKey(x)) <==> Replaces(ports, bindingId, assetId, x) {
      KeyIsReplaced(attacker, bindingId, assetId, ports, now, x);
    }
  }

  lemma KeyIsReplaced(
      attacker: string, bindingId: string, assetId: string, ports: seq<Port>, now: int, x: Route)
    ensures var added := NewRoutes(attacker, bindingId, assetId, ports, now);
      HasKey(added, RouteKey, RouteKey(x)) <==> Replaces(ports, bindingId, assetId, x)
  {
    var added := NewRoutes(attacker, bindingId, assetId, ports, now);
    if i :| 0 <= i < |added| && RouteKey(added[i]) == RouteKey(x) {
      assert ports[i] in ports;
    }
    if q :| q in ports && x.bindingId == bindingId && x.assetId == assetId && x.publicPort == q.public {
      var i :| 0 <= i < |ports| && ports[i] == q;
      assert RouteKey(added[i]) == RouteKey(x);
    }
  }

  // ----- What is listed as accessible -----

  lemma {:induction false} AssetsWhereMembers(records: seq<Record>, keep: Record -> bool, a: string)
    ensures a in AssetsWhere(records, keep) <==> exists r :: r in records && keep(r) && r.assetId == a
  {
    if records != [] {
      var n := |records| - 1;
      AssetsWhereMembers(records[..n], keep, a);
      assert records == records[..n] + [records[n]];
    }
  }

  /** What the gateway is told about is exactly what runs for the binding and is no hidden standby; of
      a Docker backend, the container must also be up at the moment. */
  lemma AccessibleIff(d: Deployment, records: seq<Record>, bindingId: string, up: set<string>, a: string)
    ensures a in AccessibleAssets(d, records, bindingId, up) <==>
            exists r :: r in records && r.bindingId == bindingId && r.assetId == a && r.status == Running
                        && !r.hidden && (r.backend == Docker ==> r.runtimeId in up)
  {
    AssetsWhereMembers(records, r => ComposeAccessible(r, bindingId, up), a);
    AssetsWhereMembers(records, r => DockerAccessible(r, bindingId, up), a);
    AssetsWhereMembers(records, r => MockAccessible(r, bindingId), a);
    if r :| r in records && r.bindingId == bindingId && r.assetId == a && r.status == Running
            && !r.hidden && (r.backend == Docker ==> r.runtimeId in up) {
      assert DockerAccessible(r, bindingId, up);
    }
  }
}
