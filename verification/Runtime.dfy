/** The lifecycle of asset runtimes: what starting, warming, configuring and stopping them does to
    the runtime records and to the gateway's route table. Whether a container comes up is decided
    outside the honeynet and enters as a `StartOutcome`. */
module Runtime {
  import opened Wrappers
  import opened Iterables
  import opened ListStore
  import opened RouteTable

  datatype Backend = Docker | Compose | Mock

  datatype PortMapping = PortMapping(requested: Option<int>, container: int)

  datatype RuntimeSpec = RuntimeSpec(backend: Backend, warmStandby: bool, ports: seq<PortMapping>)

  datatype Template = Template(id: string, isInternal: bool, runtime: Option<RuntimeSpec>)

  /** Deployment settings: whether the asset gateway is on, whether there is a Compose adapter, and
      the per-asset port overrides. */
  datatype Deployment = Deployment(gatewayEnabled: bool, hasCompose: bool, portOverride: map<string, int>)

  datatype Status = Running | Stopped | Failed

  datatype Record = Record(
    runtimeId: string, bindingId: string, assetId: string, status: Status, backend: Backend,
    hidden: bool, managed: bool, ports: seq<Port>, configurations: seq<string>)

  function RuntimeIdOf(r: Record): string {
    r.runtimeId
  }

  /** How a start attempt goes: it fails before an old container is removed or after, or the
      container comes up (for Compose, with or without a container the gateway can reach). */
  datatype StartOutcome = FailsEarly | FailsLate | ComesUp(reachable: bool)

  /** The runtime records and the route table, which are written together. */
  datatype Plane = Plane(records: seq<Record>, routes: seq<Route>)

  // ----- Ports -----

  function PublicPort(d: Deployment, assetId: string, m: PortMapping): int {
    if assetId in d.portOverride then d.portOverride[assetId] else m.requested.GetOr(m.container)
  }

  function ResolvePorts(d: Deployment, assetId: string, mappings: seq<PortMapping>): seq<Port> {
    if mappings == [] then []
    else
      var n := |mappings| - 1;
      ResolvePorts(d, assetId, mappings[..n]) + [Port(PublicPort(d, assetId, mappings[n]), mappings[n].container)]
  }

  predicate GatewayManaged(d: Deployment, t: Template, spec: RuntimeSpec) {
    d.gatewayEnabled && t.isInternal && spec.ports != []
  }

  // ----- Looking up and saving records -----

  predicate IsRunning(r: Record, bindingId: string, assetId: string) {
    r.bindingId == bindingId && r.assetId == assetId && r.status.Running?
  }

  function ExistingRunning(records: seq<Record>, bindingId: string, assetId: string): (r: Option<Record>)
    ensures r.Some? ==> r.value in records && IsRunning(r.value, bindingId, assetId)
    ensures r.None? ==> forall x :: x in records ==> !IsRunning(x, bindingId, assetId)
  {
    if records == [] then None
    else if IsRunning(records[0], bindingId, assetId) then Some(records[0])
    else ExistingRunning(records[1..], bindingId, assetId)
  }

  function Save(records: seq<Record>, r: Record): seq<Record> {
    Upsert(records, RuntimeIdOf, r)
  }

  // ----- Starting -----

  /** A started or refreshed asset: the new state, the record, and the ports it published for the
      attacker (none when it published no route). */
  datatype Start = Start(plane: Plane, record: Record, published: seq<Port>)

  /** A backend that already runs gets its routes and stops being a hidden standby once there is an
      attacker (`""` stands for none, as in warm starts) and the gateway manages it. */
  function Attach(p: Plane, r: Record, attacker: string, now: int): Start {
    if attacker == "" || !r.managed then Start(p, r, [])
    else
      var routes := Publish(p.routes, attacker, r.bindingId, r.assetId, r.ports, now);
      if r.hidden then
        var visible := r.(hidden := false);
        Start(Plane(Save(p.records, visible), routes), visible, r.ports)
      else Start(Plane(p.records, routes), r, r.ports)
  }

  function StartFailed(p: Plane, id: string, bindingId: string, t: Template, backend: Backend, warm: bool): Start {
    var r := Record(id, bindingId, t.id, Failed, backend, warm, false, [], []);
    Start(p.(records := Save(p.records, r)), r, [])
  }

  function StartSucceeded(
      p: Plane, id: string, bindingId: string, t: Template, backend: Backend, attacker: string, warm: bool,
      managed: bool, ports: seq<Port>, now: int): Start
  {
    var r := Record(id, bindingId, t.id, Running, backend, warm, managed, ports, []);
    var published := if managed && attacker != "" then ports else [];
    var routes := Publish(p.routes, attacker, bindingId, t.id, published, now);
    Start(Plane(Save(p.records, r), routes), r, published)
  }

  function StartCompose(
      d: Deployment, p: Plane, id: string, bindingId: string, t: Template, attacker: string, warm: bool,
      outcome: StartOutcome, now: int): Start
    requires t.runtime.Some?
  {
    var existing := ExistingRunning(p.records, bindingId, t.id);
    if existing.Some? then Attach(p, existing.value, attacker, now)
    else if !outcome.ComesUp? then StartFailed(p, id, bindingId, t, Compose, warm)
    else
      var ports := if outcome.reachable then ResolvePorts(d, t.id, t.runtime.value.ports) else [];
      StartSucceeded(p, id, bindingId, t, Compose, attacker, warm, ports != [], ports, now)
  }

  function StartDocker(
      d: Deployment, p: Plane, id: string, bindingId: string, t: Template, attacker: string, warm: bool,
      override: Option<RuntimeSpec>, outcome: StartOutcome, now: int): Start
    requires override.Some? || t.runtime.Some?
  {
    var existing := ExistingRunning(p.records, bindingId, t.id);
    if existing.Some? && override.None? then Attach(p, existing.value, attacker, now)
    else
      var spec := if override.Some? then override.value else t.runtime.value;
      if outcome.FailsEarly? || !spec.backend.Docker? then StartFailed(p, id, bindingId, t, Docker, warm)
      else
        // The old container makes way for its replacement even if that fails to start.
        var p' := if existing.Some? then p.(records := Save(p.records, existing.value.(status := Stopped))) else p;
        if outcome.FailsLate? then StartFailed(p', id, bindingId, t, Docker, warm)
        else
          StartSucceeded(p', id, bindingId, t, Docker, attacker, warm, GatewayManaged(d, t, spec),
                         ResolvePorts(d, t.id, spec.ports), now)
  }

  function StartMock(p: Plane, id: string, bindingId: string, t: Template, warm: bool, now: int): Start {
    var existing := ExistingRunning(p.records, bindingId, t.id);
    if existing.Some? then Start(p, existing.value, [])
    else StartSucceeded(p, id, bindingId, t, Mock, "", warm, false, [], now)
  }

  function StartAsset(
      d: Deployment, p: Plane, id: string, bindingId: string, t: Template, attacker: string, warm: bool,
      override: Option<RuntimeSpec>, outcome: StartOutcome, now: int): Start
  {
    if override.None? && d.hasCompose && t.runtime.Some? && t.runtime.value.backend.Compose? then
      StartCompose(d, p, id, bindingId, t, attacker, warm, outcome, now)
    else if override.Some? || (t.runtime.Some? && t.runtime.value.backend.Docker?) then
      StartDocker(d, p, id, bindingId, t, attacker, warm, override, outcome, now)
    else StartMock(p, id, bindingId, t, warm, now)
  }

  /** Only the Docker and Compose adapters talk to the gateway: an asset that the catalogue gives to
      neither publishes no route, not even when a configuration has put it behind a container. */
  predicate GatewayBacked(d: Deployment, t: Template, override: Option<RuntimeSpec>) {
    override.Some?
    || (t.runtime.Some? && (t.runtime.value.backend.Docker? || (d.hasCompose && t.runtime.value.backend.Compose?)))
  }

  // ----- Configuring and stopping -----

  function Configured(r: Record, configurationId: string): Record {
    r.(configurations := AppendNew(r.configurations, [configurationId]))
  }

  function ApplyConfiguration(p: Plane, bindingId: string, assetId: string, configurationId: string): Plane {
    match ExistingRunning(p.records, bindingId, assetId)
    case None => p
    case Some(r) => p.(records := Save(p.records, Configured(r, configurationId)))
  }

  function StopBinding(records: seq<Record>, bindingId: string): (r: seq<Record>)
    ensures |r| == |records|
    ensures forall i :: 0 <= i < |r| ==>
              r[i] == if records[i].bindingId == bindingId && records[i].status.Running?
                      then records[i].(status := Stopped) else records[i]
  {
    seq(|records|, i requires 0 <= i < |records| =>
      if records[i].bindingId == bindingId && records[i].status.Running?
      then records[i].(status := Stopped) else records[i])
  }

  // ----- What is reachable -----

  /** `up` holds the runtime ids whose containers are up at the moment. */
  predicate ComposeAccessible(r: Record, bindingId: string, up: set<string>) {
    r.bindingId == bindingId && !r.hidden && r.status.Running? && r.backend.Compose? && r.runtimeId in up
  }

  predicate DockerAccessible(r: Record, bindingId: string, up: set<string>) {
    r.bindingId == bindingId && !r.hidden && r.status.Running? && (!r.backend.Docker? || r.runtimeId in up)
  }

  predicate MockAccessible(r: Record, bindingId: string) {
    r.bindingId == bindingId && !r.hidden && r.status.Running? && !r.backend.Docker?
  }

  function AssetsWhere(records: seq<Record>, keep: Record -> bool): (r: seq<string>)
    ensures forall a :: a in r ==> exists x :: x in records && keep(x) && x.assetId == a
  {
    if records == [] then []
    else
      var n := |records| - 1;
      var front := AssetsWhere(records[..n], keep);
      assert records == records[..n] + [records[n]];
      if keep(records[n]) then front + [records[n].assetId] else front
  }

  function AccessibleAssets(d: Deployment, records: seq<Record>, bindingId: string, up: set<string>): seq<string> {
    Dedupe(
      (if d.hasCompose then AssetsWhere(records, r => ComposeAccessible(r, bindingId, up)) else []) +
      AssetsWhere(records, r => DockerAccessible(r, bindingId, up)) +
      AssetsWhere(records, r => MockAccessible(r, bindingId)))
  }

  /** Everything the gateway is told about has a running record that is not a hidden standby. */
  lemma AccessibleIsVisible(d: Deployment, records: seq<Record>, bindingId: string, up: set<string>, a: string)
    requires a in AccessibleAssets(d, records, bindingId, up)
    ensures exists r :: r in records && IsRunning(r, bindingId, a) && !r.hidden
  {
  }

  // ----- Invariants of the records -----

  ghost predicate OneRunning(records: seq<Record>) {
    forall i, j :: 0 <= i < j < |records| && records[i].status.Running? && records[j].status.Running? ==>
      records[i].bindingId != records[j].bindingId || records[i].assetId != records[j].assetId
  }

  ghost predicate RecordsOk(records: seq<Record>) {
    DistinctBy(records, RuntimeIdOf) && OneRunning(records)
  }

  lemma ExistingIsUnique(records: seq<Record>, i: nat)
    requires OneRunning(records) && i < |records| && records[i].status.Running?
    ensures ExistingRunning(records, records[i].bindingId, records[i].assetId) == Some(records[i])
  {
    var e := ExistingRunning(records, records[i].bindingId, records[i].assetId);
    assert IsRunning(records[i], records[i].bindingId, records[i].assetId);
    var j :| 0 <= j < |records| && records[j] == e.value;
  }

  /** Rewriting a running record with the same identity keeps the records in order. */
  lemma SaveExisting(records: seq<Record>, r: Record, r': Record)
    requires RecordsOk(records) && r in records && r.status.Running?
    requires r'.runtimeId == r.runtimeId && r'.bindingId == r.bindingId && r'.assetId == r.assetId
    ensures RecordsOk(Save(records, r'))
    ensures |Save(records, r')| == |records|
    ensures forall i :: 0 <= i < |records| ==> Save(records, r')[i] == if records[i] == r then r' else records[i]
  {
    var i :| 0 <= i < |records| && records[i] == r;
    assert RuntimeIdOf(records[i]) == RuntimeIdOf(r');
    assert HasKey(records, RuntimeIdOf, RuntimeIdOf(r'));
    UpsertKeepsUnique(records, RuntimeIdOf, r');
  }

  lemma SaveNew(records: seq<Record>, r: Record)
    requires RecordsOk(records) && !HasKey(records, RuntimeIdOf, r.runtimeId)
    requires r.status.Running? ==> ExistingRunning(records, r.bindingId, r.assetId).None?
    ensures Save(records, r) == records + [r] && RecordsOk(Save(records, r))
  {
    assert HasKey(records, RuntimeIdOf, RuntimeIdOf(r)) <==> HasKey(records, RuntimeIdOf, r.runtimeId);
    UpsertKeepsUnique(records, RuntimeIdOf, r);
    if r.status.Running? {
      assert forall i :: 0 <= i < |records| ==> !IsRunning(records[i], r.bindingId, r.assetId);
    }
  }

  /** How records may change when an asset of a binding is started, and whether that may make one
      visible. */
  ghost predicate StartEffect(
      before: seq<Record>, after: seq<Record>, bindingId: string, assetId: string, shows: bool) {
    && |before| <= |after| <= |before| + 1
    && (forall i :: 0 <= i < |before| ==>
          after[i] == before[i] ||
          (IsRunning(before[i], bindingId, assetId) && after[i].bindingId == bindingId && after[i].assetId == assetId
           && (!after[i].hidden ==> shows || !before[i].hidden)))
    && (|after| > |before| ==>
          var r := after[|before|];
          r.bindingId == bindingId && r.assetId == assetId && (r.hidden || shows))
  }

  /** The mutual shape of all starts. */
  ghost predicate StartOk(
      p: Plane, s: Start, bindingId: string, assetId: string, attacker: string, shows: bool, now: int) {
    && RecordsOk(s.plane.records)
    && StartEffect(p.records, s.plane.records, bindingId, assetId, shows)
    && s.plane.routes == Publish(p.routes, attacker, bindingId, assetId, s.published, now)
    && s.record in s.plane.records && s.record.bindingId == bindingId && s.record.assetId == assetId
    && (s.published != [] ==>
          attacker != "" && s.record.status.Running? && s.record.managed && s.published == s.record.ports
          && (shows ==> !s.record.hidden))
  }

  lemma AttachOk(p: Plane, r: Record, attacker: string, shows: bool, now: int)
    requires RecordsOk(p.records) && r in p.records && r.status.Running?
    requires attacker != "" ==> shows
    ensures StartOk(p, Attach(p, r, attacker, now), r.bindingId, r.assetId, attacker, shows, now)
  {
    SaveExisting(p.records, r, r.(hidden := false));
    var i :| 0 <= i < |p.records| && p.records[i] == r;
    assert Save(p.records, r.(hidden := false))[i] == r.(hidden := false);
  }

  lemma StartFailedOk(
      p: Plane, id: string, bindingId: string, t: Template, backend: Backend, attacker: string, warm: bool, now: int)
    requires RecordsOk(p.records) && !HasKey(p.records, RuntimeIdOf, id)
    ensures StartOk(p, StartFailed(p, id, bindingId, t, backend, warm), bindingId, t.id, attacker, !warm, now)
  {
    SaveNew(p.records, Record(id, bindingId, t.id, Failed, backend, warm, false, [], []));
  }

  lemma StartSucceededOk(
      p: Plane, id: string, bindingId: string, t: Template, backend: Backend, attacker: string, warm: bool,
      managed: bool, ports: seq<Port>, now: int)
    requires RecordsOk(p.records) && !HasKey(p.records, RuntimeIdOf, id)
    requires ExistingRunning(p.records, bindingId, t.id).None?
    ensures StartOk(p, StartSucceeded(p, id, bindingId, t, backend, attacker, warm, managed, ports, now),
                    bindingId, t.id, attacker, !warm, now)
  {
    SaveNew(p.records, Record(id, bindingId, t.id, Running, backend, warm, managed, ports, []));
  }

  lemma StopExisting(records: seq<Record>, bindingId: string, assetId: string)
    requires RecordsOk(records) && ExistingRunning(records, bindingId, assetId).Some?
    ensures var r := ExistingRunning(records, bindingId, assetId).value;
      var after := Save(records, r.(status := Stopped));
      && RecordsOk(after) && |after| == |records|
      && ExistingRunning(after, bindingId, assetId).None?
      && (forall i :: 0 <= i < |records| ==> after[i] == if records[i] == r then r.(status := Stopped) else records[i])
      && (forall id :: HasKey(after, RuntimeIdOf, id) <==> HasKey(records, RuntimeIdOf, id))
  {
    var r := ExistingRunning(records, bindingId, assetId).value;
    var after := Save(records, r.(status := Stopped));
    SaveExisting(records, r, r.(status := Stopped));
    var e := ExistingRunning(after, bindingId, assetId);
    if e.Some? {
      var j :| 0 <= j < |after| && after[j] == e.value;
      ExistingIsUnique(records, j);
    }
    assert forall i :: 0 <= i < |records| ==> RuntimeIdOf(after[i]) == RuntimeIdOf(records[i]);
    forall id ensures HasKey(after, RuntimeIdOf, id) <==> HasKey(records, RuntimeIdOf, id) {
      if i :| 0 <= i < |records| && RuntimeIdOf(records[i]) == id {
        assert RuntimeIdOf(after[i]) == id;
      }
    }
  }

  /** Main result on starts. A start touches no record of another binding or asset, leaves at most
      one running record for this one, publishes exactly the ports of a running gateway-managed
      backend when there is an attacker, and makes a record visible only when it is not a warm
      start. */
  lemma StartAssetOk(
      d: Deployment, p: Plane, id: string, bindingId: string, t: Template, attacker: string, warm: bool,
      override: Option<RuntimeSpec>, outcome: StartOutcome, now: int)
    requires RecordsOk(p.records) && !HasKey(p.records, RuntimeIdOf, id)
    requires warm ==> attacker == ""
    ensures StartOk(p, StartAsset(d, p, id, bindingId, t, attacker, warm, override, outcome, now),
                    bindingId, t.id, attacker, !warm, now)
    ensures var s := StartAsset(d, p, id, bindingId, t, attacker, warm, override, outcome, now);
            s.published ==
            if GatewayBacked(d, t, override) && s.record.status.Running? && s.record.managed && attacker != ""
                           then s.record.ports else []
  {
    PublishedBy(d, p, id, bindingId, t, attacker, warm, override, outcome, now);
    if override.None? && d.hasCompose && t.runtime.Some? && t.runtime.value.backend.Compose? {
      StartComposeOk(d, p, id, bindingId, t, attacker, warm, outcome, now);
    } else if override.Some? || (t.runtime.Some? && t.runtime.value.backend.Docker?) {
      StartDockerOk(d, p, id, bindingId, t, attacker, warm, override, outcome, now);
    } else {
      StartMockOk(p, id, bindingId, t, warm, attacker, now);
    }
  }

  lemma StartMockOk(p: Plane, id: string, bindingId: string, t: Template, warm: bool, attacker: string, now: int)
    requires RecordsOk(p.records) && !HasKey(p.records, RuntimeIdOf, id)
    ensures StartOk(p, StartMock(p, id, bindingId, t, warm, now), bindingId, t.id, attacker, !warm, now)
  {
    if ExistingRunning(p.records, bindingId, t.id).None? {
      StartSucceededOk(p, id, bindingId, t, Mock, "", warm, false, [], now);
    }
  }

  lemma StartComposeOk(
      d: Deployment, p: Plane, id: string, bindingId: string, t: Template, attacker: string, warm: bool,
      outcome: StartOutcome, now: int)
    requires RecordsOk(p.records) && !HasKey(p.records, RuntimeIdOf, id) && t.runtime.Some?
    requires warm ==> attacker == ""
    ensures StartOk(p, StartCompose(d, p, id, bindingId, t, attacker, warm, outcome, now),
                    bindingId, t.id, attacker, !warm, now)
  {
    var existing := ExistingRunning(p.records, bindingId, t.id);
    if existing.Some? {
      AttachOk(p, existing.value, attacker, !warm, now);
    } else if !outcome.ComesUp? {
      StartFailedOk(p, id, bindingId, t, Compose, attacker, warm, now);
    } else {
      var ports := if outcome.reachable then ResolvePorts(d, t.id, t.runtime.value.ports) else [];
      StartSucceededOk(p, id, bindingId, t, Compose, attacker, warm, ports != [], ports, now);
    }
  }

  lemma PublishedBy(
      d: Deployment, p: Plane, id: string, bindingId: string, t: Template, attacker: string, warm: bool,
      override: Option<RuntimeSpec>, outcome: StartOutcome, now: int)
    ensures var s := StartAsset(d, p, id, bindingId, t, attacker, warm, override, outcome, now);
            s.published ==
            if GatewayBacked(d, t, override) && s.record.status.Running? && s.record.managed && attacker != ""
                           then s.record.ports else []
  {
  }

  lemma StartDockerOk(
      d: Deployment, p: Plane, id: string, bindingId: string, t: Template, attacker: string, warm: bool,
      override: Option<RuntimeSpec>, outcome: StartOutcome, now: int)
    requires override.Some? || t.runtime.Some?
    requires RecordsOk(p.records) && !HasKey(p.records, RuntimeIdOf, id)
    requires warm ==> attacker == ""
    ensures StartOk(p, StartDocker(d, p, id, bindingId, t, attacker, warm, override, outcome, now),
                    bindingId, t.id, attacker, !warm, now)
  {
    var existing := ExistingRunning(p.records, bindingId, t.id);
    if existing.Some? && override.None? {
      AttachOk(p, existing.value, attacker, !warm, now);
      return;
    }
    var spec := if override.Some? then override.value else t.runtime.value;
    if outcome.FailsEarly? || !spec.backend.Docker? {
      StartFailedOk(p, id, bindingId, t, Docker, attacker, warm, now);
      return;
    }
    var p' := p;
    if existing.Some? {
      StopExisting(p.records, bindingId, t.id);
      p' := p.(records := Save(p.records, existing.value.(status := Stopped)));
    }
    if outcome.FailsLate? {
      StartFailedOk(p', id, bindingId, t, Docker, attacker, warm, now);
    } else {
      StartSucceededOk(p', id, bindingId, t, Docker, attacker, warm, GatewayManaged(d, t, spec),
                       ResolvePorts(d, t.id, spec.ports), now);
    }
  }

  /** Stopping a binding leaves it no running record and every other record as it was. */
  lemma StopKeepsRecords(records: seq<Record>, bindingId: string)
    requires RecordsOk(records)
    ensures RecordsOk(StopBinding(records, bindingId))
  {
    var after := StopBinding(records, bindingId);
    assert forall i :: 0 <= i < |records| ==> RuntimeIdOf(after[i]) == RuntimeIdOf(records[i]);
  }

  lemma StopIsComplete(records: seq<Record>, bindingId: string, d: Deployment, up: set<string>)
    requires RecordsOk(records)
    ensures var after := StopBinding(records, bindingId);
      && RecordsOk(after)
      && (forall r :: r in after ==> !(r.bindingId == bindingId && r.status.Running?))
      && (forall i :: 0 <= i < |records| && records[i].bindingId != bindingId ==> after[i] == records[i])
      && AccessibleAssets(d, after, bindingId, up) == []
  {
    var after := StopBinding(records, bindingId);
    StopKeepsRecords(records, bindingId);
    if AccessibleAssets(d, after, bindingId, up) != [] {
      var a := AccessibleAssets(d, after, bindingId, up)[0];
      AccessibleIsVisible(d, after, bindingId, up, a);
      assert false;
    }
  }
}
