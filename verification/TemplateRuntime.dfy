/** The runtime adapters over their shared record repository and route table, method by method as
    the orchestrator calls them. */
module TemplateRuntime {
  import opened Wrappers
  import opened Iterables
  import opened ListStore
  import opened RouteTable
  import opened Runtime

  /** The records a stopping pass takes: all running ones of the binding, or only those that a
      Compose project backs. */
  predicate Takes(r: Record, bindingId: string, composeOnly: bool) {
    r.bindingId == bindingId && r.status.Running? && (composeOnly ==> r.backend.Compose?)
  }

  function StopPass(records: seq<Record>, bindingId: string, composeOnly: bool): (r: seq<Record>)
    ensures |r| == |records|
    ensures forall i :: 0 <= i < |r| ==>
              r[i] == if Takes(records[i], bindingId, composeOnly) then records[i].(status := Stopped) else records[i]
  {
    seq(|records|, i requires 0 <= i < |records| =>
      if Takes(records[i], bindingId, composeOnly) then records[i].(status := Stopped) else records[i])
  }

  function StoppedBy(records: seq<Record>, bindingId: string, composeOnly: bool): seq<Record> {
    if records == [] then []
    else
      var n := |records| - 1;
      StoppedBy(records[..n], bindingId, composeOnly) +
      if Takes(records[n], bindingId, composeOnly) then [records[n].(status := Stopped)] else []
  }

  lemma {:induction false} StoppedByMembers(records: seq<Record>, bindingId: string, composeOnly: bool)
    requires DistinctBy(records, RuntimeIdOf)
    ensures forall x :: x in StoppedBy(records, bindingId, composeOnly) <==>
              exists r :: r in records && Takes(r, bindingId, composeOnly) && x == r.(status := Stopped)
    ensures DistinctBy(StoppedBy(records, bindingId, composeOnly), RuntimeIdOf)
  {
    if records != [] {
      var n := |records| - 1;
      var front, all := StoppedBy(records[..n], bindingId, composeOnly), StoppedBy(records, bindingId, composeOnly);
      StoppedByMembers(records[..n], bindingId, composeOnly);
      assert records == records[..n] + [records[n]];
      forall i | 0 <= i < |front| ensures RuntimeIdOf(front[i]) != RuntimeIdOf(records[n]) {
        assert front[i] in front;
        var r :| r in records[..n] && front[i] == r.(status := Stopped);
        var j :| 0 <= j < n && records[j] == r;
        assert RuntimeIdOf(records[j]) != RuntimeIdOf(records[n]);
      }
      forall x ensures x in all <==>
          exists r :: r in records && Takes(r, bindingId, composeOnly) && x == r.(status := Stopped)
      {
        if x in front {
          var r :| r in records[..n] && Takes(r, bindingId, composeOnly) && x == r.(status := Stopped);
          assert r in records;
        }
        if r :| r in records && Takes(r, bindingId, composeOnly) && x == r.(status := Stopped) {
          if r in records[..n] {
            assert x in front;
          }
        }
      }
    }
  }

  /** What recycling a binding returns: first what Compose backs, then the rest. */
  function StoppedRecords(d: Deployment, records: seq<Record>, bindingId: string): seq<Record> {
    if d.hasCompose then
      StoppedBy(records, bindingId, true) + StoppedBy(StopPass(records, bindingId, true), bindingId, false)
    else StoppedBy(records, bindingId, false)
  }

  /** Every formerly running record of the binding is returned once, as stopped, and nothing else. */
  lemma StoppedRecordsOnce(d: Deployment, records: seq<Record>, bindingId: string)
    requires DistinctBy(records, RuntimeIdOf)
    ensures DistinctBy(StoppedRecords(d, records, bindingId), RuntimeIdOf)
    ensures forall x :: x in StoppedRecords(d, records, bindingId) <==>
              exists r :: r in records && Takes(r, bindingId, false) && x == r.(status := Stopped)
  {
    StoppedByMembers(records, bindingId, false);
    if d.hasCompose {
      var first := StopPass(records, bindingId, true);
      assert forall i :: 0 <= i < |records| ==> RuntimeIdOf(first[i]) == RuntimeIdOf(records[i]);
      assert DistinctBy(first, RuntimeIdOf) by {
        forall i, j | 0 <= i < j < |first| ensures RuntimeIdOf(first[i]) != RuntimeIdOf(first[j]) {
          assert RuntimeIdOf(records[i]) != RuntimeIdOf(records[j]);
        }
      }
      StoppedByMembers(records, bindingId, true);
      StoppedByMembers(first, bindingId, false);
      TwoPasses(records, first, bindingId);
    }
  }

  /** Saving a record whose id is that of the i-th one replaces that one. */
  lemma SaveAtOwnPlace(original: seq<Record>, records: seq<Record>, i: nat, r: Record)
    requires DistinctBy(original, RuntimeIdOf) && i < |original| == |records|
             && RuntimeIdOf(r) == RuntimeIdOf(original[i])
    requires forall j :: 0 <= j < |original| ==> RuntimeIdOf(records[j]) == RuntimeIdOf(original[j])
    ensures Save(records, r) == records[i := r]
  {
    assert RuntimeIdOf(records[i]) == RuntimeIdOf(r);
    forall j | 0 <= j < |records| && j != i ensures RuntimeIdOf(records[j]) != RuntimeIdOf(r) {
      assert RuntimeIdOf(original[if i < j then i else j]) != RuntimeIdOf(original[if i < j then j else i]);
    }
  }

  ghost predicate StoppedFrom(x: Record, records: seq<Record>, bindingId: string, compose: bool) {
    exists r :: r in records && Takes(r, bindingId, false) && r.backend.Compose? == compose
                && x == r.(status := Stopped)
  }

  /** The store when the first records of a pass are done. */
  function PassedUntil(records: seq<Record>, i: nat, bindingId: string, composeOnly: bool): (r: seq<Record>)
    requires i <= |records|
    ensures |r| == |records|
    ensures forall j :: 0 <= j < |records| ==>
              r[j] == if j < i && Takes(records[j], bindingId, composeOnly) then records[j].(status := Stopped)
                      else records[j]
  {
    StopPass(records[..i], bindingId, composeOnly) + records[i..]
  }

  lemma PassStep(records: seq<Record>, i: nat, bindingId: string, composeOnly: bool)
    requires DistinctBy(records, RuntimeIdOf) && i < |records|
    ensures var before, stopped := PassedUntil(records, i, bindingId, composeOnly), records[i].(status := Stopped);
      PassedUntil(records, i + 1, bindingId, composeOnly)
        == if Takes(records[i], bindingId, composeOnly) then Save(before, stopped) else before
    ensures StoppedBy(records[..i + 1], bindingId, composeOnly)
         == StoppedBy(records[..i], bindingId, composeOnly)
            + if Takes(records[i], bindingId, composeOnly) then [records[i].(status := Stopped)] else []
  {
    var before, stopped := PassedUntil(records, i, bindingId, composeOnly), records[i].(status := Stopped);
    assert records[..i + 1][..i] == records[..i];
    SaveAtOwnPlace(records, before, i, stopped);
    if Takes(records[i], bindingId, composeOnly) {
      assert PassedUntil(records, i + 1, bindingId, composeOnly) == before[i := stopped];
    } else {
      assert PassedUntil(records, i + 1, bindingId, composeOnly) == before;
    }
  }

  /** After the Compose pass, the other ones are left to stop. */
  lemma SecondPass(records: seq<Record>, first: seq<Record>, bindingId: string, x: Record)
    requires first == StopPass(records, bindingId, true)
    ensures (exists r :: r in first && Takes(r, bindingId, false) && x == r.(status := Stopped))
            <==> StoppedFrom(x, records, bindingId, false)
  {
    if r :| r in first && Takes(r, bindingId, false) && x == r.(status := Stopped) {
      var i :| 0 <= i < |first| && first[i] == r;
      assert records[i] in records && records[i] == r;
    }
    if r :| r in records && Takes(r, bindingId, false) && !r.backend.Compose? && x == r.(status := Stopped) {
      var i :| 0 <= i < |records| && records[i] == r;
      assert first[i] == r && r in first;
    }
  }

  lemma PassesApart(records: seq<Record>, bindingId: string, x: Record, y: Record)
    requires DistinctBy(records, RuntimeIdOf)
    requires StoppedFrom(x, records, bindingId, true) && StoppedFrom(y, records, bindingId, false)
    ensures RuntimeIdOf(x) != RuntimeIdOf(y)
  {
    var r :| r in records && r.backend.Compose? && x == r.(status := Stopped);
    var s :| s in records && !s.backend.Compose? && y == s.(status := Stopped);
    var k :| 0 <= k < |records| && records[k] == r;
    var l :| 0 <= l < |records| && records[l] == s;
    assert RuntimeIdOf(records[if k < l then k else l]) != RuntimeIdOf(records[if k < l then l else k]);
  }

  lemma DistinctTogether(a: seq<Record>, b: seq<Record>)
    requires DistinctBy(a, RuntimeIdOf) && DistinctBy(b, RuntimeIdOf)
    requires forall x, y :: x in a && y in b ==> RuntimeIdOf(x) != RuntimeIdOf(y)
    ensures DistinctBy(a + b, RuntimeIdOf)
  {
    var n := |a|;
    forall i, j | 0 <= i < j < |a + b| ensures RuntimeIdOf((a + b)[i]) != RuntimeIdOf((a + b)[j]) {
      if i < n <= j {
        assert a[i] in a && b[j - n] in b;
      } else if n <= i {
        assert RuntimeIdOf(b[i - n]) != RuntimeIdOf(b[j - n]);
      }
    }
  }

  lemma TwoPasses(records: seq<Record>, first: seq<Record>, bindingId: string)
    requires DistinctBy(records, RuntimeIdOf) && first == StopPass(records, bindingId, true)
    requires DistinctBy(StoppedBy(records, bindingId, true), RuntimeIdOf)
    requires DistinctBy(StoppedBy(first, bindingId, false), RuntimeIdOf)
    requires forall x :: x in StoppedBy(records, bindingId, true) <==>
               exists r :: r in records && Takes(r, bindingId, true) && x == r.(status := Stopped)
    requires forall x :: x in StoppedBy(first, bindingId, false) <==>
               exists r :: r in first && Takes(r, bindingId, false) && x == r.(status := Stopped)
    ensures var both := StoppedBy(records, bindingId, true) + StoppedBy(first, bindingId, false);
      && DistinctBy(both, RuntimeIdOf)
      && forall x :: x in both <==> exists r :: r in records && Takes(r, bindingId, false) && x == r.(status := Stopped)
  {
    var a, b := StoppedBy(records, bindingId, true), StoppedBy(first, bindingId, false);
    forall x
      ensures x in a <==> StoppedFrom(x, records, bindingId, true)
      ensures x in b <==> StoppedFrom(x, records, bindingId, false)
    {
      SecondPass(records, first, bindingId, x);
    }
    forall x, y | x in a && y in b ensures RuntimeIdOf(x) != RuntimeIdOf(y) {
      PassesApart(records, bindingId, x, y);
    }
    DistinctTogether(a, b);
  }

  lemma PassesStopBinding(d: Deployment, records: seq<Record>, bindingId: string)
    ensures StopPass(if d.hasCompose then StopPass(records, bindingId, true) else records, bindingId, false)
         == StopBinding(records, bindingId)
    ensures StopPass(StopBinding(records, bindingId), bindingId, false) == StopBinding(records, bindingId)
    ensures StoppedBy(StopBinding(records, bindingId), bindingId, false) == []
  {
    NothingToStop(StopBinding(records, bindingId), bindingId);
  }

  lemma {:induction false} NothingToStop(records: seq<Record>, bindingId: string)
    requires forall i :: 0 <= i < |records| ==> !Takes(records[i], bindingId, false)
    ensures StoppedBy(records, bindingId, false) == []
  {
    if records != [] {
      NothingToStop(records[..|records| - 1], bindingId);
    }
  }

  class HybridRuntime {
    const deployment: Deployment
    var records: seq<Record>
    var routes: seq<Route>

    constructor (deployment: Deployment)
      ensures this.deployment == deployment && State() == Plane([], [])
    {
      this.deployment := deployment;
      records, routes := [], [];
    }

    function State(): Plane
      reads this
    {
      Plane(records, routes)
    }

    method UpsertRecord(r: Record)
      modifies `records
      ensures records == Save(old(records), r)
    {
      records := UpsertListItem(records, RuntimeIdOf, r);
    }

    method UpsertAssetGatewayRoutes(bindingId: string, attacker: string, assetId: string, ports: seq<Port>, now: int)
      modifies `routes
      ensures routes == Publish(old(routes), attacker, bindingId, assetId, ports, now)
    {
      var added: seq<Route> := [];
      for i := 0 to |ports|
        invariant added == NewRoutes(attacker, bindingId, assetId, ports[..i], now)
      {
        added := added + [Route(attacker, bindingId, assetId, ports[i].public, ports[i].backend, now)];
      }
      assert ports[..|ports|] == ports;
      if added == [] {
        return;
      }
      routes := ReplaceListItems(routes, RouteKey, added);
    }

    method ResolvePortMappings(assetId: string, mappings: seq<PortMapping>) returns (ports: seq<Port>)
      ensures ports == ResolvePorts(deployment, assetId, mappings)
    {
      ports := [];
      for i := 0 to |mappings|
        invariant ports == ResolvePorts(deployment, assetId, mappings[..i])
      {
        assert mappings[..i + 1][..i] == mappings[..i];
        ports := ports + [Port(PublicPort(deployment, assetId, mappings[i]), mappings[i].container)];
      }
      assert mappings[..|mappings|] == mappings;
    }

    method AttachGatewayRoute(r: Record, attacker: string, now: int) returns (result: Record)
      modifies this
      ensures State() == Attach(old(State()), r, attacker, now).plane
      ensures result == Attach(old(State()), r, attacker, now).record
    {
      if attacker == "" || !r.managed {
        return r;
      }
      UpsertAssetGatewayRoutes(r.bindingId, attacker, r.assetId, r.ports, now);
      if r.hidden {
        result := r.(hidden := false);
        UpsertRecord(result);
      } else {
        result := r;
      }
    }

    method RecordRunning(
        id: string, bindingId: string, t: Template, backend: Backend, attacker: string, warm: bool, managed: bool,
        ports: seq<Port>, now: int) returns (result: Record)
      modifies this
      ensures State() ==
              StartSucceeded(old(State()), id, bindingId, t, backend, attacker, warm, managed, ports, now).plane
      ensures result ==
              StartSucceeded(old(State()), id, bindingId, t, backend, attacker, warm, managed, ports, now).record
    {
      result := Record(id, bindingId, t.id, Running, backend, warm, managed, ports, []);
      if managed && attacker != "" {
        UpsertAssetGatewayRoutes(bindingId, attacker, t.id, ports, now);
      }
      UpsertRecord(result);
    }

    method RecordFailed(
        id: string, bindingId: string, t: Template, backend: Backend, warm: bool) returns (result: Record)
      modifies `records
      ensures State() == StartFailed(old(State()), id, bindingId, t, backend, warm).plane
      ensures result == StartFailed(old(State()), id, bindingId, t, backend, warm).record
    {
      result := Record(id, bindingId, t.id, Failed, backend, warm, false, [], []);
      UpsertRecord(result);
    }

    method StartWithCompose(
        id: string, bindingId: string, t: Template, attacker: string, warm: bool, outcome: StartOutcome, now: int)
      returns (result: Record)
      requires t.runtime.Some?
      modifies this
      ensures var s := StartCompose(deployment, old(State()), id, bindingId, t, attacker, warm, outcome, now);
              State() == s.plane && result == s.record
    {
      var existing := ExistingRunning(records, bindingId, t.id);
      if existing.Some? {
        result := AttachGatewayRoute(existing.value, attacker, now);
      } else if !outcome.ComesUp? {
        result := RecordFailed(id, bindingId, t, Compose, warm);
      } else {
        var ports: seq<Port> := [];
        if outcome.reachable {
          ports := ResolvePortMappings(t.id, t.runtime.value.ports);
        }
        result := RecordRunning(id, bindingId, t, Compose, attacker, warm, ports != [], ports, now);
      }
    }

    method StartWithDocker(
        id: string, bindingId: string, t: Template, attacker: string, warm: bool, override: Option<RuntimeSpec>,
        outcome: StartOutcome, now: int) returns (result: Record)
      requires override.Some? || t.runtime.Some?
      modifies this
      ensures var s := StartDocker(deployment, old(State()), id, bindingId, t, attacker, warm, override, outcome, now);
              State() == s.plane && result == s.record
    {
      var existing := ExistingRunning(records, bindingId, t.id);
      if existing.Some? && override.None? {
        result := AttachGatewayRoute(existing.value, attacker, now);
        return;
      }
      var spec := if override.Some? then override.value else t.runtime.value;
      if outcome.FailsEarly? || !spec.backend.Docker? {
        result := RecordFailed(id, bindingId, t, Docker, warm);
        return;
      }
      if existing.Some? {
        UpsertRecord(existing.value.(status := Stopped));
      }
      if outcome.FailsLate? {
        result := RecordFailed(id, bindingId, t, Docker, warm);
        return;
      }
      var ports := ResolvePortMappings(t.id, spec.ports);
      var managed := GatewayManaged(deployment, t, spec);
      result := RecordRunning(id, bindingId, t, Docker, attacker, warm, managed, ports, now);
    }

    method StartWithMock(id: string, bindingId: string, t: Template, warm: bool, now: int) returns (result: Record)
      modifies this
      ensures var s := StartMock(old(State()), id, bindingId, t, warm, now);
              State() == s.plane && result == s.record
    {
      var existing := ExistingRunning(records, bindingId, t.id);
      if existing.Some? {
        return existing.value;
      }
      result := RecordRunning(id, bindingId, t, Mock, "", warm, false, [], now);
    }

    method Start(
        id: string, bindingId: string, t: Template, attacker: string, warm: bool, override: Option<RuntimeSpec>,
        outcome: StartOutcome, now: int) returns (result: Record)
      modifies this
      ensures var s := StartAsset(deployment, old(State()), id, bindingId, t, attacker, warm, override, outcome, now);
              State() == s.plane && result == s.record
    {
      if override.None? && deployment.hasCompose && t.runtime.Some? && t.runtime.value.backend.Compose? {
        result := StartWithCompose(id, bindingId, t, attacker, warm, outcome, now);
      } else if override.Some? || (t.runtime.Some? && t.runtime.value.backend.Docker?) {
        result := StartWithDocker(id, bindingId, t, attacker, warm, override, outcome, now);
      } else {
        result := StartWithMock(id, bindingId, t, warm, now);
      }
    }

    method Configure(bindingId: string, assetId: string, configurationId: string) returns (result: Option<Record>)
      modifies `records
      ensures State() == ApplyConfiguration(old(State()), bindingId, assetId, configurationId)
      ensures result.Some? <==> ExistingRunning(old(records), bindingId, assetId).Some?
    {
      var existing := ExistingRunning(records, bindingId, assetId);
      if existing.None? {
        return None;
      }
      result := Some(Configured(existing.value, configurationId));
      UpsertRecord(result.value);
    }

    /** One adapter's stopping loop: it walks over the records as they were when it began. */
    method StopBindingAssets(bindingId: string, composeOnly: bool) returns (stopped: seq<Record>)
      requires DistinctBy(records, RuntimeIdOf)
      modifies `records
      ensures records == StopPass(old(records), bindingId, composeOnly)
      ensures stopped == StoppedBy(old(records), bindingId, composeOnly)
    {
      var snapshot := records;
      stopped := [];
      assert PassedUntil(snapshot, 0, bindingId, composeOnly) == snapshot;
      for i := 0 to |snapshot|
        invariant records == PassedUntil(snapshot, i, bindingId, composeOnly)
        invariant stopped == StoppedBy(snapshot[..i], bindingId, composeOnly)
      {
        PassStep(snapshot, i, bindingId, composeOnly);
        if Takes(snapshot[i], bindingId, composeOnly) {
          var updated := snapshot[i].(status := Stopped);
          UpsertRecord(updated);
          stopped := stopped + [updated];
        }
      }
      assert snapshot[..|snapshot|] == snapshot;
    }

    method StopBindingRuntimes(bindingId: string) returns (stopped: seq<Record>)
      requires DistinctBy(records, RuntimeIdOf)
      modifies `records
      ensures records == StopBinding(old(records), bindingId)
      ensures stopped == StoppedRecords(deployment, old(records), bindingId)
    {
      ghost var before := records;
      PassesStopBinding(deployment, before, bindingId);
      StoppedRecordsOnce(deployment, before, bindingId);
      var all: seq<Record> := [];
      if deployment.hasCompose {
        all := StopBindingAssets(bindingId, true);
        KeepsIds(before, records);
      }
      var more := StopBindingAssets(bindingId, false);
      all := all + more;
      KeepsIds(before, records);
      more := StopBindingAssets(bindingId, false);
      assert more == [];
      stopped := DedupePreserveBy(all, RuntimeIdOf);
      DedupeByOfDistinct(all);
    }
  }

  lemma KeepsIds(before: seq<Record>, after: seq<Record>)
    requires DistinctBy(before, RuntimeIdOf) && |after| == |before|
    requires forall i :: 0 <= i < |before| ==> after[i].runtimeId == before[i].runtimeId
    ensures DistinctBy(after, RuntimeIdOf)
  {
    forall i, j | 0 <= i < j < |after| ensures RuntimeIdOf(after[i]) != RuntimeIdOf(after[j]) {
      assert RuntimeIdOf(before[i]) != RuntimeIdOf(before[j]);
    }
  }

  lemma {:induction false} DedupeByOfDistinct(records: seq<Record>)
    requires DistinctBy(records, RuntimeIdOf)
    ensures DedupeBy(records, RuntimeIdOf) == records
  {
    if records != [] {
      var n := |records| - 1;
      DedupeByOfDistinct(records[..n]);
      assert !HasKey(records[..n], RuntimeIdOf, RuntimeIdOf(records[n]));
    }
  }
}
