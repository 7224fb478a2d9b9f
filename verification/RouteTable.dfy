/** The route table of the asset gateway: per attacker and public port, the backend of the asset
    that was revealed last. */
module RouteTable {
  import opened Wrappers
  import opened Iterables
  import opened ListStore
  import opened Sorting

  datatype Port = Port(public: int, backend: int)

  datatype Route = Route(
    attacker: string, bindingId: string, assetId: string, publicPort: int, backendPort: int, updatedAt: int)

  function RouteKey(r: Route): (string, string, int) {
    (r.bindingId, r.assetId, r.publicPort)
  }

  function NewRoutes(attacker: string, bindingId: string, assetId: string, ports: seq<Port>, now: int): (r: seq<Route>)
    ensures |r| == |ports|
    ensures forall i :: 0 <= i < |r| ==>
              r[i] == Route(attacker, bindingId, assetId, ports[i].public, ports[i].backend, now)
  {
    seq(|ports|, i requires 0 <= i < |ports| =>
      Route(attacker, bindingId, assetId, ports[i].public, ports[i].backend, now))
  }

  /** The table after the ports of one asset were published for an attacker. */
  function Publish(routes: seq<Route>, attacker: string, bindingId: string, assetId: string, ports: seq<Port>, now: int)
    : seq<Route>
  {
    if ports == [] then routes
    else ReplaceAll(routes, RouteKey, NewRoutes(attacker, bindingId, assetId, ports, now))
  }

  function WithPort(routes: seq<Route>, port: int): seq<Route> {
    if routes == [] then []
    else
      var n := |routes| - 1;
      WithPort(routes[..n], port) + if routes[n].publicPort == port then [routes[n]] else []
  }

  function WithAttacker(routes: seq<Route>, attacker: string): seq<Route> {
    if routes == [] then []
    else
      var n := |routes| - 1;
      WithAttacker(routes[..n], attacker) + if routes[n].attacker == attacker then [routes[n]] else []
  }

  predicate OlderOrSame(a: Route, b: Route) {
    a.updatedAt <= b.updatedAt
  }

  function SelectRoute(routes: seq<Route>, client: string, port: int, singleRouteFallback: bool): Option<Route> {
    var portRoutes := WithPort(routes, port);
    var exact := WithAttacker(portRoutes, client);
    if exact != [] then Some(Sort(exact, OlderOrSame)[|exact| - 1])
    else if singleRouteFallback && |portRoutes| == 1 then Some(portRoutes[0])
    else None
  }

  // ----- The table as a map from attacker and port to route -----

  predicate For(r: Route, attacker: string, port: int) {
    r.attacker == attacker && r.publicPort == port
  }

  function LastRoute(routes: seq<Route>, attacker: string, port: int): (r: Option<Route>)
    ensures r.Some? ==> r.value in routes && For(r.value, attacker, port)
  {
    if routes == [] then None
    else
      var n := |routes| - 1;
      if For(routes[n], attacker, port) then Some(routes[n]) else LastRoute(routes[..n], attacker, port)
  }

  ghost predicate InUpdateOrder(routes: seq<Route>) {
    Sorted(routes, OlderOrSame)
  }

  lemma ExactLast(routes: seq<Route>, attacker: string, port: int)
    requires routes != []
    ensures var n := |routes| - 1; var front := WithAttacker(WithPort(routes[..n], port), attacker);
      WithAttacker(WithPort(routes, port), attacker)
          == if For(routes[n], attacker, port) then front + [routes[n]] else front
  {
    var n := |routes| - 1;
    WithAttackerLast(WithPort(routes[..n], port), routes[n], attacker);
    assert WithPort(routes, port) ==
           if routes[n].publicPort == port then WithPort(routes[..n], port) + [routes[n]]
           else WithPort(routes[..n], port);
  }

  /** The routes of a client and port, in the order of the table. */
  lemma {:induction false} ExactAreRoutes(routes: seq<Route>, attacker: string, port: int)
    ensures forall r :: r in WithAttacker(WithPort(routes, port), attacker) ==> r in routes
  {
    if routes != [] {
      var n := |routes| - 1;
      ExactAreRoutes(routes[..n], attacker, port);
      ExactLast(routes, attacker, port);
      assert routes == routes[..n] + [routes[n]];
    }
  }

  lemma {:induction false} ExactInOrder(routes: seq<Route>, attacker: string, port: int)
    requires InUpdateOrder(routes)
    ensures InUpdateOrder(WithAttacker(WithPort(routes, port), attacker))
  {
    if routes != [] {
      var n := |routes| - 1;
      ExactInOrder(routes[..n], attacker, port);
      ExactAreRoutes(routes[..n], attacker, port);
      ExactLast(routes, attacker, port);
      var front := WithAttacker(WithPort(routes[..n], port), attacker);
      forall i | 0 <= i < |front| ensures OlderOrSame(front[i], routes[n]) {
        assert front[i] in routes[..n];
      }
    }
  }

  lemma ExactRoutes(routes: seq<Route>, attacker: string, port: int)
    requires InUpdateOrder(routes)
    ensures InUpdateOrder(WithAttacker(WithPort(routes, port), attacker))
    ensures forall r :: r in WithAttacker(WithPort(routes, port), attacker) ==> r in routes
    ensures var exact := WithAttacker(WithPort(routes, port), attacker);
            LastRoute(routes, attacker, port) == if exact == [] then None else Some(exact[|exact| - 1])
  {
    ExactInOrder(routes, attacker, port);
    ExactAreRoutes(routes, attacker, port);
    ExactEndsWithLast(routes, attacker, port);
  }

  lemma {:induction false} ExactEndsWithLast(routes: seq<Route>, attacker: string, port: int)
    ensures var exact := WithAttacker(WithPort(routes, port), attacker);
            LastRoute(routes, attacker, port) == if exact == [] then None else Some(exact[|exact| - 1])
  {
    if routes != [] {
      ExactEndsWithLast(routes[..|routes| - 1], attacker, port);
      ExactLast(routes, attacker, port);
    }
  }

  lemma WithAttackerLast(front: seq<Route>, last: Route, attacker: string)
    ensures WithAttacker(front + [last], attacker) ==
            WithAttacker(front, attacker) + if last.attacker == attacker then [last] else []
  {
    assert (front + [last])[..|front|] == front;
  }

  /** On a table in update order, the selection is the last route for the client and port. */
  lemma SelectIsLastRoute(routes: seq<Route>, client: string, port: int)
    requires InUpdateOrder(routes)
    ensures SelectRoute(routes, client, port, false) == LastRoute(routes, client, port)
  {
    ExactRoutes(routes, client, port);
    SortOfSorted(WithAttacker(WithPort(routes, port), client), OlderOrSame);
  }

  lemma OlderOrSameIsPreorder()
    ensures TotalPreorder(OlderOrSame)
  {
  }

  lemma {:induction false} FilterMembers(routes: seq<Route>, client: string, port: int)
    ensures forall r :: r in WithPort(routes, port) <==> r in routes && r.publicPort == port
    ensures forall r :: r in WithAttacker(routes, client) <==> r in routes && r.attacker == client
  {
    if routes != [] {
      var n := |routes| - 1;
      FilterMembers(routes[..n], client, port);
      assert routes == routes[..n] + [routes[n]];
    }
  }

  /** Whatever the order of the table: without the fallback the route is one of the client's own on
      that port, and there is one whenever the client has any. */
  lemma SelectedRouteIsClients(routes: seq<Route>, client: string, port: int)
    ensures var r := SelectRoute(routes, client, port, false);
      && (r.Some? ==> r.value in routes && For(r.value, client, port))
      && (r.None? <==> forall x :: x in routes ==> !For(x, client, port))
  {
    var portRoutes := WithPort(routes, port);
    var exact := WithAttacker(portRoutes, client);
    FilterMembers(routes, client, port);
    FilterMembers(portRoutes, client, port);
    OlderOrSameIsPreorder();
    SortMembers(exact, OlderOrSame);
    if exact != [] {
      assert Sort(exact, OlderOrSame)[|exact| - 1] in Sort(exact, OlderOrSame);
      assert exact[0] in exact;
    }
  }

  /** With the fallback a client is sent to another attacker's backend exactly when it has no route
      of its own on the port and the port has a single route. */
  lemma FallbackLeaksIff(routes: seq<Route>, client: string, port: int)
    ensures var r := SelectRoute(routes, client, port, true);
      (r.Some? && r.value.attacker != client) <==>
      (SelectRoute(routes, client, port, false).None? && |WithPort(routes, port)| == 1)
  {
    SelectedRouteIsClients(routes, client, port);
    FilterMembers(routes, client, port);
    if |WithPort(routes, port)| == 1 {
      assert WithPort(routes, port)[0] in WithPort(routes, port);
    }
  }

  // ----- Publishing -----

  lemma {:induction false} WithoutKeysInOrder(routes: seq<Route>, replacements: seq<Route>)
    requires InUpdateOrder(routes)
    ensures InUpdateOrder(WithoutKeys(routes, RouteKey, replacements))
  {
    if routes != [] {
      var n := |routes| - 1;
      WithoutKeysInOrder(routes[..n], replacements);
      WithoutKeysMembers(routes[..n], RouteKey, replacements);
      var front := WithoutKeys(routes[..n], RouteKey, replacements);
      forall i | 0 <= i < |front| ensures OlderOrSame(front[i], routes[n]) {
        assert front[i] in routes[..n];
      }
    }
  }

  lemma PublishInOrder(
      routes: seq<Route>, attacker: string, bindingId: string, assetId: string, ports: seq<Port>, now: int)
    requires InUpdateOrder(routes) && forall r :: r in routes ==> r.updatedAt <= now
    ensures InUpdateOrder(Publish(routes, attacker, bindingId, assetId, ports, now))
    ensures forall r :: r in Publish(routes, attacker, bindingId, assetId, ports, now) ==> r.updatedAt <= now
    ensures forall r :: r in Publish(routes, attacker, bindingId, assetId, ports, now) ==>
              r in routes || (r.attacker == attacker && r.bindingId == bindingId && r.assetId == assetId)
  {
    if ports != [] {
      var added := NewRoutes(attacker, bindingId, assetId, ports, now);
      WithoutKeysInOrder(routes, added);
      WithoutKeysMembers(routes, RouteKey, added);
      var preserved := WithoutKeys(routes, RouteKey, added);
      assert forall i :: 0 <= i < |preserved| ==> preserved[i] in preserved;
    }
  }

  lemma {:induction false} LastRouteConcat(a: seq<Route>, b: seq<Route>, attacker: string, port: int)
    ensures LastRoute(a + b, attacker, port) ==
            if LastRoute(b, attacker, port).Some? then LastRoute(b, attacker, port) else LastRoute(a, attacker, port)
  {
    if b == [] {
      assert a + b == a;
    } else {
      var n := |b| - 1;
      assert (a + b)[..|a| + n] == a + b[..n];
      LastRouteConcat(a, b[..n], attacker, port);
    }
  }

  lemma {:induction false} LastRouteWithoutKeys(
      routes: seq<Route>, replacements: seq<Route>, attacker: string, port: int)
    requires forall r :: r in routes && For(r, attacker, port) ==> !HasKey(replacements, RouteKey, RouteKey(r))
    ensures LastRoute(WithoutKeys(routes, RouteKey, replacements), attacker, port) == LastRoute(routes, attacker, port)
  {
    if routes != [] {
      var n := |routes| - 1;
      LastRouteWithoutKeys(routes[..n], replacements, attacker, port);
      var front := WithoutKeys(routes[..n], RouteKey, replacements);
      LastRouteConcat(front, [routes[n]], attacker, port);
      assert [routes[n]][..0] == [];
      assert front + [] == front;
    }
  }

  predicate Offers(ports: seq<Port>, port: int) {
    exists i :: 0 <= i < |ports| && ports[i].public == port
  }

  /** The attacker's binding is not shared, so republishing an asset only ever touches routes of
      that attacker. */
  ghost predicate BindingBelongsTo(routes: seq<Route>, bindingId: string, attacker: string) {
    forall r :: r in routes && r.bindingId == bindingId ==> r.attacker == attacker
  }

  /** Main result: publishing overwrites the map from attacker and port to route at the published
      ports of that attacker and nowhere else. */
  lemma PublishOverwrites(
      routes: seq<Route>, attacker: string, bindingId: string, assetId: string, ports: seq<Port>, now: int,
      client: string, port: int)
    requires BindingBelongsTo(routes, bindingId, attacker)
    ensures var after := LastRoute(Publish(routes, attacker, bindingId, assetId, ports, now), client, port);
      if client == attacker && Offers(ports, port)
      then after.Some? && after.value.bindingId == bindingId && after.value.assetId == assetId
           && after.value.updatedAt == now && Port(port, after.value.backendPort) in ports
      else after == LastRoute(routes, client, port)
  {
    if ports != [] {
      var added := NewRoutes(attacker, bindingId, assetId, ports, now);
      var preserved := WithoutKeys(routes, RouteKey, added);
      LastRouteConcat(preserved, added, client, port);
      if client == attacker && Offers(ports, port) {
        LastOfAdded(added, attacker, port);
        var r := LastRoute(added, client, port).value;
        var i :| 0 <= i < |added| && added[i] == r;
        assert ports[i] == Port(port, r.backendPort);
      } else {
        NoneOfAdded(added, client, port);
        LastRouteWithoutKeys(routes, added, client, port);
      }
    }
  }

  lemma {:induction false} LastOfAdded(added: seq<Route>, attacker: string, port: int)
    requires exists i :: 0 <= i < |added| && For(added[i], attacker, port)
    ensures LastRoute(added, attacker, port).Some?
  {
    var n := |added| - 1;
    if !For(added[n], attacker, port) {
      var i :| 0 <= i < |added| && For(added[i], attacker, port);
      assert For(added[..n][i], attacker, port);
      LastOfAdded(added[..n], attacker, port);
    }
  }

  lemma {:induction false} NoneOfAdded(added: seq<Route>, attacker: string, port: int)
    requires forall i :: 0 <= i < |added| ==> !For(added[i], attacker, port)
    ensures LastRoute(added, attacker, port) == None
  {
    if added != [] {
      NoneOfAdded(added[..|added| - 1], attacker, port);
    }
  }
}
