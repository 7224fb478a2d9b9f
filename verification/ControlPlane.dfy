/** The honeynet's control plane as a state machine: bindings, runtime records, routes and the
    gateway's view of what is exposed, and the events that change them. One event is one service
    call or one action of an orchestration request, so that runs cover every interleaving of
    requests at that grain. Identifiers that the source generates and whether containers come up
    are part of the events. */
module ControlPlane {
  import opened Wrappers
  import opened Iterables
  import opened ListStore
  import opened Bindings
  import opened RouteTable
  import opened Runtime

  datatype Setting = Setting(deployment: Deployment, ttl: int, catalogue: seq<Template>)

  datatype Action =
    | Unlock(assetId: string)
    | Configure(assetId: string, configurationId: string, target: Option<string>, targetRuntime: Option<RuntimeSpec>)
    | RouteUpdate(reason: string)
    | RecycleBinding
    | Noop

  /** The entries of the gateway's route log. */
  datatype Note =
    | Exposes(assetId: string)
    | RoutesTo(assetId: string)
    | Configures(assetId: string, configurationId: string)
    | Updated(reason: string)
    | WasRecycled

  datatype GatewayState = GatewayState(
    bindingId: string, attacker: string, status: BindingStatus, exposed: seq<string>, notes: seq<Note>)

  function GatewayIdOf(g: GatewayState): string {
    g.bindingId
  }

  /** When something happens, the identifier a new runtime record would get, and how a start goes. */
  datatype Env = Env(now: int, runtimeId: string, outcome: StartOutcome)

  datatype World = World(bindings: seq<Binding>, plane: Plane, exposure: seq<GatewayState>, clock: int)

  const EMPTY := World([], Plane([], []), [], 0)

  datatype Event =
    | Resolve(attacker: string, freshId: string, now: int)
    | Heartbeat(id: string, ts: int, now: int)
    | Recycle(id: string, hard: bool, now: int)
    | Act(id: string, action: Action, env: Env)
    | Sync(id: string, up: set<string>, notes: seq<Note>, now: int)
    | Prewarm(id: string, template: Template, env: Env)
  {
    function Time(): int {
      match this
      case Resolve(_, _, now) => now
      case Heartbeat(_, _, now) => now
      case Recycle(_, _, now) => now
      case Act(_, _, env) => env.now
      case Sync(_, _, _, now) => now
      case Prewarm(_, _, env) => env.now
    }
  }

  // ----- The parts of a step -----

  function FindTemplate(catalogue: seq<Template>, assetId: string): (r: Option<Template>)
    ensures r.Some? ==> r.value in catalogue && r.value.id == assetId
  {
    if catalogue == [] then None
    else if catalogue[0].id == assetId then Some(catalogue[0])
    else FindTemplate(catalogue[1..], assetId)
  }

  function SaveBinding(w: World, b: Binding): World {
    w.(bindings := Bindings.Save(w.bindings, b))
  }

  /** The start of an asset's runtime, when the catalogue knows the asset. */
  function StartOf(
      s: Setting, w: World, id: string, attacker: string, assetId: string, override: Option<RuntimeSpec>, env: Env)
    : Option<Start>
  {
    match FindTemplate(s.catalogue, assetId)
    case None => None
    case Some(t) =>
      Some(StartAsset(s.deployment, w.plane, env.runtimeId, id, t, attacker, false, override, env.outcome, env.now))
  }

  function StartIn(
      s: Setting, w: World, id: string, attacker: string, assetId: string, override: Option<RuntimeSpec>,
      env: Env): World
  {
    match StartOf(s, w, id, attacker, assetId, override, env)
    case None => w
    case Some(start) => w.(plane := start.plane)
  }

  /** Warming an asset starts its backend hidden and for no attacker. */
  function WarmIn(s: Setting, w: World, id: string, t: Template, env: Env): World {
    w.(plane := StartAsset(s.deployment, w.plane, env.runtimeId, id, t, "", true, None, env.outcome, env.now).plane)
  }

  function ConfigureIn(w: World, id: string, assetId: string, configurationId: string): World {
    w.(plane := ApplyConfiguration(w.plane, id, assetId, configurationId))
  }

  /** Unlocking an asset and then starting it, or refreshing its route when it runs already. */
  function UnlockIn(s: Setting, w: World, b: Binding, assetId: string, override: Option<RuntimeSpec>, env: Env): World {
    StartIn(s, SaveBinding(w, WithUnlocked(b, [assetId], env.now)), b.id, b.attacker, assetId, override, env)
  }

  /** Recording a configuration reveal; a variant that swaps the runtime is attached only after the
      swap. */
  function RevealIn(w: World, b: Binding, assetId: string, configurationId: string, swaps: bool, env: Env): World {
    var w1 := SaveBinding(w, WithRevealed(b, assetId, [configurationId], env.now));
    if swaps then w1 else ConfigureIn(w1, b.id, assetId, configurationId)
  }

  /** A configuration may expose another asset, or its own under a new runtime. */
  function TargetIn(
      s: Setting, w: World, b: Binding, target: Option<string>, override: Option<RuntimeSpec>, env: Env): World {
    if target.Some? && target.value != "" then UnlockIn(s, w, b, target.value, override, env) else w
  }

  function WithTarget(b: Binding, target: Option<string>, now: int): Binding {
    if target.Some? && target.value != "" then WithUnlocked(b, [target.value], now) else b
  }

  function TargetNotes(b: Binding, target: Option<string>): seq<Note> {
    if target.Some? && target.value != "" then [UnlockNote(b, target.value)] else []
  }

  function ActOn(s: Setting, w: World, b: Binding, action: Action, env: Env): World {
    match action
    case Unlock(a) => if a == "" then w else UnlockIn(s, w, b, a, None, env)
    case Configure(a, c, target, runtime) =>
      if a == "" || c == "" then w
      else
        var b1 := WithRevealed(b, a, [c], env.now);
        var w1 := RevealIn(w, b, a, c, runtime.Some?, env);
        var w2 := TargetIn(s, w1, b1, target, runtime, env);
        if runtime.Some? then ConfigureIn(w2, b.id, a, c) else w2
    case RecycleBinding =>
      SaveBinding(StopAll(w, b.id), RecycledBinding(b, false, env.now, s.ttl))
    case RouteUpdate(_) => w
    case Noop => w
  }

  function StopAll(w: World, id: string): World {
    w.(plane := w.plane.(records := StopBinding(w.plane.records, id)))
  }

  /** The binding as the action leaves it. */
  function Acted(s: Setting, b: Binding, action: Action, env: Env): Binding {
    match action
    case Unlock(a) => if a == "" then b else WithUnlocked(b, [a], env.now)
    case Configure(a, c, target, _) =>
      if a == "" || c == "" then b else WithTarget(WithRevealed(b, a, [c], env.now), target, env.now)
    case RecycleBinding => RecycledBinding(b, false, env.now, s.ttl)
    case RouteUpdate(_) => b
    case Noop => b
  }

  function Exposure(s: Setting, w: World, b: Binding, up: set<string>, notes: seq<Note>): GatewayState {
    var earlier := FindExposure(w.exposure, b.id);
    GatewayState(b.id, b.attacker, b.status, AccessibleAssets(s.deployment, w.plane.records, b.id, up),
                 (if earlier.Some? then earlier.value.notes else []) + notes)
  }

  function FindExposure(exposure: seq<GatewayState>, id: string): (r: Option<GatewayState>)
    ensures r.Some? ==> r.value in exposure && r.value.bindingId == id
  {
    if exposure == [] then None
    else
      var n := |exposure| - 1;
      if exposure[n].bindingId == id then Some(exposure[n]) else FindExposure(exposure[..n], id)
  }

  // ----- Steps and runs -----

  /** Time does not go back and generated identifiers are new. */
  predicate Enabled(w: World, e: Event) {
    e.Time() >= w.clock &&
    match e
    case Resolve(_, freshId, _) => !HasKey(w.bindings, IdOf, freshId)
    case Act(_, _, env) => !HasKey(w.plane.records, RuntimeIdOf, env.runtimeId)
    case Prewarm(_, _, env) => !HasKey(w.plane.records, RuntimeIdOf, env.runtimeId)
    case _ => true
  }

  /** Everything but `Resolve` is about one binding and does nothing when that does not exist. */
  function Next(s: Setting, w0: World, e: Event): World {
    var w := w0.(clock := e.Time());
    match e
    case Resolve(attacker, freshId, now) => SaveBinding(w, Resolved(w.bindings, attacker, now, s.ttl, freshId))
    case Heartbeat(id, ts, _) => OnBinding(w, id, (b: Binding) => SaveBinding(w, Beaten(b, ts, s.ttl)))
    case Recycle(id, hard, now) =>
      OnBinding(w, id, (b: Binding) => SaveBinding(w, RecycledBinding(b, hard, now, s.ttl)))
    case Act(id, action, env) => OnBinding(w, id, (b: Binding) => ActOn(s, w, b, action, env))
    case Sync(id, up, notes, _) =>
      OnBinding(w, id, (b: Binding) => w.(exposure := Upsert(w.exposure, GatewayIdOf, Exposure(s, w, b, up, notes))))
    case Prewarm(id, t, env) => OnBinding(w, id, (b: Binding) => WarmIn(s, w, b.id, t, env))
  }

  function OnBinding(w: World, id: string, f: Binding -> World): World {
    match FindById(w.bindings, id)
    case None => w
    case Some(b) => f(b)
  }

  /** The state after a sequence of events. */
  function After(s: Setting, w: World, events: seq<Event>): World {
    if events == [] then w
    else var n := |events| - 1; Next(s, After(s, w, events[..n]), events[n])
  }

  predicate ValidRun(s: Setting, w: World, events: seq<Event>) {
    events == [] ||
    (var n := |events| - 1; ValidRun(s, w, events[..n]) && Enabled(After(s, w, events[..n]), events[n]))
  }

  /** What an action adds to the route log of the binding it acts on. */
  function NotesOf(b: Binding, action: Action): seq<Note> {
    match action
    case Unlock(a) => if a == "" then [] else [UnlockNote(b, a)]
    case Configure(a, c, target, _) =>
      if a == "" || c == "" then []
      else [Configures(a, c)] + TargetNotes(b, target)
    case RouteUpdate(reason) => [Updated(reason)]
    case RecycleBinding => [WasRecycled]
    case Noop => []
  }

  function UnlockNote(b: Binding, assetId: string): Note {
    if assetId in b.unlocked then RoutesTo(assetId) else Exposes(assetId)
  }

  // ----- The invariant -----

  ghost predicate IsUnlocked(bindings: seq<Binding>, id: string, assetId: string) {
    var b := FindById(bindings, id);
    b.Some? && assetId in b.value.unlocked
  }

  ghost predicate BelongsTo(bindings: seq<Binding>, id: string, attacker: string) {
    var b := FindById(bindings, id);
    b.Some? && b.value.attacker == attacker
  }

  /** A running backend that is not a hidden standby belongs to an unlocked asset. */
  ghost predicate VisibleOk(bindings: seq<Binding>, records: seq<Record>) {
    forall i :: 0 <= i < |records| && records[i].status.Running? && !records[i].hidden ==>
      IsUnlocked(bindings, records[i].bindingId, records[i].assetId)
  }

  ghost predicate RoutesOk(bindings: seq<Binding>, routes: seq<Route>) {
    forall r :: r in routes ==>
      IsUnlocked(bindings, r.bindingId, r.assetId) && BelongsTo(bindings, r.bindingId, r.attacker)
  }

  ghost predicate ExposureOk(bindings: seq<Binding>, exposure: seq<GatewayState>) {
    forall g :: g in exposure ==>
      BelongsTo(bindings, g.bindingId, g.attacker)
      && forall a :: a in g.exposed ==> IsUnlocked(bindings, g.bindingId, a)
  }

  ghost predicate RoutesTimely(w: World) {
    InUpdateOrder(w.plane.routes) && forall r :: r in w.plane.routes ==> r.updatedAt <= w.clock
  }

  ghost predicate Inv(w: World) {
    && Wellformed(w.bindings)
    && RecordsOk(w.plane.records)
    && VisibleOk(w.bindings, w.plane.records)
    && RoutesOk(w.bindings, w.plane.routes)
    && ExposureOk(w.bindings, w.exposure)
    && RoutesTimely(w)
  }

  /** What was unlocked for a binding and whose binding it is stays true. */
  ghost predicate FactsKept(before: seq<Binding>, after: seq<Binding>, id: string) {
    && (forall a :: IsUnlocked(before, id, a) ==> IsUnlocked(after, id, a))
    && (forall x :: BelongsTo(before, id, x) ==> BelongsTo(after, id, x))
  }

  lemma GrowsKeepsFacts(before: seq<Binding>, after: seq<Binding>, id: string)
    requires Wellformed(before) && Wellformed(after) && Grows(before, after)
    ensures FactsKept(before, after, id)
  {
    if FindById(before, id).Some? {
      GrowsFind(before, after, id);
    }
  }

  /** Growing bindings threaten nothing that was established about the other parts. */
  lemma GrowthKeepsInv(w: World, after: seq<Binding>)
    requires Inv(w) && Wellformed(after) && Grows(w.bindings, after)
    ensures Inv(w.(bindings := after))
  {
    forall id ensures FactsKept(w.bindings, after, id) {
      GrowsKeepsFacts(w.bindings, after, id);
    }
    var records := w.plane.records;
    forall i | 0 <= i < |records| && records[i].status.Running? && !records[i].hidden
      ensures IsUnlocked(after, records[i].bindingId, records[i].assetId)
    {
      assert FactsKept(w.bindings, after, records[i].bindingId);
    }
    forall r | r in w.plane.routes
      ensures IsUnlocked(after, r.bindingId, r.assetId) && BelongsTo(after, r.bindingId, r.attacker)
    {
      assert FactsKept(w.bindings, after, r.bindingId);
    }
    forall g | g in w.exposure
      ensures BelongsTo(after, g.bindingId, g.attacker)
      ensures forall a :: a in g.exposed ==> IsUnlocked(after, g.bindingId, a)
    {
      assert FactsKept(w.bindings, after, g.bindingId);
    }
  }

  /** Saving any of the service's updates of the stored binding. */
  lemma SaveBindingOk(w: World, b: Binding, b': Binding)
    requires Inv(w) && FindById(w.bindings, b.id) == Some(b)
    requires Updates(b, b')
    ensures Inv(SaveBinding(w, b')) && Grows(w.bindings, SaveBinding(w, b').bindings)
    ensures FindById(SaveBinding(w, b').bindings, b.id) == Some(b')
  {
    SaveGrows(w.bindings, b, b');
    GrowthKeepsInv(w, Bindings.Save(w.bindings, b'));
  }

  lemma StoredIsDistinct(w: World, id: string)
    requires Inv(w) && FindById(w.bindings, id).Some?
    ensures var b := FindById(w.bindings, id).value;
            b.id == id && NoRepeats(b)
  {
  }

  lemma StartedOk(
      s: Setting, w: World, id: string, attacker: string, t: Template, warm: bool, override: Option<RuntimeSpec>,
      env: Env)
    requires Inv(w) && !HasKey(w.plane.records, RuntimeIdOf, env.runtimeId) && w.clock == env.now
    requires warm ==> attacker == ""
    requires !warm ==> IsUnlocked(w.bindings, id, t.id) && BelongsTo(w.bindings, id, attacker)
    ensures Inv(w.(plane := StartAsset(s.deployment, w.plane, env.runtimeId, id, t, attacker, warm, override,
                                       env.outcome, env.now).plane))
  {
    StartAssetOk(s.deployment, w.plane, env.runtimeId, id, t, attacker, warm, override, env.outcome, env.now);
    var start := StartAsset(s.deployment, w.plane, env.runtimeId, id, t, attacker, warm, override, env.outcome,
                            env.now);
    PublishInOrder(w.plane.routes, attacker, id, t.id, start.published, env.now);
    StartKeepsVisible(w.bindings, w.plane.records, start.plane.records, id, t.id, !warm);
  }

  lemma StartInOk(
      s: Setting, w: World, id: string, attacker: string, assetId: string, override: Option<RuntimeSpec>, env: Env)
    requires Inv(w) && !HasKey(w.plane.records, RuntimeIdOf, env.runtimeId) && w.clock == env.now
    requires IsUnlocked(w.bindings, id, assetId) && BelongsTo(w.bindings, id, attacker)
    ensures Inv(StartIn(s, w, id, attacker, assetId, override, env))
  {
    var found := FindTemplate(s.catalogue, assetId);
    if found.Some? {
      StartedOk(s, w, id, attacker, found.value, false, override, env);
    }
  }

  lemma WarmInOk(s: Setting, w: World, id: string, t: Template, env: Env)
    requires Inv(w) && !HasKey(w.plane.records, RuntimeIdOf, env.runtimeId) && w.clock == env.now
    ensures Inv(WarmIn(s, w, id, t, env))
  {
    StartedOk(s, w, id, "", t, true, None, env);
  }

  lemma StartKeepsVisible(
      bindings: seq<Binding>, before: seq<Record>, after: seq<Record>, id: string, assetId: string, shows: bool)
    requires VisibleOk(bindings, before) && StartEffect(before, after, id, assetId, shows)
    requires shows ==> IsUnlocked(bindings, id, assetId)
    ensures VisibleOk(bindings, after)
  {
  }

  lemma ConfigureInOk(w: World, id: string, assetId: string, configurationId: string)
    requires Inv(w)
    ensures Inv(ConfigureIn(w, id, assetId, configurationId))
    ensures ConfigureIn(w, id, assetId, configurationId).bindings == w.bindings
    ensures ConfigureIn(w, id, assetId, configurationId).plane.routes == w.plane.routes
    ensures forall k :: HasKey(ConfigureIn(w, id, assetId, configurationId).plane.records, RuntimeIdOf, k) <==>
                        HasKey(w.plane.records, RuntimeIdOf, k)
  {
    var existing := ExistingRunning(w.plane.records, id, assetId);
    if existing.Some? {
      var records, r := w.plane.records, existing.value;
      SaveExisting(records, r, Configured(r, configurationId));
      var after := Runtime.Save(records, Configured(r, configurationId));
      assert forall i :: 0 <= i < |records| ==> RuntimeIdOf(after[i]) == RuntimeIdOf(records[i]);
      forall k ensures HasKey(after, RuntimeIdOf, k) <==> HasKey(records, RuntimeIdOf, k) {
        if i :| 0 <= i < |records| && RuntimeIdOf(records[i]) == k {
          assert RuntimeIdOf(after[i]) == k;
        }
      }
    }
  }

  lemma RevealInOk(w: World, b: Binding, assetId: string, configurationId: string, swaps: bool, env: Env)
    requires Inv(w) && FindById(w.bindings, b.id) == Some(b)
    ensures var w' := RevealIn(w, b, assetId, configurationId, swaps, env);
      && Inv(w') && Grows(w.bindings, w'.bindings) && w'.clock == w.clock && w'.exposure == w.exposure
      && FindById(w'.bindings, b.id) == Some(WithRevealed(b, assetId, [configurationId], env.now))
      && w'.plane.routes == w.plane.routes
      && forall k :: HasKey(w'.plane.records, RuntimeIdOf, k) <==> HasKey(w.plane.records, RuntimeIdOf, k)
  {
    StoredIsDistinct(w, b.id);
    RevealUpdates(b, assetId, [configurationId], env.now);
    SaveBindingOk(w, b, WithRevealed(b, assetId, [configurationId], env.now));
    ConfigureInOk(SaveBinding(w, WithRevealed(b, assetId, [configurationId], env.now)), b.id, assetId, configurationId);
  }

  lemma RevealInStores(w: World, b: Binding, assetId: string, configurationId: string, swaps: bool, env: Env)
    requires Inv(w) && FindById(w.bindings, b.id) == Some(b)
    ensures FindById(RevealIn(w, b, assetId, configurationId, swaps, env).bindings, b.id)
         == Some(WithRevealed(b, assetId, [configurationId], env.now))
  {
    RevealInOk(w, b, assetId, configurationId, swaps, env);
  }

  lemma UnlockInOk(s: Setting, w: World, b: Binding, assetId: string, override: Option<RuntimeSpec>, env: Env)
    requires Inv(w) && FindById(w.bindings, b.id) == Some(b)
    requires !HasKey(w.plane.records, RuntimeIdOf, env.runtimeId) && w.clock == env.now
    ensures var w' := UnlockIn(s, w, b, assetId, override, env);
      && Inv(w') && Grows(w.bindings, w'.bindings) && w'.clock == w.clock && w'.exposure == w.exposure
      && FindById(w'.bindings, b.id) == Some(WithUnlocked(b, [assetId], env.now))
  {
    var b' := WithUnlocked(b, [assetId], env.now);
    SaveUnlockOk(w, b, assetId, env.now);
    StartInOk(s, SaveBinding(w, b'), b.id, b.attacker, assetId, override, env);
  }

  lemma SaveUnlockOk(w: World, b: Binding, assetId: string, now: int)
    requires Inv(w) && FindById(w.bindings, b.id) == Some(b)
    ensures var w' := SaveBinding(w, WithUnlocked(b, [assetId], now));
      && Inv(w') && Grows(w.bindings, w'.bindings)
      && FindById(w'.bindings, b.id) == Some(WithUnlocked(b, [assetId], now))
      && IsUnlocked(w'.bindings, b.id, assetId) && BelongsTo(w'.bindings, b.id, b.attacker)
  {
    StoredIsDistinct(w, b.id);
    UnlockUpdates(b, [assetId], now);
    SaveBindingOk(w, b, WithUnlocked(b, [assetId], now));
    assert assetId in [assetId];
  }

  lemma ActOnOk(s: Setting, w: World, b: Binding, action: Action, env: Env)
    requires Inv(w) && FindById(w.bindings, b.id) == Some(b)
    requires !HasKey(w.plane.records, RuntimeIdOf, env.runtimeId) && w.clock == env.now
    ensures Inv(ActOn(s, w, b, action, env)) && Grows(w.bindings, ActOn(s, w, b, action, env).bindings)
    ensures ActOn(s, w, b, action, env).clock == w.clock
    ensures FindById(ActOn(s, w, b, action, env).bindings, b.id) == Some(Acted(s, b, action, env))
  {
    StoredIsDistinct(w, b.id);
    match action
    case Unlock(a) =>
      if a != "" {
        UnlockInOk(s, w, b, a, None, env);
      }
    case Configure(a, c, target, runtime) =>
      if a != "" && c != "" {
        ConfigureOk(s, w, b, a, c, target, runtime, env);
      }
    case RecycleBinding => RecycleOk(s, w, b, env);
    case _ =>
  }

  lemma ConfigureOk(
      s: Setting, w: World, b: Binding, a: string, c: string, target: Option<string>, runtime: Option<RuntimeSpec>,
      env: Env)
    requires Inv(w) && FindById(w.bindings, b.id) == Some(b) && a != "" && c != ""
    requires !HasKey(w.plane.records, RuntimeIdOf, env.runtimeId) && w.clock == env.now
    ensures var action := Configure(a, c, target, runtime); var w' := ActOn(s, w, b, action, env);
      && Inv(w') && Grows(w.bindings, w'.bindings) && w'.clock == w.clock
      && FindById(w'.bindings, b.id) == Some(Acted(s, b, action, env))
  {
    RevealInOk(w, b, a, c, runtime.Some?, env);
    var b1 := WithRevealed(b, a, [c], env.now);
    var w1 := RevealIn(w, b, a, c, runtime.Some?, env);
    var w2 := TargetIn(s, w1, b1, target, runtime, env);
    TargetInOk(s, w1, b1, target, runtime, env);
    GrowsTransitive(w.bindings, w1.bindings, w2.bindings);
    ConfigureInOk(w2, b.id, a, c);
  }

  lemma TargetInOk(s: Setting, w: World, b: Binding, target: Option<string>, override: Option<RuntimeSpec>, env: Env)
    requires Inv(w) && FindById(w.bindings, b.id) == Some(b)
    requires !HasKey(w.plane.records, RuntimeIdOf, env.runtimeId) && w.clock == env.now
    ensures var w' := TargetIn(s, w, b, target, override, env);
      && Inv(w') && Grows(w.bindings, w'.bindings) && w'.clock == w.clock && w'.exposure == w.exposure
      && FindById(w'.bindings, b.id) == Some(WithTarget(b, target, env.now))
  {
    if target.Some? && target.value != "" {
      UnlockInOk(s, w, b, target.value, override, env);
    }
  }

  lemma RecycleOk(s: Setting, w: World, b: Binding, env: Env)
    requires Inv(w) && FindById(w.bindings, b.id) == Some(b)
    ensures var b' := RecycledBinding(b, false, env.now, s.ttl); var w' := SaveBinding(StopAll(w, b.id), b');
      Inv(w') && Grows(w.bindings, w'.bindings) && FindById(w'.bindings, b.id) == Some(b')
  {
    StopAllOk(w, b.id);
    SaveRecycledOk(StopAll(w, b.id), b, RecycledBinding(b, false, env.now, s.ttl), false, env.now, s.ttl);
  }

  /** Heartbeats and recycling change status and times only. */
  lemma SaveBeatenOk(w: World, b: Binding, ts: int, ttl: int)
    requires Inv(w) && FindById(w.bindings, b.id) == Some(b)
    ensures var w' := SaveBinding(w, Beaten(b, ts, ttl));
      Inv(w') && Grows(w.bindings, w'.bindings) && FindById(w'.bindings, b.id) == Some(Beaten(b, ts, ttl))
  {
    StoredIsDistinct(w, b.id);
    StatusUpdates(b, ts, ttl, false);
    SaveBindingOk(w, b, Beaten(b, ts, ttl));
  }

  lemma SaveRecycledOk(w: World, b: Binding, b': Binding, hard: bool, now: int, ttl: int)
    requires Inv(w) && FindById(w.bindings, b.id) == Some(b) && b' == RecycledBinding(b, hard, now, ttl)
    ensures Inv(SaveBinding(w, b')) && Grows(w.bindings, SaveBinding(w, b').bindings)
    ensures FindById(SaveBinding(w, b').bindings, b.id) == Some(b')
  {
    StoredIsDistinct(w, b.id);
    StatusUpdates(b, now, ttl, hard);
    SaveBindingOk(w, b, b');
  }

  lemma StopAllOk(w: World, id: string)
    requires Inv(w)
    ensures Inv(StopAll(w, id))
  {
    StopKeepsRecords(w.plane.records, id);
    StoppedStaysVisible(w.bindings, w.plane.records, StopAll(w, id).plane.records);
  }

  /** Stopping makes nothing visible. */
  lemma StoppedStaysVisible(bindings: seq<Binding>, before: seq<Record>, after: seq<Record>)
    requires VisibleOk(bindings, before) && |after| == |before|
    requires forall i :: 0 <= i < |before| ==> after[i] == before[i] || after[i] == before[i].(status := Stopped)
    ensures VisibleOk(bindings, after)
  {
  }

  lemma SyncOk(s: Setting, w: World, b: Binding, up: set<string>, notes: seq<Note>)
    requires Inv(w) && FindById(w.bindings, b.id) == Some(b)
    ensures Inv(w.(exposure := Upsert(w.exposure, GatewayIdOf, Exposure(s, w, b, up, notes))))
  {
    var g := Exposure(s, w, b, up, notes);
    UpsertFrame(w.exposure, GatewayIdOf, g);
    forall a | a in g.exposed ensures IsUnlocked(w.bindings, b.id, a) {
      AccessibleIsVisible(s.deployment, w.plane.records, b.id, up, a);
      var r :| r in w.plane.records && IsRunning(r, b.id, a) && !r.hidden;
      var i :| 0 <= i < |w.plane.records| && w.plane.records[i] == r;
    }
  }

  lemma TimeMayPass(w: World, later: int)
    requires Inv(w) && w.clock <= later
    ensures Inv(w.(clock := later))
  {
  }

  lemma ResolveOk(s: Setting, w: World, attacker: string, freshId: string, now: int)
    requires Inv(w) && !HasKey(w.bindings, IdOf, freshId)
    ensures var w' := SaveBinding(w, Resolved(w.bindings, attacker, now, s.ttl, freshId));
      Inv(w') && Grows(w.bindings, w'.bindings)
  {
    ResolveIsSticky(w.bindings, attacker, now, s.ttl, freshId);
    GrowthKeepsInv(w, Bindings.Save(w.bindings, Resolved(w.bindings, attacker, now, s.ttl, freshId)));
  }

  /** A step to the given time kept the invariant, and bindings only grew. */
  ghost predicate Kept(w0: World, w: World, now: int) {
    Inv(w) && Grows(w0.bindings, w.bindings) && w.clock == now
  }

  lemma SameBindingsGrow(bindings: seq<Binding>)
    ensures Grows(bindings, bindings)
  {
  }

  lemma NothingHappens(w: World, now: int)
    requires Inv(w) && w.clock <= now
    ensures Kept(w, w.(clock := now), now)
  {
    TimeMayPass(w, now);
    SameBindingsGrow(w.bindings);
  }

  lemma ResolveStep(s: Setting, w: World, attacker: string, freshId: string, now: int)
    requires Inv(w) && Enabled(w, Resolve(attacker, freshId, now))
    ensures Kept(w, Next(s, w, Resolve(attacker, freshId, now)), now)
  {
    TimeMayPass(w, now);
    ResolveOk(s, w.(clock := now), attacker, freshId, now);
  }

  lemma HeartbeatStep(s: Setting, w: World, id: string, ts: int, now: int)
    requires Inv(w) && w.clock <= now
    ensures Kept(w, Next(s, w, Heartbeat(id, ts, now)), now)
  {
    NothingHappens(w, now);
    if FindById(w.bindings, id).Some? {
      SaveBeatenOk(w.(clock := now), FindById(w.bindings, id).value, ts, s.ttl);
    }
  }

  lemma RecycleStep(s: Setting, w: World, id: string, hard: bool, now: int)
    requires Inv(w) && w.clock <= now
    ensures Kept(w, Next(s, w, Recycle(id, hard, now)), now)
  {
    NothingHappens(w, now);
    if FindById(w.bindings, id).Some? {
      var b := FindById(w.bindings, id).value;
      var b' := RecycledBinding(b, hard, now, s.ttl);
      assert Next(s, w, Recycle(id, hard, now)) == SaveBinding(w.(clock := now), b');
      SaveRecycledOk(w.(clock := now), b, b', hard, now, s.ttl);
    }
  }

  lemma ActStep(s: Setting, w: World, id: string, action: Action, env: Env)
    requires Inv(w) && Enabled(w, Act(id, action, env))
    ensures Kept(w, Next(s, w, Act(id, action, env)), env.now)
  {
    NothingHappens(w, env.now);
    if FindById(w.bindings, id).Some? {
      ActOnOk(s, w.(clock := env.now), FindById(w.bindings, id).value, action, env);
    }
  }

  lemma SyncStep(s: Setting, w: World, id: string, up: set<string>, notes: seq<Note>, now: int)
    requires Inv(w) && w.clock <= now
    ensures Kept(w, Next(s, w, Sync(id, up, notes, now)), now)
  {
    NothingHappens(w, now);
    if FindById(w.bindings, id).Some? {
      SyncOk(s, w.(clock := now), FindById(w.bindings, id).value, up, notes);
    }
  }

  lemma PrewarmStep(s: Setting, w: World, id: string, t: Template, env: Env)
    requires Inv(w) && Enabled(w, Prewarm(id, t, env))
    ensures Kept(w, Next(s, w, Prewarm(id, t, env)), env.now)
  {
    NothingHappens(w, env.now);
    if FindById(w.bindings, id).Some? {
      WarmInOk(s, w.(clock := env.now), id, t, env);
    }
  }

  /** Every step keeps the invariant, and bindings only ever grow. */
  lemma NextOk(s: Setting, w0: World, e: Event)
    requires Inv(w0) && Enabled(w0, e)
    ensures Inv(Next(s, w0, e)) && Grows(w0.bindings, Next(s, w0, e).bindings)
    ensures Next(s, w0, e).clock == e.Time()
  {
    match e
    case Resolve(attacker, freshId, now) => ResolveStep(s, w0, attacker, freshId, now);
    case Heartbeat(id, ts, now) => HeartbeatStep(s, w0, id, ts, now);
    case Recycle(id, hard, now) => RecycleStep(s, w0, id, hard, now);
    case Act(id, action, env) => ActStep(s, w0, id, action, env);
    case Sync(id, up, notes, now) => SyncStep(s, w0, id, up, notes, now);
    case Prewarm(id, t, env) => PrewarmStep(s, w0, id, t, env);
  }

  lemma {:induction false} RunOk(s: Setting, w: World, events: seq<Event>)
    requires Inv(w) && ValidRun(s, w, events)
    ensures Inv(After(s, w, events)) && Grows(w.bindings, After(s, w, events).bindings)
    ensures w.clock <= After(s, w, events).clock
    decreases |events|
  {
    if events != [] {
      var n := |events| - 1;
      RunOk(s, w, events[..n]);
      NextOk(s, After(s, w, events[..n]), events[n]);
      GrowsTransitive(w.bindings, After(s, w, events[..n]).bindings, After(s, w, events).bindings);
    }
  }

  /** Between a state of a run and its end bindings only grew. */
  lemma {:induction false} PrefixGrows(s: Setting, w: World, events: seq<Event>, k: nat)
    requires Inv(w) && ValidRun(s, w, events) && k <= |events|
    ensures ValidRun(s, w, events[..k]) && Inv(After(s, w, events[..k]))
    ensures Grows(After(s, w, events[..k]).bindings, After(s, w, events).bindings)
    decreases |events|
  {
    RunOk(s, w, events);
    if k == |events| {
      assert events[..k] == events;
    } else {
      var n := |events| - 1;
      PrefixGrows(s, w, events[..n], k);
      assert events[..n][..k] == events[..k];
      RunOk(s, w, events[..n]);
      NextOk(s, After(s, w, events[..n]), events[n]);
      GrowsTransitive(After(s, w, events[..k]).bindings, After(s, w, events[..n]).bindings,
                      After(s, w, events).bindings);
    }
  }
}
