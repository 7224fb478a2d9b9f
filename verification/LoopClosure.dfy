/** The adaptive loop keeps what is unlocked closed under dependencies. */
module LoopClosure {
  import opened Wrappers
  import opened Iterables
  import opened ListStore
  import opened Bindings
  import opened ControlPlane
  import opened Orchestrator
  import opened Scoring
  import opened ControllerProperties
  import opened DependencyClosure
  import opened TargetGates
  import opened ActionLimit
  import opened AdaptiveLoop
  import opened LoopInvariant
  import opened LoopProperties

  ghost predicate AllClosed(assets: seq<Asset>, bindings: seq<Binding>) {
    forall b :: b in bindings ==> Closed(assets, b.unlocked)
  }

  // ----- What events do to bindings -----

  lemma SavedMembers(bindings: seq<Binding>, b: Binding, x: Binding)
    requires x in Bindings.Save(bindings, b)
    ensures x == b || (x in bindings && x.id != b.id)
  {
    UpsertFrame(bindings, IdOf, b);
  }

  lemma StartKeepsBindings(
      s: Setting, w: World, id: string, attacker: string, assetId: string, override: Option<Runtime.RuntimeSpec>,
      env: Env)
    ensures StartIn(s, w, id, attacker, assetId, override, env).bindings == w.bindings
  {
  }

  /** An action changes no binding but its own. */
  lemma ActedMembers(s: Setting, w: World, b: Binding, action: Action, env: Env, x: Binding)
    requires x in ActOn(s, w, b, action, env).bindings && b in w.bindings
    ensures x in w.bindings || x == Acted(s, b, action, env)
  {
    match action
    case Unlock(a) =>
      if a != "" {
        var b1 := WithUnlocked(b, [a], env.now);
        StartKeepsBindings(s, SaveBinding(w, b1), b.id, b.attacker, a, None, env);
        SavedMembers(w.bindings, b1, x);
      }
    case Configure(a, c, target, runtime) =>
      if a != "" && c != "" {
        ConfiguredMembers(s, w, b, a, c, target, runtime, env, x);
      }
    case RecycleBinding => SavedMembers(w.bindings, RecycledBinding(b, false, env.now, s.ttl), x);
    case _ =>
  }

  lemma ConfiguredMembers(
      s: Setting, w: World, b: Binding, a: string, c: string, target: Option<string>,
      runtime: Option<Runtime.RuntimeSpec>, env: Env, x: Binding)
    requires a != "" && c != "" && x in ActOn(s, w, b, Configure(a, c, target, runtime), env).bindings
    ensures x in w.bindings || x == Acted(s, b, Configure(a, c, target, runtime), env)
  {
    var b1 := WithRevealed(b, a, [c], env.now);
    var w1 := RevealIn(w, b, a, c, runtime.Some?, env);
    assert w1.bindings == Bindings.Save(w.bindings, b1);
    if target.Some? && target.value != "" {
      var b2 := WithUnlocked(b1, [target.value], env.now);
      StartKeepsBindings(s, SaveBinding(w1, b2), b1.id, b1.attacker, target.value, runtime, env);
      SavedMembers(w1.bindings, b2, x);
      if x != b2 {
        SavedMembers(w.bindings, b1, x);
      }
    } else {
      SavedMembers(w.bindings, b1, x);
    }
  }

  /** The event unlocks nothing. */
  predicate UnlocksNothing(e: Event) {
    e.Act? ==> !e.action.Unlock? && !e.action.Configure?
  }

  /** The same binding with the same unlocked assets was there before. */
  ghost predicate WasThere(bindings: seq<Binding>, x: Binding) {
    exists y :: y in bindings && y.id == x.id && y.unlocked == x.unlocked
  }

  lemma QuietMembers(s: Setting, w: World, e: Event, x: Binding)
    requires UnlocksNothing(e) && Enabled(w, e) && x in Next(s, w, e).bindings
    ensures WasThere(w.bindings, x) || (x.unlocked == [] && !HasKey(w.bindings, IdOf, x.id))
  {
    match e
    case Resolve(attacker, freshId, now) =>
      SavedMembers(w.bindings, Resolved(w.bindings, attacker, now, s.ttl, freshId), x);
    case Heartbeat(id, ts, now) =>
      if FindById(w.bindings, id).Some? {
        SavedMembers(w.bindings, Beaten(FindById(w.bindings, id).value, ts, s.ttl), x);
      }
    case Recycle(id, hard, now) =>
      if FindById(w.bindings, id).Some? {
        SavedMembers(w.bindings, RecycledBinding(FindById(w.bindings, id).value, hard, now, s.ttl), x);
      }
    case Act(id, action, env) =>
      if FindById(w.bindings, id).Some? {
        ActedMembers(s, w.(clock := env.now), FindById(w.bindings, id).value, action, env, x);
      }
    case _ =>
  }

  lemma QuietKeepsClosed(s: Setting, w: World, e: Event, assets: seq<Asset>)
    requires UnlocksNothing(e) && Enabled(w, e) && AllClosed(assets, w.bindings)
    ensures AllClosed(assets, Next(s, w, e).bindings)
  {
    forall x | x in Next(s, w, e).bindings ensures Closed(assets, x.unlocked) {
      QuietMembers(s, w, e, x);
    }
  }

  // ----- One action of the loop -----

  /** The asset an action exposes. */
  function Exposed(action: Action): Option<string> {
    match action
    case Unlock(a) => if a == "" then None else Some(a)
    case Configure(a, c, target, _) => if a == "" || c == "" || target == Some("") then None else target
    case _ => None
  }

  lemma ActedKeepsClosed(s: Setting, b: Binding, action: Action, env: Env, assets: seq<Asset>)
    requires Closed(assets, b.unlocked)
    requires Exposed(action).Some? ==> MetWith(assets, Exposed(action).value, b.unlocked)
    ensures Closed(assets, Acted(s, b, action, env).unlocked)
  {
    if Exposed(action).Some? {
      AppendKeepsClosed(assets, b.unlocked, Exposed(action).value);
    }
  }

  lemma ActKeepsClosed(s: Setting, w: World, id: string, action: Action, env: Env, assets: seq<Asset>)
    requires AllClosed(assets, w.bindings) && FindById(w.bindings, id).Some?
    requires Exposed(action).Some? ==> MetWith(assets, Exposed(action).value, FindById(w.bindings, id).value.unlocked)
    ensures AllClosed(assets, Next(s, w, Act(id, action, env)).bindings)
  {
    var b := FindById(w.bindings, id).value;
    forall x | x in Next(s, w, Act(id, action, env)).bindings ensures Closed(assets, x.unlocked) {
      ActedMembers(s, w.(clock := env.now), b, action, env, x);
      ActedKeepsClosed(s, b, action, env, assets);
    }
  }

  // ----- The reveals of a visit -----

  /** What a chosen reveal exposes is met by the assets it was gated against or, for a target, by
      those of the snapshot. */
  lemma ChosenIsMet(s: Settings, b: Binding, p: Profile, assets: seq<Asset>, i: nat)
    requires DistinctAssets(assets) && TargetsCovered(assets) && Closed(assets, b.unlocked)
    requires i < |ChosenFor(s, b, p, assets)|
    ensures var chosen := ChosenFor(s, b, p, assets);
      var exposed := Exposed(ActionOf(chosen[i]));
      exposed.Some? ==> MetWith(assets, exposed.value, PlannedAt(b.unlocked, chosen, i))
                        || MetWith(assets, exposed.value, b.unlocked)
  {
    var scene, chosen := SceneOf(s, b, p), ChosenFor(s, b, p, assets);
    var c := chosen[i];
    ChosenAreGated(s, b, p, assets, i);
    GatedAction(scene, assets, PlannedAt(b.unlocked, chosen, i), c);
    if c.option.kind.ConfigureAsset? && c.option.variant.value.target.Some? {
      TargetOfChosen(s, b, p, assets, i);
    }
  }

  lemma TargetOfChosen(s: Settings, b: Binding, p: Profile, assets: seq<Asset>, i: nat)
    requires DistinctAssets(assets) && TargetsCovered(assets) && Closed(assets, b.unlocked)
    requires i < |ChosenFor(s, b, p, assets)|
    requires var c := ChosenFor(s, b, p, assets)[i];
             c.option.kind.ConfigureAsset? && c.option.variant.Some? && c.option.variant.value.target.Some?
    ensures MetWith(assets, ChosenFor(s, b, p, assets)[i].option.variant.value.target.value, b.unlocked)
  {
    var c := ChosenFor(s, b, p, assets)[i];
    ChosenTarget(s, b, p, assets, i);
    CoveredIsMet(assets, b.unlocked, c.option.asset, c.option.variant.value);
  }

  lemma ChosenTarget(s: Settings, b: Binding, p: Profile, assets: seq<Asset>, i: nat)
    requires i < |ChosenFor(s, b, p, assets)|
    requires var c := ChosenFor(s, b, p, assets)[i];
             c.option.kind.ConfigureAsset? && c.option.variant.Some? && c.option.variant.value.target.Some?
    ensures var c := ChosenFor(s, b, p, assets)[i];
      CanBeRevealed(assets, c.option.asset, c.option.variant.value) && c.option.asset.id in b.unlocked
  {
    var scene, chosen := SceneOf(s, b, p), ChosenFor(s, b, p, assets);
    var strategy, context := if i == 0 then Exploit else Explore, if i == 0 then None else Some(chosen[0]);
    TargetCanBeRevealed(scene, assets, PlannedAt(b.unlocked, chosen, i), strategy, context, chosen[i]);
  }

  /** What the i-th action of a request exposes is met when it is applied. */
  ghost predicate MetAt(s: Settings, w: World, id: string, actions: seq<Action>, v: Visit, i: nat)
    requires i < |actions| <= |v.envs|
  {
    var here := FindById(StateAt(s, w, id, actions, v, i).bindings, id);
    here.Some? && (Exposed(actions[i]).Some? ==> MetWith(v.assets, Exposed(actions[i]).value, here.value.unlocked))
  }

  /** At the moment an action of a visit is applied, what it exposes is met. */
  lemma ExposedIsMet(
      s: Settings, l: Loop, k: Known, v: Visit, b: Binding, chosen: seq<Candidate>, actions: seq<Action>, i: nat)
    requires LoopInv(l) && Sends(s, l, k, v, b, chosen, actions) && i < |actions| <= |chosen|
             && |v.envs| == 2 >= |actions|
    requires DistinctAssets(v.assets) && TargetsCovered(v.assets) && Closed(v.assets, b.unlocked)
    ensures MetAt(s, l.world, b.id, actions, v, i)
  {
    SendsParts(s, l, k, v, b, chosen, actions);
    SendsFits(s, l, k, v, b, chosen, actions);
    SnapshotBinding(l, k.attacker);
    StateAtOk(s, l.world, b.id, actions, v, i);
    ChosenIsMet(s, b, k.profile, v.assets, i);
    var here := FindById(StateAt(s, l.world, b.id, actions, v, i).bindings, b.id).value;
    forall a | a in PlannedAt(b.unlocked, chosen, i) || a in b.unlocked ensures a in here.unlocked {
      if a in PlannedAt(b.unlocked, chosen, i) {
        PlannedIsUnlocked(s, l, k, v, b, chosen, actions, i, a);
      } else {
        SnapshotHolds(l, k.attacker, b, StateAt(s, l.world, b.id, actions, v, i), a);
      }
    }
  }

  lemma {:induction false} RequestKeepsClosed(s: Settings, w: World, id: string, actions: seq<Action>, v: Visit, i: nat)
    requires Inv(w) && FindById(w.bindings, id).Some? && Fits(s, w, id, actions, v) && i <= |actions|
    requires AllClosed(v.assets, w.bindings) && forall j :: 0 <= j < |actions| ==> MetAt(s, w, id, actions, v, j)
    ensures AllClosed(v.assets, StateAt(s, w, id, actions, v, i).bindings)
  {
    if i == 0 {
      assert ActEvents(id, actions[..0], v.envs[..0]) == [];
    } else {
      RequestKeepsClosed(s, w, id, actions, v, i - 1);
      StateAtKeepsClosed(s, w, id, actions, v, i - 1);
    }
  }

  lemma VisitKeepsClosed(
      s: Settings, l: Loop, k: Known, v: Visit, b: Binding, chosen: seq<Candidate>, actions: seq<Action>)
    requires LoopInv(l) && Sends(s, l, k, v, b, chosen, actions) && |actions| <= |chosen| && |v.envs| == 2 >= |actions|
    requires DistinctAssets(v.assets) && TargetsCovered(v.assets)
    requires AllClosed(v.assets, l.world.bindings) && AllClosed(v.assets, l.snapshot)
    ensures AllClosed(v.assets, StateAt(s, l.world, b.id, actions, v, |actions|).bindings)
  {
    SnapshotIsClosed(s, l, k, v, b, chosen, actions);
    SendsFits(s, l, k, v, b, chosen, actions);
    forall j | 0 <= j < |actions| ensures MetAt(s, l.world, b.id, actions, v, j) {
      ExposedIsMet(s, l, k, v, b, chosen, actions, j);
    }
    RequestKeepsClosed(s, l.world, b.id, actions, v, |actions|);
  }

  lemma SnapshotIsClosed(
      s: Settings, l: Loop, k: Known, v: Visit, b: Binding, chosen: seq<Candidate>, actions: seq<Action>)
    requires LoopInv(l) && Sends(s, l, k, v, b, chosen, actions) && AllClosed(v.assets, l.snapshot)
    ensures Closed(v.assets, b.unlocked) && FindById(l.world.bindings, b.id).Some?
  {
    SendsParts(s, l, k, v, b, chosen, actions);
    SnapshotBinding(l, k.attacker);
  }

  lemma StateAtKeepsClosed(s: Settings, w: World, id: string, actions: seq<Action>, v: Visit, i: nat)
    requires Inv(w) && FindById(w.bindings, id).Some? && Fits(s, w, id, actions, v) && i < |actions|
    requires AllClosed(v.assets, StateAt(s, w, id, actions, v, i).bindings)
    requires MetAt(s, w, id, actions, v, i)
    ensures AllClosed(v.assets, StateAt(s, w, id, actions, v, i + 1).bindings)
  {
    StateAtOk(s, w, id, actions, v, i);
    ActKeepsClosed(s.plane, StateAt(s, w, id, actions, v, i), id, actions[i], v.envs[i], v.assets);
  }

  // ----- Runs -----

  /** The loop uses this catalogue, and nobody else unlocks anything. */
  predicate Undisturbed(steps: seq<Step>, assets: seq<Asset>) {
    forall i :: 0 <= i < |steps| ==> StepUndisturbed(steps[i], assets)
  }

  predicate StepUndisturbed(step: Step, assets: seq<Asset>) {
    match step
    case Attend(v) => v.assets == assets
    case Outside(e) => UnlocksNothing(e)
    case _ => true
  }

  lemma AttendKeepsClosed(s: Settings, l: Loop, v: Visit)
    requires LoopInv(l) && l.agenda != [] && PossibleVisit(s, l, l.agenda[0], v)
    requires DistinctAssets(v.assets) && TargetsCovered(v.assets)
    requires AllClosed(v.assets, l.world.bindings) && AllClosed(v.assets, l.snapshot)
    ensures AllClosed(v.assets, Attended(s, l, l.agenda[0], v).world.bindings)
  {
    match AttentionTo(s, l, l.agenda[0], v.assets)
    case Reveal(b, chosen, actions) =>
      SendsParts(s, l, l.agenda[0], v, b, chosen, actions);
      SendsFits(s, l, l.agenda[0], v, b, chosen, actions);
      SendsEffect(s, l, l.agenda[0], v, b, chosen, actions);
      FitsOk(s, l.world, b.id, actions, v);
      VisitKeepsClosed(s, l, l.agenda[0], v, b, chosen, actions);
      assert actions[..|actions|] == actions;
    case _ => PassingEffect(s, l, l.agenda[0], v);
  }

  lemma StepKeepsClosed(s: Settings, l: Loop, step: Step, assets: seq<Asset>)
    requires LoopInv(l) && Possible(s, l, step) && StepUndisturbed(step, assets)
    requires DistinctAssets(assets) && TargetsCovered(assets)
    requires AllClosed(assets, l.world.bindings) && AllClosed(assets, l.snapshot)
    ensures AllClosed(assets, NextLoop(s, l, step).world.bindings) && AllClosed(assets, NextLoop(s, l, step).snapshot)
  {
    match step
    case Attend(v) => AttendKeepsClosed(s, l, v);
    case Outside(e) => QuietKeepsClosed(s.plane, l.world, e, assets);
    case _ =>
  }

  /** Main result: with a catalogue that covers its targets, and nobody else unlocking anything, the
      unlocked assets of every binding are closed under dependencies in every reachable state. */
  lemma {:induction false} UnlockedStaysClosed(s: Settings, steps: seq<Step>, assets: seq<Asset>)
    requires ValidSteps(s, INITIAL, steps) && Undisturbed(steps, assets)
    requires DistinctAssets(assets) && TargetsCovered(assets)
    ensures AllClosed(assets, LoopAfter(s, INITIAL, steps).world.bindings)
    ensures AllClosed(assets, LoopAfter(s, INITIAL, steps).snapshot)
    decreases |steps|
  {
    InitialOk();
    if steps != [] {
      var n := |steps| - 1;
      UnlockedStaysClosed(s, steps[..n], assets);
      LoopOk(s, INITIAL, steps[..n]);
      StepKeepsClosed(s, LoopAfter(s, INITIAL, steps[..n]), steps[n], assets);
    }
  }
}
