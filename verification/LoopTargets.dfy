/** Visits of the adaptive loop that pass a gate by: for every settings of the loop, the catalogues
    that no visit can do harm with are exactly those that no tick can. */
module LoopTargets {
  import opened Wrappers
  import opened Iterables
  import opened Bindings
  import opened Runtime
  import opened ControlPlane
  import opened Scoring
  import opened ControllerProperties
  import opened DependencyClosure
  import opened TargetGates
  import opened TargetTicks
  import opened Feedback
  import opened ActionLimit
  import opened AdaptiveLoop
  import opened LoopInvariant
  import opened LoopProperties
  import opened LoopClosure
  import opened LoopCap

  // ----- A loop that is about to look at one binding -----

  function BindingWith(unlocked: seq<string>, revealed: map<string, seq<string>>): Binding {
    Binding("binding", "attacker", Active, 0, 0, 0, unlocked, revealed)
  }

  function LoopWith(b: Binding, p: Profile): Loop {
    Loop(World([b], Plane([], []), [], 0), NO_FEEDBACK, map[], [Known(b.attacker, p)], [b], [Known(b.attacker, p)])
  }

  lemma LoopWithOk(b: Binding, p: Profile)
    requires NoRepeats(b) && b.attacker != ""
    ensures LoopInv(LoopWith(b, p)) && SnapshotIsCurrent(LoopWith(b, p))
    ensures BindingOf([b], b.attacker) == Some(b)
  {
    assert LatestByAttacker([b], b.attacker) == Some(b);
    assert FindById([b], b.id) == Some(b);
    assert Extends(b, b);
  }

  lemma FreshAttention(s: Settings, b: Binding, p: Profile, assets: seq<Asset>)
    requires NoRepeats(b) && b.attacker != "" && p.evidenceIds != [] && ChosenFor(s, b, p, assets) != []
    ensures var chosen := ChosenFor(s, b, p, assets);
      AttentionTo(s, LoopWith(b, p), Known(b.attacker, p), assets) == Reveal(b, chosen, ActionsToSend(chosen, s.limit))
  {
    LoopWithOk(b, p);
    assert p.evidenceIds[0] !in ProcessedOf(map[], b.attacker);
  }

  lemma {:induction false} WithoutDistinct(ids: seq<string>, id: string)
    requires Distinct(ids)
    ensures Distinct(Without(ids, id))
  {
    if ids != [] {
      WithoutDistinct(ids[1..], id);
      assert ids[0] !in ids[1..];
    }
  }

  lemma RevealedOnce(assets: seq<Asset>, unlocked: seq<string>, assetId: string, configurationId: string)
    requires Distinct(unlocked)
    ensures NoRepeats(BindingWith(unlocked, AllRevealedBut(assets, assetId, configurationId)))
  {
    AppendNewDistinct([], AllConfigurations(assets));
    WithoutDistinct(Dedupe(AllConfigurations(assets)), configurationId);
  }

  /** What the loop chooses for the binding is the configuration that is left. */
  lemma TargetIsChosen(s: Settings, assets: seq<Asset>, a: Asset, v: Variant, unlocked: seq<string>, i: nat)
    requires DistinctAssets(assets) && DistinctConfigurations(assets) && Reachable(assets, a, v, unlocked)
    requires s.controller.unlockCap <= |unlocked| && ShowsMarker(v, i)
    ensures var b := BindingWith(unlocked, AllRevealedBut(assets, a.id, v.configurationId.value));
      var chosen := ChosenFor(s, b, TargetProfile(s.controller, assets, a, v, i), assets);
      |chosen| == 1 && chosen[0].option.variant == Some(v) && chosen[0].option.asset == a
  {
    var b := BindingWith(unlocked, AllRevealedBut(assets, a.id, v.configurationId.value));
    var p := TargetProfile(s.controller, assets, a, v, i);
    var scene := SceneOf(s, b, p);
    TargetSceneFacts(s.controller, assets, a, v, unlocked, i, scene.recommendations);
    assert scene == TargetScene(s.controller, assets, a, v, unlocked, i, scene.recommendations);
    TargetIsMain(scene, assets, a, v, unlocked, i);
  }

  /** The loop is in a state that every run keeps, with the given assets unlocked for the binding it
      looks at next. */
  ghost predicate Prepared(l: Loop, b: Binding, unlocked: seq<string>) {
    && LoopInv(l) && SnapshotIsCurrent(l)
    && l.world.bindings == l.snapshot == [b] && b.unlocked == unlocked && l.agenda != []
  }

  /** The visit leaves these assets unlocked for some binding. */
  ghost predicate Leaves(s: Settings, l: Loop, v: Visit, unlocked: seq<string>)
    requires Possible(s, l, Attend(v))
  {
    exists x :: x in NextLoop(s, l, Attend(v)).world.bindings && x.unlocked == unlocked
  }

  lemma OneActionUnlocks(s: Settings, l: Loop, b: Binding, v: Visit, chosen: seq<Candidate>, actions: seq<Action>)
    requires Prepared(l, b, b.unlocked) && Sends(s, l, l.agenda[0], v, b, chosen, actions) && |actions| == 1
    requires Exposed(actions[0]).Some?
    ensures Possible(s, l, Attend(v))
    ensures Leaves(s, l, v, AppendNew(b.unlocked, [Exposed(actions[0]).value]))
  {
    VisitBindings(s, l, v, b, chosen, actions);
    OneActionLeaves(s, l, b, v, chosen, actions);
    var x := FindById(StateAt(s, l.world, b.id, actions, v, 1).bindings, b.id).value;
    assert x in NextLoop(s, l, Attend(v)).world.bindings;
  }

  lemma OneActionLeaves(s: Settings, l: Loop, b: Binding, v: Visit, chosen: seq<Candidate>, actions: seq<Action>)
    requires Prepared(l, b, b.unlocked) && Sends(s, l, l.agenda[0], v, b, chosen, actions)
    requires |actions| == 1 <= |v.envs| && Exposed(actions[0]).Some?
    ensures var here := FindById(StateAt(s, l.world, b.id, actions, v, 1).bindings, b.id);
      here.Some? && here.value.unlocked == AppendNew(b.unlocked, [Exposed(actions[0]).value])
  {
    SendsFits(s, l, l.agenda[0], v, b, chosen, actions);
    assert FindById([b], b.id) == Some(b);
    RequestLeaves(s, l.world, b, actions, v, 1);
    assert UnlockedUpTo(b.unlocked, actions, 0) == b.unlocked;
  }

  /** Whatever is unlocked once the cap is reached, there is a visit that unlocks the target. */
  lemma TargetVisit(s: Settings, assets: seq<Asset>, a: Asset, v: Variant, unlocked: seq<string>)
    returns (l: Loop, b: Binding, visit: Visit)
    requires Named(assets) && DistinctAssets(assets) && DistinctConfigurations(assets) && s.limit > 0
    requires Reachable(assets, a, v, unlocked) && Distinct(unlocked) && s.controller.unlockCap <= |unlocked|
    ensures Prepared(l, b, unlocked) && visit.assets == assets && Possible(s, l, Attend(visit))
    ensures Leaves(s, l, visit, AppendNew(unlocked, [v.target.value]))
  {
    var i := SomeMarkerShows(assets, a, v);
    b := BindingWith(unlocked, AllRevealedBut(assets, a.id, v.configurationId.value));
    var p := TargetProfile(s.controller, assets, a, v, i);
    l := LoopWith(b, p);
    RevealedOnce(assets, unlocked, a.id, v.configurationId.value);
    LoopWithOk(b, p);
    TargetIsChosen(s, assets, a, v, unlocked, i);
    FreshAttention(s, b, p, assets);
    visit := VisitIsPossible(s, l, l.agenda[0], assets);
    var chosen := ChosenFor(s, b, p, assets);
    TargetIsExposed(assets, a, v, chosen[0]);
    OneActionUnlocks(s, l, b, visit, chosen, ActionsToSend(chosen, s.limit));
  }

  lemma TargetIsExposed(assets: seq<Asset>, a: Asset, v: Variant, c: Candidate)
    requires Named(assets) && CanBeRevealed(assets, a, v) && c.option.asset == a && c.option.variant == Some(v)
    ensures Exposed(ActionOf(c)) == Some(v.target.value)
  {
    var k :| 0 <= k < |assets| && assets[k] == a;
    var j :| 0 <= j < |a.variants| && a.variants[j] == v;
    assert NamedVariant(assets[k].variants[j]);
  }

  // ----- Main results -----

  ghost predicate VisitKeepsClosed(s: Settings, assets: seq<Asset>, l: Loop, v: Visit) {
    LoopInv(l) && Possible(s, l, Attend(v)) && v.assets == assets
    && AllClosed(assets, l.world.bindings) && AllClosed(assets, l.snapshot) ==>
      AllClosed(assets, NextLoop(s, l, Attend(v)).world.bindings)
  }

  /** From every state that the runs keep, with closed bindings, a visit leads to closed bindings. */
  ghost predicate VisitsKeepClosed(s: Settings, assets: seq<Asset>) {
    forall l, v :: VisitKeepsClosed(s, assets, l, v)
  }

  ghost predicate VisitKeepsCap(s: Settings, assets: seq<Asset>, l: Loop, v: Visit) {
    LoopInv(l) && Possible(s, l, Attend(v)) && v.assets == assets && WithinCap(s, l) ==>
      WithinCap(s, NextLoop(s, l, Attend(v)))
  }

  ghost predicate VisitsKeepCap(s: Settings, assets: seq<Asset>) {
    forall l, v :: VisitKeepsCap(s, assets, l, v)
  }

  lemma BreaksClosed(s: Settings, l: Loop, b: Binding, v: Visit, before: seq<string>, after: seq<string>)
    requires Prepared(l, b, before) && Possible(s, l, Attend(v)) && Leaves(s, l, v, after)
    requires Closed(v.assets, before) && !Closed(v.assets, after)
    ensures !VisitKeepsClosed(s, v.assets, l, v)
  {
    assert AllClosed(v.assets, [b]);
  }

  lemma BreaksCap(s: Settings, l: Loop, b: Binding, v: Visit, before: seq<string>, after: seq<string>)
    requires Prepared(l, b, before) && Possible(s, l, Attend(v)) && Leaves(s, l, v, after)
    requires |before| <= CapOf(s) < |after|
    ensures !VisitKeepsCap(s, v.assets, l, v)
  {
    assert WithinCap(s, l);
  }

  lemma UncoveredIsUnlocked(s: Settings, assets: seq<Asset>, a: Asset, v: Variant)
    requires Named(assets) && DistinctAssets(assets) && DistinctConfigurations(assets) && s.limit > 0
    requires CanBeRevealed(assets, a, v) && !CoversTarget(assets, a, v)
    ensures !VisitsKeepClosed(s, assets)
  {
    var unlocked := JustNeeded(assets, a, v.target.value, s.controller.unlockCap);
    UncoveredIsUnmet(assets, a, v, s.controller.unlockCap);
    var l, b, visit := TargetVisit(s, assets, a, v, unlocked);
    BreaksClosed(s, l, b, visit, unlocked, AppendNew(unlocked, [v.target.value]));
  }

  /** Main result: with any settings under which reveals are sent, every visit keeps what is unlocked
      closed under dependencies exactly when every target that can be revealed needs only what its
      source needs. */
  lemma VisitsKeepClosedIff(s: Settings, assets: seq<Asset>)
    requires Named(assets) && DistinctAssets(assets) && DistinctConfigurations(assets) && s.limit > 0
    ensures VisitsKeepClosed(s, assets) <==> TargetsCovered(assets)
  {
    if TargetsCovered(assets) {
      forall l, v ensures VisitKeepsClosed(s, assets, l, v) {
        CoveredVisit(s, assets, l, v);
      }
    } else {
      var a, v :| CanBeRevealed(assets, a, v) && !CoversTarget(assets, a, v);
      UncoveredIsUnlocked(s, assets, a, v);
    }
  }

  lemma CoveredVisit(s: Settings, assets: seq<Asset>, l: Loop, v: Visit)
    requires DistinctAssets(assets) && TargetsCovered(assets)
    ensures VisitKeepsClosed(s, assets, l, v)
  {
    if LoopInv(l) && Possible(s, l, Attend(v)) && v.assets == assets {
      if AllClosed(assets, l.world.bindings) && AllClosed(assets, l.snapshot) {
        AttendKeepsClosed(s, l, v);
      }
    }
  }

  lemma FullVisitPassesCap(s: Settings, assets: seq<Asset>, a: Asset, v: Variant, unlocked: seq<string>)
    requires Named(assets) && DistinctAssets(assets) && DistinctConfigurations(assets) && s.limit > 0
    requires Reachable(assets, a, v, unlocked) && Distinct(unlocked) && |unlocked| == s.controller.unlockCap
    requires |AppendNew(unlocked, [v.target.value])| > |unlocked|
    ensures !VisitsKeepCap(s, assets)
  {
    var l, b, visit := TargetVisit(s, assets, a, v, unlocked);
    BreaksCap(s, l, b, visit, unlocked, AppendNew(unlocked, [v.target.value]));
  }

  lemma ForeignPassesCap(s: Settings, assets: seq<Asset>, a: Asset, v: Variant)
    requires Named(assets) && DistinctAssets(assets) && DistinctConfigurations(assets) && s.limit > 0
    requires CanBeRevealed(assets, a, v) && v.target.value != a.id && s.controller.unlockCap > 0
    ensures !VisitsKeepCap(s, assets)
  {
    ForeignIsReachable(assets, a, v, s.controller.unlockCap);
    FullVisitPassesCap(s, assets, a, v, Padded(assets, [a.id], v.target.value, s.controller.unlockCap));
  }

  /** Without any room nothing is chosen. */
  lemma NoRoomNoReveal(s: Settings, l: Loop, v: Visit)
    requires LoopInv(l) && Possible(s, l, Attend(v)) && WithinCap(s, l) && s.controller.unlockCap <= 0
    ensures !AttentionTo(s, l, l.agenda[0], v.assets).Reveal?
  {
    var a := AttentionTo(s, l, l.agenda[0], v.assets);
    if a.Reveal? {
      assert l.agenda[0] in l.agenda && IsCurrent(l.world.bindings, a.binding);
      assert FindById(l.world.bindings, a.binding.id).value in l.world.bindings;
      NothingWithoutCap(SceneOf(s, a.binding, l.agenda[0].profile), v.assets);
    }
  }

  lemma BoundedVisit(s: Settings, assets: seq<Asset>, l: Loop, v: Visit)
    requires s.controller.unlockCap <= 0 || OwnTargets(assets)
    ensures VisitKeepsCap(s, assets, l, v)
  {
    if LoopInv(l) && Possible(s, l, Attend(v)) && v.assets == assets && WithinCap(s, l) {
      if OwnTargets(assets) {
        AttendKeepsWithin(s, l, v);
      } else {
        NoRoomNoReveal(s, l, v);
        PassingEffect(s, l, l.agenda[0], v);
      }
    }
  }

  /** Main result: and it keeps every binding within the cap exactly when there is no room at all or
      every target that can be revealed is its own source. */
  lemma VisitsKeepCapIff(s: Settings, assets: seq<Asset>)
    requires Named(assets) && DistinctAssets(assets) && DistinctConfigurations(assets) && s.limit > 0
    ensures VisitsKeepCap(s, assets) <==> s.controller.unlockCap <= 0 || OwnTargets(assets)
  {
    if s.controller.unlockCap <= 0 || OwnTargets(assets) {
      forall l, v ensures VisitKeepsCap(s, assets, l, v) {
        BoundedVisit(s, assets, l, v);
      }
    } else {
      var a, v :| CanBeRevealed(assets, a, v) && v.target.value != a.id;
      ForeignPassesCap(s, assets, a, v);
    }
  }
}
