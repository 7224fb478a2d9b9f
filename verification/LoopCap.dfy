/** The adaptive loop keeps what is unlocked within the cap. It works on a snapshot, which stays true
    of every binding until the binding's attacker has been looked at. */
module LoopCap {
  import opened Wrappers
  import opened Iterables
  import opened Bindings
  import opened ControlPlane
  import opened Orchestrator
  import opened Scoring
  import opened Controller
  import opened TargetGates
  import opened ActionLimit
  import opened AdaptiveLoop
  import opened LoopInvariant
  import opened LoopProperties
  import opened LoopClosure

  ghost predicate AllWithin(bound: nat, bindings: seq<Binding>) {
    forall b :: b in bindings ==> |b.unlocked| <= bound
  }

  /** The stored binding has the same assets unlocked. */
  ghost predicate IsCurrent(bindings: seq<Binding>, b: Binding) {
    FindById(bindings, b.id).Some? && FindById(bindings, b.id).value.unlocked == b.unlocked
  }

  ghost predicate SnapshotIsCurrent(l: Loop) {
    forall k :: k in l.agenda && BindingOf(l.snapshot, k.attacker).Some? ==>
      IsCurrent(l.world.bindings, BindingOf(l.snapshot, k.attacker).value)
  }

  // ----- Events of others -----

  lemma FoundIsUnique(bindings: seq<Binding>, y: Binding)
    requires DistinctBy(bindings, IdOf) && y in bindings
    ensures FindById(bindings, y.id) == Some(y)
  {
    var i :| 0 <= i < |bindings| && bindings[i] == y;
    FindByIdUnique(bindings, i);
  }

  lemma QuietKeepsCurrent(s: Setting, w: World, e: Event, b: Binding)
    requires Inv(w) && Enabled(w, e) && UnlocksNothing(e) && IsCurrent(w.bindings, b)
    ensures IsCurrent(Next(s, w, e).bindings, b)
  {
    NextOk(s, w, e);
    FoundStays(w.bindings, Next(s, w, e).bindings, b.id);
    var x := FindById(Next(s, w, e).bindings, b.id).value;
    QuietMembers(s, w, e, x);
    var stored := FindById(w.bindings, b.id).value;
    assert IdOf(stored) == x.id && stored in w.bindings;
    var y :| y in w.bindings && y.id == x.id && y.unlocked == x.unlocked;
    FoundIsUnique(w.bindings, y);
  }

  lemma QuietKeepsWithin(s: Setting, w: World, e: Event, bound: nat)
    requires Enabled(w, e) && UnlocksNothing(e) && AllWithin(bound, w.bindings)
    ensures AllWithin(bound, Next(s, w, e).bindings)
  {
    forall x | x in Next(s, w, e).bindings ensures |x.unlocked| <= bound {
      QuietMembers(s, w, e, x);
    }
  }

  // ----- One action -----

  lemma OtherMember(s: Setting, w: World, id: string, action: Action, env: Env, x: Binding)
    requires FindById(w.bindings, id).Some? && x.id != id && x in Next(s, w, Act(id, action, env)).bindings
    ensures x in w.bindings
  {
    ActedMembers(s, w.(clock := env.now), FindById(w.bindings, id).value, action, env, x);
  }

  lemma ActKeepsOthers(s: Setting, w: World, id: string, action: Action, env: Env, b: Binding)
    requires Inv(w) && Enabled(w, Act(id, action, env)) && FindById(w.bindings, id).Some?
    requires b.id != id && IsCurrent(w.bindings, b)
    ensures IsCurrent(Next(s, w, Act(id, action, env)).bindings, b)
  {
    var after := Next(s, w, Act(id, action, env)).bindings;
    NextOk(s, w, Act(id, action, env));
    FoundStays(w.bindings, after, b.id);
    var x := FindById(after, b.id).value;
    OtherMember(s, w, id, action, env, x);
    FoundIsUnique(w.bindings, x);
  }

  lemma FoundStays(before: seq<Binding>, after: seq<Binding>, id: string)
    requires Wellformed(before) && Wellformed(after) && Grows(before, after) && FindById(before, id).Some?
    ensures FindById(after, id).Some? && FindById(after, id).value in after && FindById(after, id).value.id == id
  {
    GrowsFind(before, after, id);
  }

  lemma ActKeepsWithin(s: Setting, w: World, id: string, action: Action, env: Env, bound: nat)
    requires AllWithin(bound, w.bindings) && FindById(w.bindings, id).Some?
    requires |Acted(s, FindById(w.bindings, id).value, action, env).unlocked| <= bound
    ensures AllWithin(bound, Next(s, w, Act(id, action, env)).bindings)
  {
    forall x | x in Next(s, w, Act(id, action, env)).bindings ensures |x.unlocked| <= bound {
      ActedMembers(s, w.(clock := env.now), FindById(w.bindings, id).value, action, env, x);
    }
  }

  lemma ActLeaves(s: Setting, w: World, id: string, action: Action, env: Env)
    requires Inv(w) && Enabled(w, Act(id, action, env)) && FindById(w.bindings, id).Some?
    ensures FindById(Next(s, w, Act(id, action, env)).bindings, id)
         == Some(Acted(s, FindById(w.bindings, id).value, action, env))
  {
    TimeMayPass(w, env.now);
    ActOnOk(s, w.(clock := env.now), FindById(w.bindings, id).value, action, env);
  }

  // ----- The reveals of a visit -----

  /** What an action of a visit leaves unlocked. */
  function UnlockedWith(unlocked: seq<string>, action: Action): seq<string> {
    if Exposed(action).Some? then AppendNew(unlocked, [Exposed(action).value]) else unlocked
  }

  lemma ActedLeaves(s: Setting, b: Binding, action: Action, env: Env)
    ensures Acted(s, b, action, env).unlocked == UnlockedWith(b.unlocked, action)
  {
  }

  /** What the binding has unlocked after the first actions of a visit. */
  function UnlockedUpTo(unlocked: seq<string>, actions: seq<Action>, i: nat): seq<string>
    requires i <= |actions|
  {
    if i == 0 then unlocked else UnlockedWith(UnlockedUpTo(unlocked, actions, i - 1), actions[i - 1])
  }

  lemma {:induction false} RequestLeaves(s: Settings, w: World, b: Binding, actions: seq<Action>, v: Visit, i: nat)
    requires Inv(w) && Fits(s, w, b.id, actions, v) && i <= |actions| && IsCurrent(w.bindings, b)
    ensures var here := FindById(StateAt(s, w, b.id, actions, v, i).bindings, b.id);
      here.Some? && here.value.unlocked == UnlockedUpTo(b.unlocked, actions, i)
  {
    if i == 0 {
      assert ActEvents(b.id, actions[..0], v.envs[..0]) == [];
    } else {
      RequestLeaves(s, w, b, actions, v, i - 1);
      StateAtOk(s, w, b.id, actions, v, i - 1);
      var before := StateAt(s, w, b.id, actions, v, i - 1);
      ActLeaves(s.plane, before, b.id, actions[i - 1], v.envs[i - 1]);
      ActedLeaves(s.plane, FindById(before.bindings, b.id).value, actions[i - 1], v.envs[i - 1]);
    }
  }

  lemma {:induction false} RequestKeepsWithin(
      s: Settings, w: World, b: Binding, actions: seq<Action>, v: Visit, i: nat, bound: nat)
    requires Inv(w) && Fits(s, w, b.id, actions, v) && i <= |actions| && IsCurrent(w.bindings, b)
    requires AllWithin(bound, w.bindings)
    requires forall j :: 0 <= j <= |actions| ==> |UnlockedUpTo(b.unlocked, actions, j)| <= bound
    ensures AllWithin(bound, StateAt(s, w, b.id, actions, v, i).bindings)
  {
    if i == 0 {
      assert ActEvents(b.id, actions[..0], v.envs[..0]) == [];
    } else {
      RequestKeepsWithin(s, w, b, actions, v, i - 1, bound);
      RequestLeaves(s, w, b, actions, v, i - 1);
      StateAtOk(s, w, b.id, actions, v, i - 1);
      var before := StateAt(s, w, b.id, actions, v, i - 1);
      ActedLeaves(s.plane, FindById(before.bindings, b.id).value, actions[i - 1], v.envs[i - 1]);
      assert |UnlockedUpTo(b.unlocked, actions, i)| <= bound;
      ActKeepsWithin(s.plane, before, b.id, actions[i - 1], v.envs[i - 1], bound);
    }
  }

  lemma {:induction false} RequestKeepsOthers(
      s: Settings, w: World, id: string, actions: seq<Action>, v: Visit, i: nat, b: Binding)
    requires Inv(w) && Fits(s, w, id, actions, v) && i <= |actions| && FindById(w.bindings, id).Some?
    requires b.id != id && IsCurrent(w.bindings, b)
    ensures IsCurrent(StateAt(s, w, id, actions, v, i).bindings, b)
  {
    if i == 0 {
      assert ActEvents(id, actions[..0], v.envs[..0]) == [];
    } else {
      RequestKeepsOthers(s, w, id, actions, v, i - 1, b);
      StateAtOk(s, w, id, actions, v, i - 1);
      ActKeepsOthers(s.plane, StateAt(s, w, id, actions, v, i - 1), id, actions[i - 1], v.envs[i - 1], b);
    }
  }

  function CapOf(s: Settings): nat {
    if s.controller.unlockCap > 0 then s.controller.unlockCap else 0
  }

  /** A chosen reveal exposes nothing new, or is chosen below the cap. */
  lemma ChosenWithinCap(s: Settings, b: Binding, p: Profile, assets: seq<Asset>, i: nat)
    requires OwnTargets(assets) && i < |ChosenFor(s, b, p, assets)|
    ensures var chosen := ChosenFor(s, b, p, assets); var exposed := Exposed(ActionOf(chosen[i]));
      && (exposed.Some? ==> exposed.value in b.unlocked || |PlannedAt(b.unlocked, chosen, i)| < s.controller.unlockCap)
      && (exposed.Some? && exposed.value !in b.unlocked ==> PlannedAfter([], chosen[i]) == [exposed.value])
  {
    var chosen := ChosenFor(s, b, p, assets);
    ChosenAreGated(s, b, p, assets, i);
    var c := chosen[i];
    if c.option.kind.ConfigureAsset? && c.option.variant.value.target.Some? {
      ChosenTarget(s, b, p, assets, i);
    }
  }

  lemma UnlockedIsPlanned(unlocked: seq<string>, c: Candidate)
    requires Exposed(ActionOf(c)).Some? && Exposed(ActionOf(c)).value !in unlocked ==>
               PlannedAfter([], c) == [Exposed(ActionOf(c)).value]
    ensures |UnlockedWith(unlocked, ActionOf(c))| <= |PlannedAfter(unlocked, c)|
  {
    if Exposed(ActionOf(c)).Some? {
      AddingKnown(unlocked, Exposed(ActionOf(c)).value);
    }
  }

  lemma FirstWithinCap(s: Settings, b: Binding, p: Profile, assets: seq<Asset>)
    requires OwnTargets(assets) && |b.unlocked| <= CapOf(s) && ChosenFor(s, b, p, assets) != []
    ensures var chosen := ChosenFor(s, b, p, assets); var first := UnlockedWith(b.unlocked, ActionOf(chosen[0]));
      |first| <= CapOf(s) && |first| <= |PlannedAfter(b.unlocked, chosen[0])|
  {
    var chosen := ChosenFor(s, b, p, assets);
    ChosenWithinCap(s, b, p, assets, 0);
    UnlockedIsPlanned(b.unlocked, chosen[0]);
    if Exposed(ActionOf(chosen[0])).Some? {
      AddingKnown(b.unlocked, Exposed(ActionOf(chosen[0])).value);
    }
  }

  lemma SecondWithinCap(s: Settings, b: Binding, p: Profile, assets: seq<Asset>, first: seq<string>)
    requires OwnTargets(assets) && |ChosenFor(s, b, p, assets)| == 2 && |first| <= CapOf(s)
    requires |first| <= |PlannedAfter(b.unlocked, ChosenFor(s, b, p, assets)[0])| && b.unlocked <= first
    ensures |UnlockedWith(first, ActionOf(ChosenFor(s, b, p, assets)[1]))| <= CapOf(s)
  {
    var second := ActionOf(ChosenFor(s, b, p, assets)[1]);
    ChosenWithinCap(s, b, p, assets, 1);
    if Exposed(second).Some? {
      AddingKnown(first, Exposed(second).value);
      assert forall x :: x in b.unlocked ==> x in first;
    }
  }

  lemma VisitWithinCap(s: Settings, b: Binding, p: Profile, assets: seq<Asset>, actions: seq<Action>, j: nat)
    requires OwnTargets(assets) && |b.unlocked| <= CapOf(s) && j <= |actions| <= |ChosenFor(s, b, p, assets)|
    requires forall i :: 0 <= i < |actions| ==> actions[i] == ActionOf(ChosenFor(s, b, p, assets)[i])
    ensures |UnlockedUpTo(b.unlocked, actions, j)| <= CapOf(s)
  {
    if j > 0 {
      FirstWithinCap(s, b, p, assets);
      var first := UnlockedWith(b.unlocked, actions[0]);
      assert UnlockedUpTo(b.unlocked, actions, 0) == b.unlocked;
      assert UnlockedUpTo(b.unlocked, actions, 1) == first;
      if j == 2 {
        SecondWithinCap(s, b, p, assets, first);
      }
    }
  }

  // ----- Steps and runs -----

  /** The bindings after a visit are those after its last action. */
  lemma VisitBindings(s: Settings, l: Loop, v: Visit, b: Binding, chosen: seq<Candidate>, actions: seq<Action>)
    requires LoopInv(l) && l.agenda != [] && Sends(s, l, l.agenda[0], v, b, chosen, actions)
    ensures |actions| <= |v.envs|
    ensures Attended(s, l, l.agenda[0], v).world.bindings
         == StateAt(s, l.world, b.id, actions, v, |actions|).bindings
    ensures Attended(s, l, l.agenda[0], v).snapshot == l.snapshot
  {
    SendsParts(s, l, l.agenda[0], v, b, chosen, actions);
    SendsFits(s, l, l.agenda[0], v, b, chosen, actions);
    SendsEffect(s, l, l.agenda[0], v, b, chosen, actions);
    FitsOk(s, l.world, b.id, actions, v);
    assert actions[..|actions|] == actions;
  }

  /** The bindings after a visit that reveals. */
  lemma RevealKeepsWithin(
      s: Settings, l: Loop, v: Visit, b: Binding, chosen: seq<Candidate>, actions: seq<Action>)
    requires LoopInv(l) && l.agenda != [] && Sends(s, l, l.agenda[0], v, b, chosen, actions)
    requires OwnTargets(v.assets) && AllWithin(CapOf(s), l.world.bindings) && SnapshotIsCurrent(l)
    ensures |actions| <= |v.envs| && AllWithin(CapOf(s), StateAt(s, l.world, b.id, actions, v, |actions|).bindings)
  {
    SendsParts(s, l, l.agenda[0], v, b, chosen, actions);
    SendsFits(s, l, l.agenda[0], v, b, chosen, actions);
    assert l.agenda[0] in l.agenda && IsCurrent(l.world.bindings, b);
    assert FindById(l.world.bindings, b.id).value in l.world.bindings;
    forall j | 0 <= j <= |actions| ensures |UnlockedUpTo(b.unlocked, actions, j)| <= CapOf(s) {
      VisitWithinCap(s, b, l.agenda[0].profile, v.assets, actions, j);
    }
    RequestKeepsWithin(s, l.world, b, actions, v, |actions|, CapOf(s));
  }

  /** The binding of another attacker on the agenda is another one. */
  lemma OtherBinding(l: Loop, b: Binding, k: Known)
    requires LoopInv(l) && l.agenda != [] && BindingOf(l.snapshot, l.agenda[0].attacker) == Some(b)
    requires k in l.agenda[1..] && BindingOf(l.snapshot, k.attacker).Some?
    ensures k in l.agenda && BindingOf(l.snapshot, k.attacker).value.id != b.id
  {
    var j :| 0 <= j < |l.agenda[1..]| && l.agenda[1..][j] == k;
    assert AttackerOf(l.agenda[0]) != AttackerOf(l.agenda[j + 1]);
    SnapshotBinding(l, k.attacker);
    SnapshotBinding(l, l.agenda[0].attacker);
  }

  /** The others on the agenda keep their bindings as they were. */
  lemma RevealKeepsCurrent(
      s: Settings, l: Loop, v: Visit, b: Binding, chosen: seq<Candidate>, actions: seq<Action>, k: Known)
    requires LoopInv(l) && l.agenda != [] && Sends(s, l, l.agenda[0], v, b, chosen, actions) && SnapshotIsCurrent(l)
    requires k in l.agenda[1..] && BindingOf(l.snapshot, k.attacker).Some?
    ensures |actions| <= |v.envs|
    ensures IsCurrent(StateAt(s, l.world, b.id, actions, v, |actions|).bindings,
                      BindingOf(l.snapshot, k.attacker).value)
  {
    SendsParts(s, l, l.agenda[0], v, b, chosen, actions);
    SendsFits(s, l, l.agenda[0], v, b, chosen, actions);
    OtherBinding(l, b, k);
    SnapshotBinding(l, l.agenda[0].attacker);
    RequestKeepsOthers(s, l.world, b.id, actions, v, |actions|, BindingOf(l.snapshot, k.attacker).value);
  }

  /** The state in which the loop stays within the cap. */
  ghost predicate WithinCap(s: Settings, l: Loop) {
    AllWithin(CapOf(s), l.world.bindings) && SnapshotIsCurrent(l)
  }

  lemma AttendKeepsWithin(s: Settings, l: Loop, v: Visit)
    requires LoopInv(l) && l.agenda != [] && PossibleVisit(s, l, l.agenda[0], v)
    requires OwnTargets(v.assets) && WithinCap(s, l)
    ensures WithinCap(s, Attended(s, l, l.agenda[0], v).(agenda := l.agenda[1..]))
  {
    var after := Attended(s, l, l.agenda[0], v).(agenda := l.agenda[1..]);
    match AttentionTo(s, l, l.agenda[0], v.assets)
    case Reveal(b, chosen, actions) =>
      VisitBindings(s, l, v, b, chosen, actions);
      RevealKeepsWithin(s, l, v, b, chosen, actions);
      forall k | k in after.agenda && BindingOf(after.snapshot, k.attacker).Some?
        ensures IsCurrent(after.world.bindings, BindingOf(after.snapshot, k.attacker).value)
      {
        RevealKeepsCurrent(s, l, v, b, chosen, actions, k);
      }
    case _ => PassingEffect(s, l, l.agenda[0], v);
  }

  lemma SnapshotTaken(bindings: seq<Binding>, attacker: string)
    requires Wellformed(bindings) && BindingOf(bindings, attacker).Some?
    ensures IsCurrent(bindings, BindingOf(bindings, attacker).value)
  {
    var i := LatestIndex(bindings, attacker);
    FindByIdUnique(bindings, i);
  }

  lemma OutsideKeepsWithin(s: Settings, l: Loop, e: Event)
    requires LoopInv(l) && Enabled(l.world, e) && UnlocksNothing(e) && WithinCap(s, l)
    ensures WithinCap(s, l.(world := Next(s.plane, l.world, e)))
  {
    QuietKeepsWithin(s.plane, l.world, e, CapOf(s));
    forall k | k in l.agenda && BindingOf(l.snapshot, k.attacker).Some?
      ensures IsCurrent(Next(s.plane, l.world, e).bindings, BindingOf(l.snapshot, k.attacker).value)
    {
      QuietKeepsCurrent(s.plane, l.world, e, BindingOf(l.snapshot, k.attacker).value);
    }
  }

  lemma StepKeepsWithin(s: Settings, l: Loop, step: Step, assets: seq<Asset>)
    requires LoopInv(l) && Possible(s, l, step) && StepUndisturbed(step, assets)
    requires OwnTargets(assets) && WithinCap(s, l)
    ensures WithinCap(s, NextLoop(s, l, step))
  {
    match step
    case Attend(v) => AttendKeepsWithin(s, l, v);
    case Outside(e) => OutsideKeepsWithin(s, l, e);
    case Begin(_, _, _) =>
      forall k | k in l.profiles && BindingOf(l.world.bindings, k.attacker).Some?
        ensures IsCurrent(l.world.bindings, BindingOf(l.world.bindings, k.attacker).value)
      {
        SnapshotTaken(l.world.bindings, k.attacker);
      }
    case _ =>
  }

  /** Main result: with a catalogue whose targets are their own sources, and nobody else unlocking
      anything, no binding ever has more assets unlocked than the cap allows, although two reveals of
      a tick are chosen before either is applied and the loop works on a snapshot. */
  lemma {:induction false} UnlockedStaysWithinCap(s: Settings, steps: seq<Step>, assets: seq<Asset>)
    requires ValidSteps(s, INITIAL, steps) && Undisturbed(steps, assets) && OwnTargets(assets)
    ensures AllWithin(CapOf(s), LoopAfter(s, INITIAL, steps).world.bindings)
    ensures SnapshotIsCurrent(LoopAfter(s, INITIAL, steps))
    decreases |steps|
  {
    InitialOk();
    if steps != [] {
      var n := |steps| - 1;
      UnlockedStaysWithinCap(s, steps[..n], assets);
      LoopOk(s, INITIAL, steps[..n]);
      StepKeepsWithin(s, LoopAfter(s, INITIAL, steps[..n]), steps[n], assets);
    }
  }
}
