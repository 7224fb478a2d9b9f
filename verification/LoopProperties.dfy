/** What every run of the adaptive loop guarantees. */
module LoopProperties {
  import opened Wrappers
  import opened Iterables
  import opened Bindings
  import opened RouteTable
  import opened Runtime
  import opened ControlPlane
  import opened Orchestrator
  import opened Scoring
  import opened Controller
  import opened Feedback
  import opened ActionLimit
  import opened AdaptiveLoop
  import opened LoopInvariant

  /** The reachability guarantee holds with the loop running. */
  lemma OnlyUnlockedAssetsAreReachableInLoop(s: Settings, steps: seq<Step>, client: string, port: int)
    requires ValidSteps(s, INITIAL, steps)
    ensures var w := LoopAfter(s, INITIAL, steps).world;
      var r := SelectRoute(w.plane.routes, client, port, false);
      r.Some? ==>
        BelongsTo(w.bindings, r.value.bindingId, client) && IsUnlocked(w.bindings, r.value.bindingId, r.value.assetId)
  {
    InitialOk();
    LoopOk(s, INITIAL, steps);
    SelectedRouteIsClients(LoopAfter(s, INITIAL, steps).world.plane.routes, client, port);
  }

  // ----- Dependency safety -----

  lemma ActReveals(s: Setting, w: World, id: string, c: Candidate, env: Env, a: string)
    requires Inv(w) && FindById(w.bindings, id).Some? && Enabled(w, Act(id, ActionOf(c), env))
    requires ActionOf(c).assetId != ""
    requires ActionOf(c).Configure? ==> ActionOf(c).configurationId != "" && ActionOf(c).target != Some("")
    requires a in PlannedAfter([], c) && (ActionOf(c).Unlock? <==> c.option.kind.UnlockAsset?)
    requires IsReveal(ActionOf(c))
    ensures IsUnlocked(Next(s, w, Act(id, ActionOf(c), env)).bindings, id, a)
  {
    var b := FindById(w.bindings, id).value;
    TimeMayPass(w, env.now);
    ActOnOk(s, w.(clock := env.now), b, ActionOf(c), env);
    ActedUnlocks(s, b, c, env, a);
  }

  lemma ActedUnlocks(s: Setting, b: Binding, c: Candidate, env: Env, a: string)
    requires ActionOf(c).assetId != "" && (ActionOf(c).Unlock? <==> c.option.kind.UnlockAsset?)
    requires ActionOf(c).Configure? ==> ActionOf(c).configurationId != "" && ActionOf(c).target != Some("")
    requires a in PlannedAfter([], c) && IsReveal(ActionOf(c))
    ensures a in Acted(s, b, ActionOf(c), env).unlocked
  {
    assert a in [a];
  }

  lemma PlannedSplit(unlocked: seq<string>, c: Candidate, a: string)
    requires a in PlannedAfter(unlocked, c)
    ensures a in unlocked || a in PlannedAfter([], c)
  {
  }

  /** What the binding of the snapshot has unlocked is unlocked in every state of the request. */
  lemma SnapshotHolds(l: Loop, attacker: string, b: Binding, w: World, a: string)
    requires LoopInv(l) && BindingOf(l.snapshot, attacker) == Some(b) && Inv(w) && Grows(l.world.bindings, w.bindings)
    requires a in b.unlocked
    ensures IsUnlocked(w.bindings, b.id, a)
  {
    SnapshotBinding(l, attacker);
    GrowsFind(l.world.bindings, w.bindings, b.id);
  }

  /** The state in which the i-th action of a visit is applied. */
  function StateAt(s: Settings, w: World, id: string, actions: seq<Action>, v: Visit, i: nat): World
    requires i <= |actions| <= |v.envs|
  {
    After(s.plane, w, ActEvents(id, actions[..i], v.envs[..i]))
  }

  lemma StateAtOk(s: Settings, w: World, id: string, actions: seq<Action>, v: Visit, i: nat)
    requires Inv(w) && FindById(w.bindings, id).Some? && Fits(s, w, id, actions, v) && i < |actions|
    ensures var w' := StateAt(s, w, id, actions, v, i);
      && Inv(w') && Grows(w.bindings, w'.bindings) && FindById(w'.bindings, id).Some?
      && Enabled(w', Act(id, actions[i], v.envs[i]))
      && StateAt(s, w, id, actions, v, i + 1) == Next(s.plane, w', Act(id, actions[i], v.envs[i]))
  {
    var envs := v.envs[..|actions|];
    assert envs[..i] == v.envs[..i] && envs[..i + 1] == v.envs[..i + 1];
    BeforeAction(s.plane, w, id, actions, envs, i);
    ActEventsLast(s.plane, w, id, actions, envs, i);
  }

  /** What the main reveal exposes is unlocked when the explore reveal is applied. */
  lemma MainIsUnlocked(s: Settings, w: World, b: Binding, p: Profile, v: Visit, actions: seq<Action>, a: string)
    requires Inv(w) && FindById(w.bindings, b.id).Some? && Fits(s, w, b.id, actions, v) && Named(v.assets)
    requires |ChosenFor(s, b, p, v.assets)| == 2 == |actions| && actions[0] == ActionOf(ChosenFor(s, b, p, v.assets)[0])
    requires a in PlannedAfter([], ChosenFor(s, b, p, v.assets)[0])
    ensures IsUnlocked(StateAt(s, w, b.id, actions, v, 1).bindings, b.id, a)
  {
    var main := ChosenFor(s, b, p, v.assets)[0];
    StateAtOk(s, w, b.id, actions, v, 0);
    ChosenAreGated(s, b, p, v.assets, 0);
    GatedAction(SceneOf(s, b, p), v.assets, b.unlocked, main);
    ActReveals(s.plane, StateAt(s, w, b.id, actions, v, 0), b.id, main, v.envs[0], a);
  }

  lemma PlannedIsUnlocked(
      s: Settings, l: Loop, k: Known, v: Visit, b: Binding, chosen: seq<Candidate>, actions: seq<Action>, i: nat,
      a: string)
    requires LoopInv(l) && Sends(s, l, k, v, b, chosen, actions) && i < |actions| <= |chosen|
    requires |v.envs| == 2 >= |actions| && a in PlannedAt(b.unlocked, chosen, i)
    ensures IsUnlocked(StateAt(s, l.world, b.id, actions, v, i).bindings, b.id, a)
  {
    SendsParts(s, l, k, v, b, chosen, actions);
    SendsFits(s, l, k, v, b, chosen, actions);
    if a in b.unlocked {
      SnapshotIsUnlocked(s, l, k.attacker, b, v, actions, i, a);
    } else {
      SnapshotBinding(l, k.attacker);
      ExposedIsUnlocked(s, l.world, b, k.profile, v, actions, i, a);
    }
  }

  lemma ExposedIsUnlocked(
      s: Settings, w: World, b: Binding, p: Profile, v: Visit, actions: seq<Action>, i: nat, a: string)
    requires Inv(w) && FindById(w.bindings, b.id).Some? && Fits(s, w, b.id, actions, v) && Named(v.assets)
    requires i < |actions| <= |ChosenFor(s, b, p, v.assets)| && actions[0] == ActionOf(ChosenFor(s, b, p, v.assets)[0])
    requires a in PlannedAt(b.unlocked, ChosenFor(s, b, p, v.assets), i) && a !in b.unlocked
    ensures IsUnlocked(StateAt(s, w, b.id, actions, v, i).bindings, b.id, a)
  {
    PlannedSplit(b.unlocked, ChosenFor(s, b, p, v.assets)[0], a);
    MainIsUnlocked(s, w, b, p, v, actions, a);
  }

  lemma SnapshotIsUnlocked(
      s: Settings, l: Loop, attacker: string, b: Binding, v: Visit, actions: seq<Action>, i: nat, a: string)
    requires LoopInv(l) && BindingOf(l.snapshot, attacker) == Some(b) && a in b.unlocked && i < |actions| <= |v.envs|
    requires Fits(s, l.world, b.id, actions, v)
    ensures IsUnlocked(StateAt(s, l.world, b.id, actions, v, i).bindings, b.id, a)
  {
    SnapshotBinding(l, attacker);
    StateAtOk(s, l.world, b.id, actions, v, i);
    SnapshotHolds(l, attacker, b, StateAt(s, l.world, b.id, actions, v, i), a);
  }

  /** Main result: in every run of the loop, amid whatever else happens, an asset is unlocked by the
      loop only when all its dependencies are unlocked for the binding at the moment the action is
      applied, although the limit may have cut the reveals short and the loop works on a snapshot. */
  lemma DependenciesComeFirst(s: Settings, steps: seq<Step>, v: Visit, i: nat)
    requires ValidSteps(s, INITIAL, steps) && Possible(s, LoopAfter(s, INITIAL, steps), Attend(v))
    requires var l := LoopAfter(s, INITIAL, steps); var a := AttentionTo(s, l, l.agenda[0], v.assets);
             a.Reveal? && i < |a.actions| && a.actions[i].Unlock?
    ensures var l := LoopAfter(s, INITIAL, steps); var a := AttentionTo(s, l, l.agenda[0], v.assets);
      exists asset :: asset in v.assets && asset.id == a.actions[i].assetId
        && forall d :: d in asset.dependencies ==>
             IsUnlocked(StateAt(s, l.world, a.binding.id, a.actions, v, i).bindings, a.binding.id, d)
  {
    InitialOk();
    LoopOk(s, INITIAL, steps);
    var l := LoopAfter(s, INITIAL, steps);
    var k := l.agenda[0];
    var Reveal(b, chosen, actions) := AttentionTo(s, l, k, v.assets);
    SendsParts(s, l, k, v, b, chosen, actions);
    ChosenAreGated(s, b, k.profile, v.assets, i);
    var planned := PlannedAt(b.unlocked, chosen, i);
    GatedAction(SceneOf(s, b, k.profile), v.assets, planned, chosen[i]);
    var asset := chosen[i].option.asset;
    forall d | d in asset.dependencies
      ensures IsUnlocked(StateAt(s, l.world, b.id, actions, v, i).bindings, b.id, d)
    {
      var j :| 0 <= j < |asset.dependencies| && asset.dependencies[j] == d;
      PlannedIsUnlocked(s, l, k, v, b, chosen, actions, i, d);
    }
  }

  // ----- The ledger over runs -----

  /** Main result: in every run each counter is the number of rows it stands for, and what was
      revealed is what is pending, useful, shallow or ignored. */
  lemma LedgerIsConserved(s: Settings, steps: seq<Step>, key: GroupKey)
    requires ValidSteps(s, INITIAL, steps)
    ensures var l := LoopAfter(s, INITIAL, steps).ledger;
      var c := CountersOf(l.contexts, key);
      && c.revealed == CountAll(l.rows, key)
      && c.useful == Count(l.rows, key, Useful) && c.shallow == Count(l.rows, key, Shallow)
      && c.ignored == Count(l.rows, key, Ignored)
      && c.revealed == Count(l.rows, key, Pending) + c.useful + c.shallow + c.ignored
  {
    InitialOk();
    LoopOk(s, INITIAL, steps);
    StatusesAddUp(LoopAfter(s, INITIAL, steps).ledger.rows, key);
  }

  /** A step appends rows only for the attacker it looks at and a binding whose gate is open. */
  ghost predicate AddsOnly(l: Loop, step: Step, rows: seq<Row>) {
    forall r :: r in rows ==>
      && step.Attend? && l.agenda != [] && r.attacker == l.agenda[0].attacker
      && GateOpen(l.ledger, r.attacker, r.bindingId, l.agenda[0].profile.assetIds)
  }

  lemma RevealNeedsOpenGate(s: Settings, l: Loop, k: Known, assets: seq<Asset>)
    requires s.keepsFeedback && AttentionTo(s, l, k, assets).Reveal?
    ensures GateOpen(l.ledger, k.attacker, AttentionTo(s, l, k, assets).binding.id, k.profile.assetIds)
  {
  }

  lemma VisitAdvances(s: Settings, l: Loop, v: Visit, b: Binding, chosen: seq<Candidate>, actions: seq<Action>)
    requires l.agenda != [] && Sends(s, l, l.agenda[0], v, b, chosen, actions)
    ensures var after := Attended(s, l, l.agenda[0], v).ledger;
      Advances(l.ledger, after) && AddsOnly(l, Attend(v), after.rows[|l.ledger.rows|..])
  {
    var k, rows := l.agenda[0], NewRows(l.agenda[0], b.id, chosen, UnlockedBy(actions), v.stamps);
    SendsEffect(s, l, k, v, b, chosen, actions);
    if s.keepsFeedback {
      SendsParts(s, l, k, v, b, chosen, actions);
      RevealNeedsOpenGate(s, l, k, v.assets);
      VisitRows(s, l, k, v);
      RecordingAdvances(l.ledger, rows);
    }
  }

  lemma RecordingAdvances(l: Ledger, rows: seq<Row>)
    ensures Advances(l, RecordAll(l, rows)) && RecordAll(l, rows).rows[|l.rows|..] == rows
  {
    RecordAllRows(l, rows);
    assert (l.rows + rows)[..|l.rows|] == l.rows && (l.rows + rows)[|l.rows|..] == rows;
  }

  lemma StepAdvances(s: Settings, l: Loop, step: Step)
    requires Possible(s, l, step)
    ensures var after := NextLoop(s, l, step).ledger;
      Advances(l.ledger, after) && AddsOnly(l, step, after.rows[|l.ledger.rows|..])
  {
    match step
    case Begin(evidence, touches, now) =>
      UpdateAdvances(l.ledger, Observation(evidence, touches, now, s.window));
    case Attend(v) =>
      match AttentionTo(s, l, l.agenda[0], v.assets) {
        case Reveal(b, chosen, actions) => VisitAdvances(s, l, v, b, chosen, actions);
        case _ =>
      }
    case _ =>
  }

  /** A resolved row never changes again, and rows keep their place. */
  lemma {:induction false} ResolvedRowsStay(s: Settings, l: Loop, steps: seq<Step>)
    requires ValidSteps(s, l, steps)
    ensures Advances(l.ledger, LoopAfter(s, l, steps).ledger)
    decreases |steps|
  {
    if steps != [] {
      var n := |steps| - 1;
      var l1 := LoopAfter(s, l, steps[..n]);
      ResolvedRowsStay(s, l, steps[..n]);
      StepAdvances(s, l1, steps[n]);
      AdvancesTransitive(l.ledger, l1.ledger, LoopAfter(s, l, steps).ledger);
    }
  }

  // ----- The response gate over runs -----

  /** Main result: a further reveal for a binding is sent only when a row of its newest batch was
      found useful or shallow or the attacker has just touched one of its assets; the newest batch
      is the one recorded last. */
  lemma FurtherRevealsAreAnswered(s: Settings, steps: seq<Step>, v: Visit)
    requires s.keepsFeedback
    requires ValidSteps(s, INITIAL, steps) && Possible(s, LoopAfter(s, INITIAL, steps), Attend(v))
    ensures var l := LoopAfter(s, INITIAL, steps);
      forall b, chosen, actions :: AttentionTo(s, l, l.agenda[0], v.assets) == Reveal(b, chosen, actions) ==>
        Answered(l.ledger.rows, l.agenda[0].attacker, b.id, l.agenda[0].profile.assetIds)
  {
    InitialOk();
    LoopOk(s, INITIAL, steps);
    var l := LoopAfter(s, INITIAL, steps);
    if AttentionTo(s, l, l.agenda[0], v.assets).Reveal? {
      VisitIsAnswered(s, l, l.agenda[0], v.assets);
    }
  }

  /** Nothing was revealed for the binding yet, or its last batch was answered or touched. */
  ghost predicate Answered(rows: seq<Row>, attacker: string, id: string, recent: seq<string>) {
    var own := RowsFor(rows, attacker, id);
    own == [] ||
    (&& Latest(own) == own[|own| - 1]
     && ((exists r :: r in NewestBatch(rows, attacker, id) && Responded(r.status))
         || TouchesNewest(rows, attacker, id, recent)))
  }

  lemma VisitIsAnswered(s: Settings, l: Loop, k: Known, assets: seq<Asset>)
    requires LoopInv(l) && s.keepsFeedback && AttentionTo(s, l, k, assets).Reveal?
    ensures Answered(l.ledger.rows, k.attacker, AttentionTo(s, l, k, assets).binding.id, k.profile.assetIds)
  {
    RevealNeedsOpenGate(s, l, k, assets);
    OpenGateIsAnswered(l.ledger, l.world.clock, k.attacker, AttentionTo(s, l, k, assets).binding.id,
                       k.profile.assetIds);
  }

  lemma OpenGateIsAnswered(l: Ledger, clock: int, attacker: string, id: string, recent: seq<string>)
    requires UniqueRows(l.rows) && Timely(l.rows, clock) && GateOpen(l, attacker, id, recent)
    ensures Answered(l.rows, attacker, id, recent)
  {
    GateIsExact(l, attacker, id, recent);
    OwnRowsTimely(l.rows, attacker, id, clock);
  }

  lemma {:induction false} OwnRowsTimely(rows: seq<Row>, attacker: string, id: string, clock: int)
    requires Timely(rows, clock)
    ensures var own := RowsFor(rows, attacker, id);
      (forall r :: r in own ==> r in rows) && (own != [] ==> Latest(own) == own[|own| - 1])
  {
    RowsForMembers(rows, attacker, id);
    if rows != [] {
      var n := |rows| - 1;
      OwnRowsTimely(rows[..n], attacker, id, clock);
      var front := RowsFor(rows[..n], attacker, id);
      var own := RowsFor(rows, attacker, id);
      if IsFor(rows[n], attacker, id) {
        assert own == front + [rows[n]] && own[..|own| - 1] == front;
        if front != [] {
          LatestIsNewest(front);
          var j :| 0 <= j < n && rows[j] == Latest(front);
          assert rows[j].ts <= rows[n].ts;
        }
      } else {
        assert own == front;
      }
    }
  }

  /** No visit of the run finds that the attacker touched an asset of the batch that was newest at
      its start. */
  ghost predicate Untouched(s: Settings, l: Loop, steps: seq<Step>, attacker: string, id: string)
    requires ValidSteps(s, l, steps)
    decreases |steps|
  {
    steps == [] ||
    (var n := |steps| - 1;
     var agenda := LoopAfter(s, l, steps[..n]).agenda;
     && Untouched(s, l, steps[..n], attacker, id)
     && (steps[n].Attend? && agenda[0].attacker == attacker ==>
           !TouchesNewest(l.ledger.rows, attacker, id, agenda[0].profile.assetIds)))
  }

  ghost predicate Unanswered(rows: seq<Row>) {
    forall r :: r in rows ==> !Responded(r.status)
  }

  lemma SettlingAnswersMore(before: seq<Row>, after: seq<Row>)
    requires RowsSettle(before, after) && Unanswered(after)
    ensures Unanswered(before)
  {
    forall r | r in before ensures !Responded(r.status) {
      var i :| 0 <= i < |before| && before[i] == r;
      assert RowSettles(before[i], after[i]) && after[i] in after;
    }
  }

  ghost predicate NoRowsSince(l: Ledger, n: nat, attacker: string, id: string) {
    forall i :: n <= i < |l.rows| ==> !IsFor(l.rows[i], attacker, id)
  }

  /** A visit at a shut gate adds nothing for the binding. */
  lemma ShutGateAddsNothing(s: Settings, l: Loop, step: Step, attacker: string, id: string)
    requires s.keepsFeedback && Possible(s, l, step)
    requires step.Attend? && l.agenda[0].attacker == attacker ==>
             !GateOpen(l.ledger, attacker, id, l.agenda[0].profile.assetIds)
    ensures NoRowsSince(NextLoop(s, l, step).ledger, |l.ledger.rows|, attacker, id)
  {
    var after, n := NextLoop(s, l, step).ledger, |l.ledger.rows|;
    StepAdvances(s, l, step);
    NoneIsFor(l, step, after.rows[n..], attacker, id);
    TailOf(after, n, attacker, id);
  }

  lemma NoneIsFor(l: Loop, step: Step, rows: seq<Row>, attacker: string, id: string)
    requires AddsOnly(l, step, rows)
    requires step.Attend? && l.agenda != [] && l.agenda[0].attacker == attacker ==>
               !GateOpen(l.ledger, attacker, id, l.agenda[0].profile.assetIds)
    ensures forall r :: r in rows ==> !IsFor(r, attacker, id)
  {
  }

  lemma TailOf(l: Ledger, n: nat, attacker: string, id: string)
    requires n <= |l.rows| && forall r :: r in l.rows[n..] ==> !IsFor(r, attacker, id)
    ensures NoRowsSince(l, n, attacker, id)
  {
    forall i | n <= i < |l.rows| ensures !IsFor(l.rows[i], attacker, id) {
      assert l.rows[n..][i - n] in l.rows[n..];
    }
  }

  /** A visit sends something, an unlock or a configuration, to the binding. */
  ghost predicate RevealsTo(s: Settings, l: Loop, k: Known, assets: seq<Asset>, id: string) {
    var a := AttentionTo(s, l, k, assets);
    a.Reveal? && a.binding.id == id
  }

  lemma ShutGateReveals(s: Settings, l: Loop, k: Known, assets: seq<Asset>, id: string)
    requires s.keepsFeedback && !GateOpen(l.ledger, k.attacker, id, k.profile.assetIds)
    ensures !RevealsTo(s, l, k, assets, id)
  {
    if RevealsTo(s, l, k, assets, id) {
      RevealNeedsOpenGate(s, l, k, assets);
    }
  }

  /** No visit of the run to the attacker sends anything to the binding. */
  ghost predicate NeverRevealsTo(s: Settings, l: Loop, steps: seq<Step>, attacker: string, id: string)
    requires ValidSteps(s, l, steps)
    decreases |steps|
  {
    steps == [] ||
    (var n := |steps| - 1;
     var l1 := LoopAfter(s, l, steps[..n]);
     && NeverRevealsTo(s, l, steps[..n], attacker, id)
     && (steps[n].Attend? && l1.agenda[0].attacker == attacker ==>
           !RevealsTo(s, l1, l1.agenda[0], steps[n].visit.assets, id)))
  }

  /** Main result: along any run, as long as nothing of a binding's newest batch has been answered
      by its end and the attacker touches none of it, no visit sends anything further to the
      binding, unlocks and configurations alike; the gate is still shut then. */
  lemma {:induction false} NoRevealWithoutResponse(
      s: Settings, l: Loop, steps: seq<Step>, attacker: string, id: string, recent: seq<string>)
    requires s.keepsFeedback && ValidSteps(s, l, steps) && RowsFor(l.ledger.rows, attacker, id) != []
    requires Untouched(s, l, steps, attacker, id) && !TouchesNewest(l.ledger.rows, attacker, id, recent)
    requires |l.ledger.rows| <= |LoopAfter(s, l, steps).ledger.rows|
    requires Unanswered(NewestBatch(LoopAfter(s, l, steps).ledger.rows[..|l.ledger.rows|], attacker, id))
    ensures NoRowsSince(LoopAfter(s, l, steps).ledger, |l.ledger.rows|, attacker, id)
    ensures !GateOpen(LoopAfter(s, l, steps).ledger, attacker, id, recent)
    ensures NeverRevealsTo(s, l, steps, attacker, id)
    decreases |steps|
  {
    var start, last, n := l.ledger, LoopAfter(s, l, steps).ledger, |l.ledger.rows|;
    ResolvedRowsStay(s, l, steps);
    if steps != [] {
      var m := |steps| - 1;
      var l1 := LoopAfter(s, l, steps[..m]);
      ResolvedRowsStay(s, l, steps[..m]);
      StepAdvances(s, l1, steps[m]);
      StillUnanswered(n, l1.ledger, last, attacker, id);
      var looked := steps[m].Attend? && l1.agenda[0].attacker == attacker;
      var touched := if looked then l1.agenda[0].profile.assetIds else recent;
      NoRevealWithoutResponse(s, l, steps[..m], attacker, id, touched);
      ShutGateAddsNothing(s, l1, steps[m], attacker, id);
      if steps[m].Attend? && l1.agenda[0].attacker == attacker {
        ShutGateReveals(s, l1, l1.agenda[0], steps[m].visit.assets, id);
      }
      NoneSince(n, l1.ledger, last, attacker, id);
    }
    NewestBatchStays(start, last, attacker, id);
    RowsForOthers(last.rows, n, attacker, id);
    UnansweredBatchBlocks(last, attacker, id, recent);
  }

  lemma StillUnanswered(n: nat, before: Ledger, after: Ledger, attacker: string, id: string)
    requires Advances(before, after) && n <= |before.rows|
    requires Unanswered(NewestBatch(after.rows[..n], attacker, id))
    ensures Unanswered(NewestBatch(before.rows[..n], attacker, id))
  {
    var b, a := before.rows[..n], after.rows[..n];
    forall i | 0 <= i < n ensures RowSettles(b[i], a[i]) {
      assert RowSettles(before.rows[i], after.rows[..|before.rows|][i]);
    }
    NewestBatchStays(Ledger(map[], b), Ledger(map[], a), attacker, id) by {
      assert a[..n] == a;
    }
    SettlingAnswersMore(NewestBatch(b, attacker, id), NewestBatch(a, attacker, id));
  }

  lemma NoneSince(n: nat, before: Ledger, after: Ledger, attacker: string, id: string)
    requires Advances(before, after) && n <= |before.rows|
    requires NoRowsSince(before, n, attacker, id) && NoRowsSince(after, |before.rows|, attacker, id)
    ensures NoRowsSince(after, n, attacker, id)
  {
    forall i | n <= i < |after.rows| ensures !IsFor(after.rows[i], attacker, id) {
      if i < |before.rows| {
        assert RowSettles(before.rows[i], after.rows[..|before.rows|][i]);
      }
    }
  }

  /** A batch that was ignored altogether blocks its binding for good: later evidence does not
      reopen it, only a touch of one of its assets does. */
  lemma IgnoredBatchBlocksForGood(
      s: Settings, l: Loop, steps: seq<Step>, attacker: string, id: string, recent: seq<string>)
    requires s.keepsFeedback && ValidSteps(s, l, steps) && RowsFor(l.ledger.rows, attacker, id) != []
    requires forall r :: r in NewestBatch(l.ledger.rows, attacker, id) ==> r.status.Ignored?
    requires Untouched(s, l, steps, attacker, id)
    ensures GateOpen(LoopAfter(s, l, steps).ledger, attacker, id, recent) <==>
            TouchesNewest(l.ledger.rows, attacker, id, recent)
  {
    var start, last, n := l.ledger, LoopAfter(s, l, steps).ledger, |l.ledger.rows|;
    ResolvedRowsStay(s, l, steps);
    var rows := last.rows[..n];
    NewestBatchStays(start, Ledger(map[], rows), attacker, id) by {
      assert rows[..n] == rows;
    }
    var before, after := NewestBatch(start.rows, attacker, id), NewestBatch(rows, attacker, id);
    forall r | r in after ensures !Responded(r.status) {
      var i :| 0 <= i < |after| && after[i] == r;
      assert RowSettles(before[i], after[i]) && before[i] in before;
    }
    NoRevealWithoutResponse(s, l, steps, attacker, id, []);
    NewestBatchStays(start, last, attacker, id);
    if !TouchesNewest(start.rows, attacker, id, recent) {
      NoRevealWithoutResponse(s, l, steps, attacker, id, recent);
    }
  }

  // ----- Evidence triggers once -----

  ghost predicate AllProcessed(processed: map<string, seq<string>>, attacker: string, ids: seq<string>) {
    forall x :: x in ids ==> x in ProcessedOf(processed, attacker)
  }

  lemma StepKeepsProcessed(s: Settings, l: Loop, step: Step, attacker: string, ids: seq<string>)
    requires Possible(s, l, step) && AllProcessed(l.processed, attacker, ids)
    ensures AllProcessed(NextLoop(s, l, step).processed, attacker, ids)
  {
  }

  lemma {:induction false} RunKeepsProcessed(s: Settings, l: Loop, steps: seq<Step>, attacker: string, ids: seq<string>)
    requires ValidSteps(s, l, steps) && AllProcessed(l.processed, attacker, ids)
    ensures AllProcessed(LoopAfter(s, l, steps).processed, attacker, ids)
    decreases |steps|
  {
    if steps != [] {
      var n := |steps| - 1;
      RunKeepsProcessed(s, l, steps[..n], attacker, ids);
      StepKeepsProcessed(s, LoopAfter(s, l, steps[..n]), steps[n], attacker, ids);
    }
  }

  /** Main result: evidence that a visit has looked at, whether the visit revealed anything, found
      the gate shut or got no suggestion, never triggers another one, however long the loop runs. */
  lemma EvidenceTriggersOnce(s: Settings, l: Loop, v: Visit, steps: seq<Step>, assets: seq<Asset>)
    requires s.keepsState && Possible(s, l, Attend(v)) && !AttentionTo(s, l, l.agenda[0], v.assets).NoBinding?
    requires ValidSteps(s, NextLoop(s, l, Attend(v)), steps)
    requires var l2 := LoopAfter(s, NextLoop(s, l, Attend(v)), steps);
             && l2.agenda != [] && l2.agenda[0].attacker == l.agenda[0].attacker
             && forall x :: x in l2.agenda[0].profile.evidenceIds ==> x in l.agenda[0].profile.evidenceIds
    ensures var l2 := LoopAfter(s, NextLoop(s, l, Attend(v)), steps);
      AttentionTo(s, l2, l2.agenda[0], assets) == NothingNew
  {
    var k, l1 := l.agenda[0], NextLoop(s, l, Attend(v));
    if AttentionTo(s, l, k, v.assets).NothingNew? {
      forall x | x in k.profile.evidenceIds ensures x in ProcessedOf(l1.processed, k.attacker) {
        var i :| 0 <= i < |k.profile.evidenceIds| && k.profile.evidenceIds[i] == x;
      }
    }
    RunKeepsProcessed(s, l1, steps, k.attacker, k.profile.evidenceIds);
  }

  // ----- Reveals do happen -----

  /** The first reveal for a binding is never held back: with new evidence and a candidate, the
      controller's choice is sent. */
  lemma FirstRevealIsAllowed(s: Settings, l: Loop, k: Known, b: Binding, assets: seq<Asset>)
    requires HasNewEvidence(l.processed, k.attacker, k.profile.evidenceIds)
    requires BindingOf(l.snapshot, k.attacker) == Some(b) && RowsFor(l.ledger.rows, k.attacker, b.id) == []
    requires Decide(SceneOf(s, b, k.profile), assets).main.Some?
    ensures var chosen := ChosenFor(s, b, k.profile, assets);
      AttentionTo(s, l, k, assets) == Reveal(b, chosen, ActionsToSend(chosen, s.limit))
  {
    assert GateOpen(l.ledger, k.attacker, b.id, k.profile.assetIds);
  }

  lemma AppendStep(s: Settings, l: Loop, steps: seq<Step>, step: Step) returns (longer: seq<Step>)
    requires ValidSteps(s, l, steps) && Possible(s, LoopAfter(s, l, steps), step)
    ensures longer == steps + [step] && ValidSteps(s, l, longer)
    ensures LoopAfter(s, l, longer) == NextLoop(s, LoopAfter(s, l, steps), step)
  {
    longer := steps + [step];
    assert longer[..|steps|] == steps;
  }

  lemma FirstResolve(s: Setting, attacker: string, id: string)
    ensures Enabled(EMPTY, Resolve(attacker, id, 0))
    ensures Next(s, EMPTY, Resolve(attacker, id, 0)) == EMPTY.(bindings := [Created(id, attacker, 0, s.ttl)])
  {
  }

  /** The state of the loop when it first looks at an attacker. */
  function FirstLook(s: Settings, k: Known, id: string): Loop {
    var bindings := [Created(id, k.attacker, 0, s.plane.ttl)];
    Loop(EMPTY.(bindings := bindings), NO_FEEDBACK, map[], [k], bindings, [k])
  }

  lemma FirstProfile(s: Settings, l: Loop, k: Known)
    requires l.profiles == []
    ensures NextLoop(s, l, Profiled(k)) == l.(profiles := [k])
  {
  }

  lemma FirstBegin(s: Settings, l: Loop)
    requires l.agenda == [] && l.world.clock == 0 && l.ledger == NO_FEEDBACK
    ensures Possible(s, l, Begin([], [], 0))
    ensures NextLoop(s, l, Begin([], [], 0)) == l.(snapshot := l.world.bindings, agenda := l.profiles)
  {
  }

  lemma FirstPass(s: Settings, k: Known, id: string) returns (steps: seq<Step>)
    ensures ValidSteps(s, INITIAL, steps) && LoopAfter(s, INITIAL, steps) == FirstLook(s, k, id)
  {
    steps := [];
    FirstResolve(s.plane, k.attacker, id);
    steps := AppendStep(s, INITIAL, steps, Outside(Resolve(k.attacker, id, 0)));
    FirstProfile(s, LoopAfter(s, INITIAL, steps), k);
    steps := AppendStep(s, INITIAL, steps, Profiled(k));
    FirstBegin(s, LoopAfter(s, INITIAL, steps));
    steps := AppendStep(s, INITIAL, steps, Begin([], [], 0));
  }

  /** A run in which a reveal is sent, for any attacker, catalogue and profile for which the
      controller has a candidate. */
  lemma RevealCanHappen(s: Settings, k: Known, id: string, assets: seq<Asset>) returns (steps: seq<Step>, v: Visit)
    requires k.attacker != "" && k.profile.evidenceIds != [] && Named(assets)
    requires Decide(SceneOf(s, Created(id, k.attacker, 0, s.plane.ttl), k.profile), assets).main.Some?
    ensures ValidSteps(s, INITIAL, steps)
    ensures var l := LoopAfter(s, INITIAL, steps);
      && Possible(s, l, Attend(v)) && v.assets == assets && l.agenda == [k]
      && AttentionTo(s, l, k, assets).Reveal? && (s.limit > 0 ==> AttentionTo(s, l, k, assets).actions != [])
  {
    steps := FirstPass(s, k, id);
    var l, b := LoopAfter(s, INITIAL, steps), Created(id, k.attacker, 0, s.plane.ttl);
    assert BindingOf(l.snapshot, k.attacker) == Some(b);
    assert k.profile.evidenceIds[0] !in ProcessedOf(l.processed, k.attacker);
    FirstRevealIsAllowed(s, l, k, b, assets);
    v := VisitIsPossible(s, l, k, assets);
  }

  lemma UnusedRuntimeId(records: seq<Record>) returns (id: string)
    ensures !HasKey(records, RuntimeIdOf, id)
  {
    id := "";
    for i := 0 to |records|
      invariant forall j :: 0 <= j < i ==> |RuntimeIdOf(records[j])| < |id|
    {
      if |RuntimeIdOf(records[i])| >= |id| {
        id := seq(|RuntimeIdOf(records[i])| + 1, _ => 'r');
      }
    }
  }

  lemma NoActIsValid(s: Setting, w: World, id: string)
    ensures ValidRun(s, w, ActEvents(id, [], [])) && After(s, w, ActEvents(id, [], [])) == w
  {
  }

  lemma OneActMore(s: Setting, w: World, id: string, actions: seq<Action>, envs: seq<Env>) returns (env: Env)
    requires actions != [] && |envs| == |actions| - 1
    requires ValidRun(s, w, ActEvents(id, actions[..|envs|], envs))
    ensures ValidRun(s, w, ActEvents(id, actions, envs + [env]))
  {
    var before := After(s, w, ActEvents(id, actions[..|envs|], envs));
    var unused := UnusedRuntimeId(before.plane.records);
    env := Env(before.clock, unused, ComesUp(true));
    var events := ActEvents(id, actions, envs + [env]);
    assert events[..|events| - 1] == ActEvents(id, actions[..|envs|], envs);
  }

  /** The actions can be applied with containers that come up. */
  lemma {:induction false} ActsAreValid(s: Setting, w: World, id: string, actions: seq<Action>) returns (envs: seq<Env>)
    ensures |envs| == |actions| && ValidRun(s, w, ActEvents(id, actions, envs))
  {
    if actions == [] {
      envs := [];
      NoActIsValid(s, w, id);
    } else {
      var front := ActsAreValid(s, w, id, actions[..|actions| - 1]);
      var env := OneActMore(s, w, id, actions, front);
      envs := front + [env];
    }
  }

  lemma SendingIsPossible(s: Settings, l: Loop, k: Known, assets: seq<Asset>, spare: Env) returns (v: Visit)
    requires Named(assets) && AttentionTo(s, l, k, assets).Reveal?
    ensures v.assets == assets && PossibleVisit(s, l, k, v)
  {
    var Reveal(b, chosen, actions) := AttentionTo(s, l, k, assets);
    var envs := ActsAreValid(s.plane, l.world, b.id, actions);
    var late := After(s.plane, l.world, ActEvents(b.id, actions, envs)).clock;
    var all := (envs + [spare, spare])[..2];
    assert all[..|actions|] == envs;
    v := Visit(assets, all, {}, late, [late, late]);
  }

  /** Whatever a visit is to send can be sent. */
  lemma VisitIsPossible(s: Settings, l: Loop, k: Known, assets: seq<Asset>) returns (v: Visit)
    requires Named(assets)
    ensures v.assets == assets && PossibleVisit(s, l, k, v)
  {
    var spare := Env(l.world.clock, "", FailsEarly);
    if AttentionTo(s, l, k, assets).Reveal? {
      v := SendingIsPossible(s, l, k, assets, spare);
    } else {
      v := Visit(assets, [spare, spare], {}, 0, [0, 0]);
    }
  }
}
