/** What every step of the adaptive loop keeps. */
module LoopInvariant {
  import opened Wrappers
  import opened Iterables
  import opened ListStore
  import opened Bindings
  import opened ControlPlane
  import opened Orchestrator
  import opened Scoring
  import opened Controller
  import opened ControllerProperties
  import opened Feedback
  import opened ActionLimit
  import opened AdaptiveLoop

  // ----- The chosen reveals -----

  /** The assets the i-th chosen reveal was gated against. */
  function PlannedAt(unlocked: seq<string>, chosen: seq<Candidate>, i: nat): seq<string>
    requires i < |chosen|
  {
    if i == 0 then unlocked else PlannedAfter(unlocked, chosen[0])
  }

  lemma ChosenAreGated(s: Settings, b: Binding, p: Profile, assets: seq<Asset>, i: nat)
    requires i < |ChosenFor(s, b, p, assets)|
    ensures var chosen := ChosenFor(s, b, p, assets);
      Gated(SceneOf(s, b, p), assets, PlannedAt(b.unlocked, chosen, i), chosen[i])
  {
    RevealsAreGated(SceneOf(s, b, p), assets);
  }

  lemma GatedAction(s: Scene, assets: seq<Asset>, planned: seq<string>, c: Candidate)
    requires Gated(s, assets, planned, c)
    ensures IsReveal(ActionOf(c))
    ensures ActionOf(c).Unlock? <==> c.option.kind.UnlockAsset?
    ensures ActionOf(c).Unlock? ==> ExposedId(c) == c.option.asset.id == ActionOf(c).assetId && ExposedId(c) !in planned
    ensures Named(assets) ==> c.option.asset.id != ""
    ensures Named(assets) && ActionOf(c).Configure? ==>
            ActionOf(c).configurationId != "" && ActionOf(c).target != Some("")
  {
    var i :| 0 <= i < |assets| && assets[i] == c.option.asset;
    if c.option.kind.ConfigureAsset? {
      var j :| 0 <= j < |c.option.asset.variants| && c.option.asset.variants[j] == c.option.variant.value;
      assert Named(assets) ==> NamedVariant(assets[i].variants[j]);
    }
  }

  lemma {:induction false} UnlockedByMembers(actions: seq<Action>, a: string)
    ensures a in UnlockedBy(actions) <==> Unlock(a) in actions
  {
    if actions != [] {
      var n := |actions| - 1;
      UnlockedByMembers(actions[..n], a);
      assert actions == actions[..n] + [actions[n]];
    }
  }

  /** An unlock that a visit sends is of an asset the snapshot does not have unlocked. */
  lemma SentUnlocksAreNew(s: Settings, l: Loop, k: Known, assets: seq<Asset>, a: string)
    requires AttentionTo(s, l, k, assets).Reveal?
    requires a in UnlockedBy(AttentionTo(s, l, k, assets).actions)
    ensures a !in AttentionTo(s, l, k, assets).binding.unlocked
    ensures Named(assets) ==> a != ""
  {
    var att := AttentionTo(s, l, k, assets);
    UnlockedByMembers(att.actions, a);
    var i :| 0 <= i < |att.actions| && att.actions[i] == Unlock(a);
    ChosenUnlockIsNew(s, att.binding, k.profile, assets, i, a);
  }

  lemma ChosenUnlockIsNew(s: Settings, b: Binding, p: Profile, assets: seq<Asset>, i: nat, a: string)
    requires i < |ChosenFor(s, b, p, assets)| && ActionOf(ChosenFor(s, b, p, assets)[i]) == Unlock(a)
    ensures a !in b.unlocked && (Named(assets) ==> a != "")
  {
    var chosen := ChosenFor(s, b, p, assets);
    ChosenAreGated(s, b, p, assets, i);
    GatedAction(SceneOf(s, b, p), assets, PlannedAt(b.unlocked, chosen, i), chosen[i]);
  }

  /** No decision of a visit exposes the asset that another one unlocks. */
  lemma ExposedApart(s: Settings, b: Binding, p: Profile, assets: seq<Asset>)
    requires |ChosenFor(s, b, p, assets)| == 2
    ensures var chosen := ChosenFor(s, b, p, assets);
      ActionOf(chosen[0]).Unlock? || ActionOf(chosen[1]).Unlock? ==> ExposedId(chosen[0]) != ExposedId(chosen[1])
  {
    var chosen, scene := ChosenFor(s, b, p, assets), SceneOf(s, b, p);
    ChosenAreGated(s, b, p, assets, 0);
    ChosenAreGated(s, b, p, assets, 1);
    GatedAction(scene, assets, b.unlocked, chosen[0]);
    GatedAction(scene, assets, PlannedAfter(b.unlocked, chosen[0]), chosen[1]);
    NoAssetExposedTwice(scene, assets);
  }

  // ----- The rows of a visit -----

  /** The rows of the first decisions, those that were sent as unlocks. */
  function SentRows(
      k: Known, id: string, chosen: seq<Candidate>, actions: seq<Action>, shown: seq<string>, stamps: seq<int>)
    : seq<Row>
    requires |actions| <= |chosen| <= |stamps|
  {
    if actions == [] then []
    else
      var n := |actions| - 1;
      SentRows(k, id, chosen, actions[..n], shown, stamps) +
      if actions[n].Unlock? then [RowOf(k, id, chosen[n], shown, stamps[n])] else []
  }

  /** Main result on the ledger's side: a visit records exactly the unlocks it sent, in order, each
      under its own decision, although every decision of the controller is considered. */
  lemma RowsMatchSentUnlocks(s: Settings, l: Loop, k: Known, v: Visit)
    requires |v.stamps| == 2 && AttentionTo(s, l, k, v.assets).Reveal?
    ensures var a := AttentionTo(s, l, k, v.assets);
      var ids := UnlockedBy(a.actions);
      NewRows(k, a.binding.id, a.chosen, ids, v.stamps)
        == SentRows(k, a.binding.id, a.chosen, a.actions, Dedupe(ids), v.stamps)
  {
    var a := AttentionTo(s, l, k, v.assets);
    VisitDecisions(s, l, k, v.assets);
    RowsOfPrefix(k, a.binding.id, a.chosen, a.actions, v.stamps);
  }

  /** The actions are the first decisions', and no decision exposes what another one unlocks. */
  ghost predicate DecisionsFit(chosen: seq<Candidate>, actions: seq<Action>) {
    && 1 <= |chosen| <= 2 && |actions| <= |chosen|
    && (forall i :: 0 <= i < |actions| ==> actions[i] == ActionOf(chosen[i]))
    && (forall i :: 0 <= i < |chosen| && ActionOf(chosen[i]).Unlock? ==>
          ActionOf(chosen[i]).assetId == ExposedId(chosen[i]))
    && (|chosen| == 2 && (ActionOf(chosen[0]).Unlock? || ActionOf(chosen[1]).Unlock?) ==>
          ExposedId(chosen[0]) != ExposedId(chosen[1]))
  }

  lemma VisitDecisions(s: Settings, l: Loop, k: Known, assets: seq<Asset>)
    requires AttentionTo(s, l, k, assets).Reveal?
    ensures var a := AttentionTo(s, l, k, assets); DecisionsFit(a.chosen, a.actions)
  {
    var a := AttentionTo(s, l, k, assets);
    forall i | 0 <= i < |a.chosen|
      ensures ActionOf(a.chosen[i]).Unlock? ==> ActionOf(a.chosen[i]).assetId == ExposedId(a.chosen[i])
    {
      ChosenAreGated(s, a.binding, k.profile, assets, i);
      GatedAction(SceneOf(s, a.binding, k.profile), assets, PlannedAt(a.binding.unlocked, a.chosen, i), a.chosen[i]);
    }
    if |a.chosen| == 2 {
      ExposedApart(s, a.binding, k.profile, assets);
    }
  }

  lemma RowsOfPrefix(k: Known, id: string, chosen: seq<Candidate>, actions: seq<Action>, stamps: seq<int>)
    requires DecisionsFit(chosen, actions) && |stamps| == 2
    ensures var ids := UnlockedBy(actions);
      NewRows(k, id, chosen, ids, stamps) == SentRows(k, id, chosen, actions, Dedupe(ids), stamps)
  {
    var ids := UnlockedBy(actions);
    RowsOfShort(k, id, chosen, ids, stamps);
    IdsOfShort(actions);
    SentOfShort(k, id, chosen, actions, Dedupe(ids), stamps);
  }

  lemma SentOfShort(
      k: Known, id: string, chosen: seq<Candidate>, actions: seq<Action>, shown: seq<string>, stamps: seq<int>)
    requires |actions| <= |chosen| <= |stamps| == 2
    ensures SentRows(k, id, chosen, actions, shown, stamps) ==
      (if |actions| >= 1 && actions[0].Unlock? then [RowOf(k, id, chosen[0], shown, stamps[0])] else []) +
      (if |actions| == 2 && actions[1].Unlock? then [RowOf(k, id, chosen[1], shown, stamps[1])] else [])
  {
    if |actions| == 2 {
      assert SentRows(k, id, chosen, actions[..1], shown, stamps)
          == if actions[0].Unlock? then [RowOf(k, id, chosen[0], shown, stamps[0])] else [];
    }
  }

  lemma RowsOfShort(k: Known, id: string, chosen: seq<Candidate>, ids: seq<string>, stamps: seq<int>)
    requires 1 <= |chosen| <= |stamps| == 2
    ensures NewRows(k, id, chosen, ids, stamps) ==
      (if ExposedId(chosen[0]) in ids then [RowOf(k, id, chosen[0], Dedupe(ids), stamps[0])] else []) +
      (if |chosen| == 2 && ExposedId(chosen[1]) in ids then [RowOf(k, id, chosen[1], Dedupe(ids), stamps[1])] else [])
  {
    if |chosen| == 2 {
      assert NewRows(k, id, chosen[..1], ids, stamps[..1]) ==
        if ExposedId(chosen[0]) in ids then [RowOf(k, id, chosen[0], Dedupe(ids), stamps[0])] else [];
    }
  }

  lemma IdsOfShort(actions: seq<Action>)
    requires |actions| <= 2
    ensures UnlockedBy(actions) ==
      (if |actions| >= 1 && actions[0].Unlock? then [actions[0].assetId] else []) +
      (if |actions| == 2 && actions[1].Unlock? then [actions[1].assetId] else [])
  {
    if |actions| == 2 {
      assert UnlockedBy(actions[..1]) == if actions[0].Unlock? then [actions[0].assetId] else [];
    }
  }

  // ----- The invariant -----

  /** What a row shows was unlocked for its binding, and the row's asset is among it. */
  ghost predicate RowShown(bindings: seq<Binding>, r: Row) {
    && BelongsTo(bindings, r.bindingId, r.attacker)
    && r.assetId in r.shown
    && forall a :: a in r.shown ==> IsUnlocked(bindings, r.bindingId, a)
  }

  ghost predicate AllShown(bindings: seq<Binding>, rows: seq<Row>) {
    forall r :: r in rows ==> RowShown(bindings, r)
  }

  /** Rows are in the order of time. */
  ghost predicate Timely(rows: seq<Row>, clock: int) {
    && (forall i, j :: 0 <= i < j < |rows| ==> rows[i].ts <= rows[j].ts)
    && (forall i :: 0 <= i < |rows| ==> rows[i].ts <= clock)
  }

  /** Of two rows of a binding, either both were recorded for the same batch of assets or their
      batches have no asset in common. */
  ghost predicate BatchesApart(rows: seq<Row>) {
    forall i, j :: 0 <= i < j < |rows| && rows[i].bindingId == rows[j].bindingId ==> SameOrApart(rows[i], rows[j])
  }

  predicate SameOrApart(r: Row, t: Row) {
    ShownSet(r) == ShownSet(t) || ShownSet(r) !! ShownSet(t)
  }

  /** Whatever was recorded for an attacker that is still on the agenda was recorded before the
      snapshot was taken. */
  ghost predicate SnapshotIsLater(l: Loop) {
    forall r, k :: r in l.ledger.rows && k in l.agenda && r.attacker == k.attacker ==> RowShown(l.snapshot, r)
  }

  ghost predicate LedgerOk(l: Ledger, bindings: seq<Binding>, clock: int) {
    Conserved(l) && Timely(l.rows, clock) && UniqueRows(l.rows) && BatchesApart(l.rows) && AllShown(bindings, l.rows)
  }

  ghost predicate LoopInv(l: Loop) {
    && Inv(l.world)
    && Wellformed(l.snapshot) && Grows(l.snapshot, l.world.bindings)
    && LedgerOk(l.ledger, l.world.bindings, l.world.clock)
    && SnapshotIsLater(l)
    && DistinctBy(l.profiles, AttackerOf) && DistinctBy(l.agenda, AttackerOf)
  }

  lemma InitialOk()
    ensures LoopInv(INITIAL)
  {
  }

  // ----- Bindings of a visit -----

  lemma SnapshotBinding(l: Loop, attacker: string)
    requires LoopInv(l) && BindingOf(l.snapshot, attacker).Some?
    ensures var b := BindingOf(l.snapshot, attacker).value;
      && b.attacker == attacker && FindById(l.snapshot, b.id) == Some(b)
      && FindById(l.world.bindings, b.id).Some? && Extends(b, FindById(l.world.bindings, b.id).value)
  {
    var i := LatestIndex(l.snapshot, attacker);
    FindByIdUnique(l.snapshot, i);
    GrowsFind(l.snapshot, l.world.bindings, l.snapshot[i].id);
  }

  lemma SyncKeeps(s: Setting, w: World, id: string, up: set<string>, notes: seq<Note>, now: int)
    requires Inv(w) && w.clock <= now
    ensures var w' := Next(s, w, Sync(id, up, notes, now));
      Inv(w') && w'.bindings == w.bindings && w'.plane == w.plane && w'.clock == now
  {
    NextOk(s, w, Sync(id, up, notes, now));
  }

  /** A request as a whole keeps the honeynet's invariant and the growth of bindings. */
  lemma AppliedOk(s: Settings, w: World, id: string, actions: seq<Action>, v: Visit)
    requires Inv(w) && |v.envs| >= |actions|
    requires ValidRun(s.plane, w, ActEvents(id, actions, v.envs[..|actions|]))
    requires After(s.plane, w, ActEvents(id, actions, v.envs[..|actions|])).clock <= v.synced
    ensures var w' := Applied(s, w, id, actions, v);
      && Inv(w') && Grows(w.bindings, w'.bindings) && w'.clock == v.synced && w.clock <= v.synced
      && w'.bindings == After(s.plane, w, ActEvents(id, actions, v.envs[..|actions|])).bindings
  {
    var envs := v.envs[..|actions|];
    RunOk(s.plane, w, ActEvents(id, actions, envs));
    SyncKeeps(s.plane, After(s.plane, w, ActEvents(id, actions, envs)), id, v.up,
              NotesOfAll(s.plane, w, id, actions, envs), v.synced);
  }

  lemma ActUnlocks(s: Setting, w: World, id: string, assetId: string, env: Env)
    requires Inv(w) && FindById(w.bindings, id).Some? && Enabled(w, Act(id, Unlock(assetId), env)) && assetId != ""
    ensures IsUnlocked(Next(s, w, Act(id, Unlock(assetId), env)).bindings, id, assetId)
  {
    var b := FindById(w.bindings, id).value;
    TimeMayPass(w, env.now);
    ActOnOk(s, w.(clock := env.now), b, Unlock(assetId), env);
    assert assetId in [assetId];
  }

  /** An unlock that was applied holds at the end of the request. */
  lemma AppliedUnlock(s: Setting, w: World, id: string, actions: seq<Action>, envs: seq<Env>, i: nat)
    requires Inv(w) && FindById(w.bindings, id).Some? && |envs| == |actions| && i < |actions|
    requires ValidRun(s, w, ActEvents(id, actions, envs))
    requires actions[i].Unlock? && actions[i].assetId != ""
    ensures IsUnlocked(After(s, w, ActEvents(id, actions, envs)).bindings, id, actions[i].assetId)
  {
    BeforeAction(s, w, id, actions, envs, i);
    AfterAction(s, w, id, actions, envs, i);
    var before := After(s, w, ActEvents(id, actions[..i], envs[..i]));
    var after := Next(s, before, Act(id, actions[i], envs[i]));
    ActUnlocks(s, before, id, actions[i].assetId, envs[i]);
    GrowsKeepsFacts(after.bindings, After(s, w, ActEvents(id, actions, envs)).bindings, id);
  }

  // ----- Steps keep it -----

  lemma ShownStays(before: seq<Binding>, after: seq<Binding>, r: Row)
    requires Wellformed(before) && Wellformed(after) && Grows(before, after) && RowShown(before, r)
    ensures RowShown(after, r)
  {
    GrowsKeepsFacts(before, after, r.bindingId);
  }

  /** The honeynet may change in any way it does. */
  lemma WorldMayGrow(l: Loop, w: World)
    requires LoopInv(l) && Inv(w) && Grows(l.world.bindings, w.bindings) && l.world.clock <= w.clock
    ensures LoopInv(l.(world := w))
  {
    GrowsTransitive(l.snapshot, l.world.bindings, w.bindings);
    forall r | r in l.ledger.rows ensures RowShown(w.bindings, r) {
      ShownStays(l.world.bindings, w.bindings, r);
    }
  }

  lemma SettledRows(before: Ledger, after: Ledger, bindings: seq<Binding>, clock: int)
    requires LedgerOk(before, bindings, clock) && Conserved(after)
    requires RowsSettle(before.rows, after.rows)
    ensures LedgerOk(after, bindings, clock)
  {
    forall i, j | 0 <= i < j < |after.rows| && after.rows[i].bindingId == after.rows[j].bindingId
      ensures SameOrApart(after.rows[i], after.rows[j])
    {
      assert RowSettles(before.rows[i], after.rows[i]) && RowSettles(before.rows[j], after.rows[j]);
      assert SameOrApart(before.rows[i], before.rows[j]);
    }
    forall i | 0 <= i < |after.rows| ensures RowShown(bindings, after.rows[i]) {
      assert RowSettles(before.rows[i], after.rows[i]);
      assert before.rows[i] in before.rows;
    }
    forall i, j | 0 <= i < j < |after.rows| ensures
      && after.rows[i].ts <= after.rows[j].ts
      && !(after.rows[i].bindingId == after.rows[j].bindingId && after.rows[i].assetId == after.rows[j].assetId)
    {
      assert RowSettles(before.rows[i], after.rows[i]) && RowSettles(before.rows[j], after.rows[j]);
    }
    forall i | 0 <= i < |after.rows| ensures after.rows[i].ts <= clock {
      assert RowSettles(before.rows[i], after.rows[i]);
    }
  }

  lemma BeginOk(s: Settings, l: Loop, step: Step)
    requires LoopInv(l) && step.Begin? && Possible(s, l, step)
    ensures LoopInv(NextLoop(s, l, step))
  {
    var l' := NextLoop(s, l, step);
    var o := Observation(step.evidence, step.touches, step.now, s.window);
    TimeMayPass(l.world, step.now);
    UpdateConserves(l.ledger, |l.ledger.rows|, o);
    UpdateAdvances(l.ledger, o);
    assert Update(l.ledger, o).rows[..|l.ledger.rows|] == Update(l.ledger, o).rows;
    SettledRows(l.ledger, Update(l.ledger, o), l.world.bindings, l.world.clock);
  }

  // ----- A visit that reveals -----

  /** What the new rows of a visit are like. */
  ghost predicate RowsOfVisit(rows: seq<Row>, k: Known, id: string, ids: seq<string>, stamps: seq<int>)
    requires |stamps| == 2
  {
    && (forall i :: 0 <= i < |rows| ==>
          && rows[i].attacker == k.attacker && rows[i].bindingId == id && rows[i].status.Pending?
          && rows[i].shown == Dedupe(ids) && rows[i].assetId in ids
          && stamps[0] <= rows[i].ts <= stamps[1])
    && (forall i, j :: 0 <= i < j < |rows| ==> rows[i].ts <= rows[j].ts && rows[i].assetId != rows[j].assetId)
  }

  lemma FittingRows(k: Known, id: string, chosen: seq<Candidate>, actions: seq<Action>, stamps: seq<int>)
    requires DecisionsFit(chosen, actions) && |stamps| == 2 && stamps[0] <= stamps[1]
    ensures RowsOfVisit(NewRows(k, id, chosen, UnlockedBy(actions), stamps), k, id, UnlockedBy(actions), stamps)
  {
    var shown := Dedupe(UnlockedBy(actions));
    RowsOfPrefix(k, id, chosen, actions, stamps);
    SentRowsFacts(k, id, chosen, actions, shown, stamps);
    SentRowsOrder(k, id, chosen, actions, shown, stamps);
  }

  lemma {:induction false} SentRowsFacts(
      k: Known, id: string, chosen: seq<Candidate>, actions: seq<Action>, shown: seq<string>, stamps: seq<int>)
    requires |actions| <= |chosen| <= |stamps| == 2 && stamps[0] <= stamps[1]
    requires forall i :: 0 <= i < |actions| && actions[i].Unlock? ==> actions[i].assetId == ExposedId(chosen[i])
    ensures forall r :: r in SentRows(k, id, chosen, actions, shown, stamps) ==>
      && r.attacker == k.attacker && r.bindingId == id && r.status.Pending? && r.shown == shown
      && r.assetId in UnlockedBy(actions) && stamps[0] <= r.ts <= stamps[1]
  {
    if actions != [] {
      SentRowsFacts(k, id, chosen, actions[..|actions| - 1], shown, stamps);
    }
  }

  lemma SentRowsOrder(
      k: Known, id: string, chosen: seq<Candidate>, actions: seq<Action>, shown: seq<string>, stamps: seq<int>)
    requires DecisionsFit(chosen, actions) && |stamps| == 2 && stamps[0] <= stamps[1]
    ensures var rows := SentRows(k, id, chosen, actions, shown, stamps);
      forall i, j :: 0 <= i < j < |rows| ==> rows[i].ts <= rows[j].ts && rows[i].assetId != rows[j].assetId
  {
    SentOfShort(k, id, chosen, actions, shown, stamps);
    var rows := SentRows(k, id, chosen, actions, shown, stamps);
    if |rows| == 2 {
      assert actions[0] == ActionOf(chosen[0]);
      assert rows == [RowOf(k, id, chosen[0], shown, stamps[0]), RowOf(k, id, chosen[1], shown, stamps[1])];
    }
  }

  lemma VisitRows(s: Settings, l: Loop, k: Known, v: Visit)
    requires |v.stamps| == 2 && v.stamps[0] <= v.stamps[1] && AttentionTo(s, l, k, v.assets).Reveal?
    ensures var a := AttentionTo(s, l, k, v.assets);
      RowsOfVisit(NewRows(k, a.binding.id, a.chosen, UnlockedBy(a.actions), v.stamps), k, a.binding.id,
                  UnlockedBy(a.actions), v.stamps)
  {
    var a := AttentionTo(s, l, k, v.assets);
    VisitDecisions(s, l, k, v.assets);
    FittingRows(k, a.binding.id, a.chosen, a.actions, v.stamps);
  }

  /** The assets of the visit were not unlocked in the snapshot and are at its end. */
  ghost predicate NewlyUnlocked(w: World, b: Binding, ids: seq<string>) {
    forall a :: a in ids ==> a !in b.unlocked && IsUnlocked(w.bindings, b.id, a)
  }

  lemma {:induction false} RecordAllRows(l: Ledger, rows: seq<Row>)
    ensures RecordAll(l, rows).rows == l.rows + rows
    ensures Conserved(l) && (forall i :: 0 <= i < |rows| ==> rows[i].status.Pending?) ==> Conserved(RecordAll(l, rows))
  {
    if rows == [] {
      assert l.rows + rows == l.rows;
    } else {
      var n := |rows| - 1;
      RecordAllRows(l, rows[..n]);
      assert rows == rows[..n] + [rows[n]];
      if Conserved(RecordAll(l, rows[..n])) && rows[n].status.Pending? {
        RecordConserves(RecordAll(l, rows[..n]), rows[n]);
      }
    }
  }

  /** Old rows of the binding are about assets that the snapshot has unlocked. */
  lemma OldRowsAreApart(l: Loop, k: Known, b: Binding, r: Row, ids: seq<string>)
    requires LoopInv(l) && k in l.agenda && BindingOf(l.snapshot, k.attacker) == Some(b)
    requires r in l.ledger.rows && r.bindingId == b.id
    requires forall a :: a in ids ==> a !in b.unlocked
    ensures r.attacker == k.attacker && r.shown != [] && r.assetId !in ids && forall a :: a in r.shown ==> a !in ids
  {
    SnapshotBinding(l, k.attacker);
    assert RowShown(l.world.bindings, r);
    assert RowShown(l.snapshot, r);
    assert IsUnlocked(l.snapshot, r.bindingId, r.assetId);
    forall a | a in r.shown ensures a !in ids {
      assert IsUnlocked(l.snapshot, r.bindingId, a);
    }
  }

  /** The ledger after a visit. */
  lemma VisitLedgerOk(l: Loop, k: Known, b: Binding, w: World, ids: seq<string>, rows: seq<Row>, stamps: seq<int>)
    requires LoopInv(l) && k in l.agenda && BindingOf(l.snapshot, k.attacker) == Some(b) && Inv(w)
    requires Grows(l.world.bindings, w.bindings) && |stamps| == 2 && l.world.clock <= stamps[0] <= stamps[1] == w.clock
    requires RowsOfVisit(rows, k, b.id, ids, stamps) && NewlyUnlocked(w, b, ids)
    ensures LedgerOk(RecordAll(l.ledger, rows), w.bindings, w.clock)
  {
    RecordAllRows(l.ledger, rows);
    VisitRowsApart(l, k, b, w, ids, rows, stamps);
    VisitRowsTimely(l.ledger.rows, rows, k, b.id, ids, stamps, l.world.clock);
    NewRowsShown(l, k, b, w, ids, rows, stamps);
    OldRowsShown(l, w);
    assert forall i :: 0 <= i < |rows| ==> rows[i].status.Pending?;
    LedgerOfParts(RecordAll(l.ledger, rows), l.ledger.rows, rows, w.bindings, w.clock);
  }

  lemma LedgerOfParts(l: Ledger, before: seq<Row>, rows: seq<Row>, bindings: seq<Binding>, clock: int)
    requires Conserved(l) && l.rows == before + rows && Timely(before + rows, clock)
    requires UniqueRows(before + rows) && BatchesApart(before + rows) && AllShown(bindings, before)
             && AllShown(bindings, rows)
    ensures LedgerOk(l, bindings, clock)
  {
  }

  lemma OldRowsShown(l: Loop, w: World)
    requires LoopInv(l) && Inv(w) && Grows(l.world.bindings, w.bindings)
    ensures AllShown(w.bindings, l.ledger.rows)
  {
    forall r | r in l.ledger.rows ensures RowShown(w.bindings, r) {
      ShownStays(l.world.bindings, w.bindings, r);
    }
  }

  lemma VisitRowsTimely(
      before: seq<Row>, rows: seq<Row>, k: Known, id: string, ids: seq<string>, stamps: seq<int>, clock: int)
    requires Timely(before, clock) && |stamps| == 2 && clock <= stamps[0] && RowsOfVisit(rows, k, id, ids, stamps)
    requires stamps[0] <= stamps[1]
    ensures Timely(before + rows, stamps[1])
  {
  }

  lemma VisitRowsApart(l: Loop, k: Known, b: Binding, w: World, ids: seq<string>, rows: seq<Row>, stamps: seq<int>)
    requires LoopInv(l) && k in l.agenda && BindingOf(l.snapshot, k.attacker) == Some(b)
    requires |stamps| == 2 && RowsOfVisit(rows, k, b.id, ids, stamps) && NewlyUnlocked(w, b, ids)
    ensures UniqueRows(l.ledger.rows + rows) && BatchesApart(l.ledger.rows + rows)
  {
    var before := l.ledger.rows;
    forall i | 0 <= i < |before| && before[i].bindingId == b.id
      ensures before[i].assetId !in ids && before[i].shown != [] && forall a :: a in before[i].shown ==> a !in ids
    {
      OldRowsAreApart(l, k, b, before[i], ids);
    }
    RowsApart(before, rows, k, b.id, ids, stamps);
  }

  lemma RowsApart(before: seq<Row>, rows: seq<Row>, k: Known, id: string, ids: seq<string>, stamps: seq<int>)
    requires |stamps| == 2 && UniqueRows(before) && BatchesApart(before) && RowsOfVisit(rows, k, id, ids, stamps)
    requires forall i :: 0 <= i < |before| && before[i].bindingId == id ==>
               before[i].assetId !in ids && before[i].shown != [] && forall a :: a in before[i].shown ==> a !in ids
    ensures UniqueRows(before + rows) && BatchesApart(before + rows)
  {
    var after, n := before + rows, |before|;
    forall i, j | 0 <= i < j < |after| && after[i].bindingId == after[j].bindingId
      ensures SameOrApart(after[i], after[j])
    {
      if j < n {
        assert SameOrApart(before[i], before[j]);
      } else if i < n {
        assert after[i] == before[i] && after[j] == rows[j - n];
        assert forall a :: a in ShownSet(after[j]) ==> a in ids;
        assert forall a :: a in ShownSet(after[i]) ==> a !in ids;
      } else {
        assert after[i] == rows[i - n] && after[j] == rows[j - n];
      }
    }
    forall i, j | 0 <= i < j < |after|
      ensures !(after[i].bindingId == after[j].bindingId && after[i].assetId == after[j].assetId)
    {
      if j < n {
        assert before[i] == after[i] && before[j] == after[j];
      } else if i < n {
        assert before[i] == after[i] && after[j] == rows[j - n];
      } else {
        assert after[i] == rows[i - n] && after[j] == rows[j - n];
      }
    }
  }

  lemma NewRowsShown(l: Loop, k: Known, b: Binding, w: World, ids: seq<string>, rows: seq<Row>, stamps: seq<int>)
    requires LoopInv(l) && BindingOf(l.snapshot, k.attacker) == Some(b) && Inv(w) && Grows(l.world.bindings, w.bindings)
    requires |stamps| == 2 && RowsOfVisit(rows, k, b.id, ids, stamps) && NewlyUnlocked(w, b, ids)
    ensures AllShown(w.bindings, rows)
  {
    SnapshotBinding(l, k.attacker);
    GrowsFind(l.world.bindings, w.bindings, b.id);
    forall r | r in rows ensures RowShown(w.bindings, r) {
      var i :| 0 <= i < |rows| && rows[i] == r;
    }
  }

  /** The visit sends these actions to the binding. */
  ghost predicate Sends(
      s: Settings, l: Loop, k: Known, v: Visit, b: Binding, chosen: seq<Candidate>, actions: seq<Action>) {
    PossibleVisit(s, l, k, v) && AttentionTo(s, l, k, v.assets) == Reveal(b, chosen, actions)
  }

  /** The request can be applied in the given state. */
  ghost predicate Fits(s: Settings, w: World, id: string, actions: seq<Action>, v: Visit) {
    && |v.envs| == |v.stamps| == 2 && |actions| <= 2
    && ValidRun(s.plane, w, ActEvents(id, actions, v.envs[..|actions|]))
    && After(s.plane, w, ActEvents(id, actions, v.envs[..|actions|])).clock <= v.synced <= v.stamps[0] <= v.stamps[1]
  }

  lemma SendsParts(s: Settings, l: Loop, k: Known, v: Visit, b: Binding, chosen: seq<Candidate>, actions: seq<Action>)
    requires Sends(s, l, k, v, b, chosen, actions)
    ensures BindingOf(l.snapshot, k.attacker) == Some(b) && chosen == ChosenFor(s, b, k.profile, v.assets)
    ensures 1 <= |chosen| <= 2 && |actions| <= |chosen|
    ensures forall i :: 0 <= i < |actions| ==> actions[i] == ActionOf(chosen[i])
  {
  }

  lemma SendsFits(s: Settings, l: Loop, k: Known, v: Visit, b: Binding, chosen: seq<Candidate>, actions: seq<Action>)
    requires Sends(s, l, k, v, b, chosen, actions)
    ensures Fits(s, l.world, b.id, actions, v) && Named(v.assets)
  {
    var a := AttentionTo(s, l, k, v.assets);
    assert a.binding == b && a.actions == actions;
  }

  lemma SendsEffect(s: Settings, l: Loop, k: Known, v: Visit, b: Binding, chosen: seq<Candidate>, actions: seq<Action>)
    requires Sends(s, l, k, v, b, chosen, actions)
    ensures |v.envs| == |v.stamps| == 2 && 1 <= |chosen| <= 2 && |actions| <= |chosen|
    ensures Attended(s, l, k, v) == Revealed(s, l, k, v, b, chosen, actions)
  {
    SendsParts(s, l, k, v, b, chosen, actions);
    RevealEffect(s, l, k, v, b, chosen, actions);
  }

  lemma RevealEffect(s: Settings, l: Loop, k: Known, v: Visit, b: Binding, chosen: seq<Candidate>, actions: seq<Action>)
    requires |v.envs| == |v.stamps| == 2 && |actions| <= |chosen| <= 2
    requires AttentionTo(s, l, k, v.assets) == Reveal(b, chosen, actions)
    ensures Attended(s, l, k, v) == Revealed(s, l, k, v, b, chosen, actions)
  {
  }

  lemma FitsOk(s: Settings, w: World, id: string, actions: seq<Action>, v: Visit)
    requires Inv(w) && Fits(s, w, id, actions, v)
    ensures var w' := Applied(s, w, id, actions, v).(clock := v.stamps[1]);
      && Inv(w') && Grows(w.bindings, w'.bindings) && w.clock <= v.stamps[0]
      && w'.bindings == After(s.plane, w, ActEvents(id, actions, v.envs[..|actions|])).bindings
  {
    AppliedOk(s, w, id, actions, v);
    TimeMayPass(Applied(s, w, id, actions, v), v.stamps[1]);
  }

  lemma UnlocksHold(s: Settings, w: World, b: Binding, actions: seq<Action>, v: Visit)
    requires Inv(w) && Fits(s, w, b.id, actions, v) && FindById(w.bindings, b.id).Some?
    requires forall a :: a in UnlockedBy(actions) ==> a !in b.unlocked && a != ""
    ensures NewlyUnlocked(Applied(s, w, b.id, actions, v).(clock := v.stamps[1]), b, UnlockedBy(actions))
  {
    FitsOk(s, w, b.id, actions, v);
    forall a | a in UnlockedBy(actions)
      ensures IsUnlocked(After(s.plane, w, ActEvents(b.id, actions, v.envs[..|actions|])).bindings, b.id, a)
    {
      UnlockedByMembers(actions, a);
      var i :| 0 <= i < |actions| && actions[i] == Unlock(a);
      AppliedUnlock(s.plane, w, b.id, actions, v.envs[..|actions|], i);
    }
  }

  lemma VisitWorldOk(s: Settings, l: Loop, k: Known, v: Visit, b: Binding, chosen: seq<Candidate>, actions: seq<Action>)
    requires LoopInv(l) && Sends(s, l, k, v, b, chosen, actions)
    ensures var w := Applied(s, l.world, b.id, actions, v).(clock := v.stamps[1]);
      && Inv(w) && Grows(l.world.bindings, w.bindings) && l.world.clock <= v.stamps[0] <= v.stamps[1] == w.clock
      && NewlyUnlocked(w, b, UnlockedBy(actions))
  {
    SendsParts(s, l, k, v, b, chosen, actions);
    SendsFits(s, l, k, v, b, chosen, actions);
    FitsOk(s, l.world, b.id, actions, v);
    SnapshotBinding(l, k.attacker);
    forall a | a in UnlockedBy(actions) ensures a !in b.unlocked && a != "" {
      SentUnlocksAreNew(s, l, k, v.assets, a);
    }
    UnlocksHold(s, l.world, b, actions, v);
  }

  lemma VisitOk(s: Settings, l: Loop, k: Known, v: Visit, b: Binding, chosen: seq<Candidate>, actions: seq<Action>)
    requires LoopInv(l) && k in l.agenda && Sends(s, l, k, v, b, chosen, actions)
    ensures var w := Applied(s, l.world, b.id, actions, v).(clock := v.stamps[1]);
      && LedgerOk(RecordAll(l.ledger, NewRows(k, b.id, chosen, UnlockedBy(actions), v.stamps)), w.bindings, w.clock)
      && LedgerOk(l.ledger, w.bindings, w.clock)
  {
    SendsParts(s, l, k, v, b, chosen, actions);
    SendsFits(s, l, k, v, b, chosen, actions);
    VisitWorldOk(s, l, k, v, b, chosen, actions);
    VisitRows(s, l, k, v);
    var w := Applied(s, l.world, b.id, actions, v).(clock := v.stamps[1]);
    VisitLedgerOk(l, k, b, w, UnlockedBy(actions), NewRows(k, b.id, chosen, UnlockedBy(actions), v.stamps), v.stamps);
    OldRowsShown(l, w);
  }

  /** New rows are of the visited attacker, which is off the agenda then. */
  lemma OthersKeepSnapshotLater(l: Loop, rows: seq<Row>, r: Row, other: Known)
    requires LoopInv(l) && l.agenda != [] && forall t :: t in rows ==> t.attacker == l.agenda[0].attacker
    requires r in l.ledger.rows + rows && other in l.agenda[1..] && r.attacker == other.attacker
    ensures RowShown(l.snapshot, r)
  {
    var j :| 0 <= j < |l.agenda[1..]| && l.agenda[1..][j] == other;
    assert AttackerOf(l.agenda[0]) != AttackerOf(l.agenda[j + 1]);
    assert r in l.ledger.rows && other in l.agenda;
  }

  lemma VisitKeepsSnapshotLater(l: Loop, rows: seq<Row>)
    requires LoopInv(l) && l.agenda != [] && forall t :: t in rows ==> t.attacker == l.agenda[0].attacker
    ensures forall r, k :: r in l.ledger.rows + rows && k in l.agenda[1..] && r.attacker == k.attacker ==>
              RowShown(l.snapshot, r)
  {
    forall r, k | r in l.ledger.rows + rows && k in l.agenda[1..] && r.attacker == k.attacker
      ensures RowShown(l.snapshot, r)
    {
      OthersKeepSnapshotLater(l, rows, r, k);
    }
  }

  lemma RevealingOk(s: Settings, l: Loop, v: Visit, b: Binding, chosen: seq<Candidate>, actions: seq<Action>)
    requires LoopInv(l) && l.agenda != [] && Sends(s, l, l.agenda[0], v, b, chosen, actions)
    ensures LoopInv(Attended(s, l, l.agenda[0], v).(agenda := l.agenda[1..]))
    ensures Grows(l.world.bindings, Attended(s, l, l.agenda[0], v).world.bindings)
  {
    SendsEffect(s, l, l.agenda[0], v, b, chosen, actions);
    VisitWorldOk(s, l, l.agenda[0], v, b, chosen, actions);
    var l' := Attended(s, l, l.agenda[0], v).(agenda := l.agenda[1..]);
    var rows := if s.keepsFeedback then NewRows(l.agenda[0], b.id, chosen, UnlockedBy(actions), v.stamps) else [];
    RevealedRows(s, l, v, b, chosen, actions, rows, l'.world);
    LoopOfParts(l, l', rows);
  }

  lemma RevealedRows(
      s: Settings, l: Loop, v: Visit, b: Binding, chosen: seq<Candidate>, actions: seq<Action>, rows: seq<Row>,
      w: World)
    requires LoopInv(l) && l.agenda != [] && Sends(s, l, l.agenda[0], v, b, chosen, actions)
    requires |v.stamps| == 2 >= |chosen| && |v.envs| >= |actions|
    requires w == Applied(s, l.world, b.id, actions, v).(clock := v.stamps[1])
    requires rows == if s.keepsFeedback then NewRows(l.agenda[0], b.id, chosen, UnlockedBy(actions), v.stamps) else []
    ensures LedgerOk(RecordAll(l.ledger, rows), w.bindings, w.clock)
            && RecordAll(l.ledger, rows).rows == l.ledger.rows + rows
    ensures forall r, k :: r in l.ledger.rows + rows && k in l.agenda[1..] && r.attacker == k.attacker ==>
              RowShown(l.snapshot, r)
  {
    VisitOk(s, l, l.agenda[0], v, b, chosen, actions);
    RecordAllRows(l.ledger, rows);
    SendsParts(s, l, l.agenda[0], v, b, chosen, actions);
    SendsFits(s, l, l.agenda[0], v, b, chosen, actions);
    VisitRows(s, l, l.agenda[0], v);
    VisitKeepsSnapshotLater(l, rows);
  }

  lemma LoopOfParts(l: Loop, l': Loop, rows: seq<Row>)
    requires LoopInv(l) && l.agenda != [] && l'.agenda == l.agenda[1..] && l'.snapshot == l.snapshot
             && l'.profiles == l.profiles
    requires Inv(l'.world) && Grows(l.world.bindings, l'.world.bindings)
    requires LedgerOk(l'.ledger, l'.world.bindings, l'.world.clock) && l'.ledger.rows == l.ledger.rows + rows
    requires forall r, k :: r in l.ledger.rows + rows && k in l.agenda[1..] && r.attacker == k.attacker ==>
               RowShown(l.snapshot, r)
    ensures LoopInv(l')
  {
    GrowsTransitive(l.snapshot, l.world.bindings, l'.world.bindings);
  }

  lemma AttendOk(s: Settings, l: Loop, v: Visit)
    requires LoopInv(l) && l.agenda != [] && PossibleVisit(s, l, l.agenda[0], v)
    ensures LoopInv(Attended(s, l, l.agenda[0], v).(agenda := l.agenda[1..]))
    ensures Grows(l.world.bindings, Attended(s, l, l.agenda[0], v).world.bindings)
  {
    match AttentionTo(s, l, l.agenda[0], v.assets)
    case Reveal(b, chosen, actions) => RevealingOk(s, l, v, b, chosen, actions);
    case _ =>
      PassingEffect(s, l, l.agenda[0], v);
      PassingOk(l, Attended(s, l, l.agenda[0], v).processed);
  }

  /** What a visit that sends nothing changes. */
  lemma MarkingEffect(s: Settings, l: Loop, k: Known, v: Visit)
    requires PossibleVisit(s, l, k, v) && !AttentionTo(s, l, k, v.assets).Reveal?
    ensures var a := AttentionTo(s, l, k, v.assets);
      Attended(s, l, k, v) == if a.Waiting? || a.Quiet? then Marked(l, k) else l
  {
  }

  lemma PassingEffect(s: Settings, l: Loop, k: Known, v: Visit)
    requires PossibleVisit(s, l, k, v) && !AttentionTo(s, l, k, v.assets).Reveal?
    ensures Attended(s, l, k, v) == l.(processed := Attended(s, l, k, v).processed)
  {
  }

  /** Looking at a profile without revealing anything. */
  lemma PassingOk(l: Loop, processed: map<string, seq<string>>)
    requires LoopInv(l) && l.agenda != []
    ensures LoopInv(l.(processed := processed, agenda := l.agenda[1..]))
  {
    assert l.ledger.rows + [] == l.ledger.rows;
    VisitKeepsSnapshotLater(l, []);
    LoopOfParts(l, l.(processed := processed, agenda := l.agenda[1..]), []);
  }

  lemma NextLoopOk(s: Settings, l: Loop, step: Step)
    requires LoopInv(l) && Possible(s, l, step)
    ensures LoopInv(NextLoop(s, l, step))
  {
    match step
    case Begin(_, _, _) => BeginOk(s, l, step);
    case Attend(v) => AttendOk(s, l, v);
    case Outside(e) =>
      NextOk(s.plane, l.world, e);
      WorldMayGrow(l, Next(s.plane, l.world, e));
    case Profiled(k) => UpsertKeepsUnique(l.profiles, AttackerOf, k);
  }

  lemma {:induction false} LoopOk(s: Settings, l: Loop, steps: seq<Step>)
    requires LoopInv(l) && ValidSteps(s, l, steps)
    ensures LoopInv(LoopAfter(s, l, steps))
    decreases |steps|
  {
    if steps != [] {
      var n := |steps| - 1;
      LoopOk(s, l, steps[..n]);
      NextLoopOk(s, LoopAfter(s, l, steps[..n]), steps[n]);
    }
  }
}
