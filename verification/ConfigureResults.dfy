/** Where a revealed configuration ends up: on the backend of its asset, except for one combination of
    circumstances in which the backend never learns of it. */
module ConfigureResults {
  import opened Wrappers
  import opened Iterables
  import opened Bindings
  import opened Runtime
  import opened ControlPlane
  import opened StartResults
  import opened BindingResults

  /** Every backend of the asset that runs has the configuration. */
  ghost predicate AllHave(records: seq<Record>, bindingId: string, assetId: string, c: string) {
    forall r :: r in records && r.bindingId == bindingId && r.assetId == assetId && r.status == Running ==>
      c in r.configurations
  }

  /** None of them has any configuration. */
  ghost predicate NoneHasAny(records: seq<Record>, bindingId: string, assetId: string) {
    forall r :: r in records && r.bindingId == bindingId && r.assetId == assetId && r.status == Running ==>
      r.configurations == []
  }

  lemma AttachedToRunning(w: World, id: string, a: string, c: string)
    requires RecordsOk(w.plane.records)
    ensures AllHave(ConfigureIn(w, id, a, c).plane.records, id, a, c)
    ensures NothingRuns(w.plane.records, id, a) ==> ConfigureIn(w, id, a, c) == w
  {
    var records := w.plane.records;
    var existing := ExistingRunning(records, id, a);
    NothingIsFound(records, id, a);
    if existing.Some? {
      SaveExisting(records, existing.value, Configured(existing.value, c));
      assert c in [c];
      OnlyOneRuns(records, existing.value);
    }
  }

  /** Starting another asset leaves the configurations of this one alone. */
  lemma OtherStartKeeps(
      d: Deployment, p: Plane, id: string, bindingId: string, t: Template, attacker: string,
      override: Option<RuntimeSpec>, outcome: StartOutcome, now: int, a: string, c: string)
    requires RecordsOk(p.records) && !HasKey(p.records, RuntimeIdOf, id)
    requires AllHave(p.records, bindingId, a, c) && t.id != a
    ensures AllHave(StartAsset(d, p, id, bindingId, t, attacker, false, override, outcome, now).plane.records,
                    bindingId, a, c)
  {
    StartAssetOk(d, p, id, bindingId, t, attacker, false, override, outcome, now);
    var s := StartAsset(d, p, id, bindingId, t, attacker, false, override, outcome, now);
    forall r | r in s.plane.records && r.bindingId == bindingId && r.assetId == a && r.status == Running
      ensures c in r.configurations
    {
      var i :| 0 <= i < |s.plane.records| && s.plane.records[i] == r;
      assert i < |p.records| && s.plane.records[i] == p.records[i];
    }
  }

  /** Starting the asset itself, without a replacement, keeps what is attached to a running backend. */
  lemma OwnStartKeeps(
      d: Deployment, p: Plane, id: string, bindingId: string, t: Template, attacker: string,
      outcome: StartOutcome, now: int, c: string)
    requires RecordsOk(p.records) && !HasKey(p.records, RuntimeIdOf, id)
    requires AllHave(p.records, bindingId, t.id, c)
    ensures var after := StartAsset(d, p, id, bindingId, t, attacker, false, None, outcome, now).plane.records;
      if NothingRuns(p.records, bindingId, t.id) then NoneHasAny(after, bindingId, t.id)
      else AllHave(after, bindingId, t.id, c)
  {
    if NothingRuns(p.records, bindingId, t.id) {
      forall r | r in p.records ensures r.runtimeId != id {
        assert RuntimeIdOf(r) == r.runtimeId;
      }
      NewBackend(d, p, id, bindingId, t, attacker, false, None, outcome, now);
      OthersStay(d, p, id, bindingId, t, attacker, false, None, outcome, now);
    } else {
      var r :| r in p.records && r.bindingId == bindingId && r.assetId == t.id && r.status == Running;
      RunningBackend(d, p, id, bindingId, t, attacker, false, outcome, now, r);
    }
  }

  /** The target is started in the state that the configuration left. */
  lemma TargetStarts(
      s: Setting, w: World, b: Binding, target: Option<string>, env: Env, a: string, c: string)
    requires RecordsOk(w.plane.records) && !HasKey(w.plane.records, RuntimeIdOf, env.runtimeId)
    requires AllHave(w.plane.records, b.id, a, c) && a != ""
    requires target == Some(a) ==> exists t :: t in s.catalogue && t.id == a
    ensures var after := TargetIn(s, w, b, target, None, env).plane.records;
      if target == Some(a) && NothingRuns(w.plane.records, b.id, a) then NoneHasAny(after, b.id, a)
      else AllHave(after, b.id, a, c)
  {
    if target.Some? && target.value != "" {
      var found := FindTemplate(s.catalogue, target.value);
      if found.Some? {
        if target.value == a {
          OwnStartKeeps(s.deployment, w.plane, env.runtimeId, b.id, found.value, b.attacker, env.outcome, env.now, c);
        } else {
          OtherStartKeeps(s.deployment, w.plane, env.runtimeId, b.id, found.value, b.attacker, None, env.outcome,
                          env.now, a, c);
        }
      } else if target.value == a {
        NoneListed(s.catalogue, a);
        assert false;
      }
    }
  }

  lemma {:induction false} NoneListed(catalogue: seq<Template>, a: string)
    requires FindTemplate(catalogue, a).None?
    ensures forall t :: t in catalogue ==> t.id != a
  {
    if catalogue != [] {
      NoneListed(catalogue[1..], a);
      assert catalogue == [catalogue[0]] + catalogue[1..];
    }
  }

  /** Main result: whatever runs of the asset after its configuration was revealed carries the
      configuration, unless the configuration starts its own asset without bringing a runtime: then
      the backend it starts carries none. */
  lemma ConfigurationIsAttached(
      s: Setting, w: World, i: nat, a: string, c: string, target: Option<string>, runtime: Option<RuntimeSpec>,
      env: Env)
    requires Inv(w) && i < |w.bindings| && w.clock <= env.now && a != "" && c != ""
    requires forall r :: r in w.plane.records ==> r.runtimeId != env.runtimeId
    requires target == Some(a) ==> exists t :: t in s.catalogue && t.id == a
    ensures var id := w.bindings[i].id;
      var after := Next(s, w, Act(id, Configure(a, c, target, runtime), env)).plane.records;
      if runtime.None? && target == Some(a) && NothingRuns(w.plane.records, id, a) then NoneHasAny(after, id, a)
      else AllHave(after, id, a, c)
  {
    var b, w0 := w.bindings[i], w.(clock := env.now);
    ActionHappens(s, w, i, Configure(a, c, target, runtime), env);
    RevealInOk(w0, b, a, c, runtime.Some?, env);
    var b1, w1 := WithRevealed(b, a, [c], env.now), RevealIn(w0, b, a, c, runtime.Some?, env);
    if runtime.Some? {
      TargetInOk(s, w1, b1, target, runtime, env);
      AttachedToRunning(TargetIn(s, w1, b1, target, runtime, env), b.id, a, c);
    } else {
      AttachedToRunning(SaveBinding(w0, b1), b.id, a, c);
      RunsAsBefore(SaveBinding(w0, b1), b.id, a, c);
      TargetStarts(s, w1, b1, target, env, a, c);
    }
  }

  lemma RunsAsBefore(w: World, id: string, a: string, c: string)
    requires RecordsOk(w.plane.records)
    ensures NothingRuns(ConfigureIn(w, id, a, c).plane.records, id, a) <==> NothingRuns(w.plane.records, id, a)
  {
    var existing := ExistingRunning(w.plane.records, id, a);
    NothingIsFound(w.plane.records, id, a);
    if existing.Some? {
      SaveExisting(w.plane.records, existing.value, Configured(existing.value, c));
      var i :| 0 <= i < |w.plane.records| && w.plane.records[i] == existing.value;
      assert ConfigureIn(w, id, a, c).plane.records[i] == Configured(existing.value, c);
    }
  }

  /** The configuration is put behind those a running backend has, once, and nothing else changes in the
      records, when the configuration brings no runtime and shows nothing else. */
  lemma ConfigurationIsAdded(
      s: Setting, w: World, i: nat, a: string, c: string, env: Env, k: nat)
    requires Inv(w) && i < |w.bindings| && w.clock <= env.now && a != "" && c != ""
    requires forall r :: r in w.plane.records ==> r.runtimeId != env.runtimeId
    requires k < |w.plane.records|
    ensures var id, before := w.bindings[i].id, w.plane.records[k];
      var after := Next(s, w, Act(id, Configure(a, c, None, None), env)).plane.records;
      && |after| == |w.plane.records|
      && after[k] == before.(configurations := after[k].configurations)
      && (if before.bindingId == id && before.assetId == a && before.status == Running
          then Adds(before.configurations, c, after[k].configurations)
          else after[k].configurations == before.configurations)
  {
    var b, w0 := w.bindings[i], w.(clock := env.now);
    ActionHappens(s, w, i, Configure(a, c, None, None), env);
    var b1 := WithRevealed(b, a, [c], env.now);
    AttachedInPlace(SaveBinding(w0, b1), b.id, a, c, k);
    assert Next(s, w, Act(b.id, Configure(a, c, None, None), env)).plane
        == ConfigureIn(SaveBinding(w0, b1), b.id, a, c).plane;
  }

  lemma AttachedInPlace(w: World, id: string, a: string, c: string, k: nat)
    requires RecordsOk(w.plane.records) && k < |w.plane.records|
    ensures var before, after := w.plane.records[k], ConfigureIn(w, id, a, c).plane.records;
      && |after| == |w.plane.records|
      && after[k] == before.(configurations := after[k].configurations)
      && (if before.bindingId == id && before.assetId == a && before.status == Running
          then Adds(before.configurations, c, after[k].configurations)
          else after[k].configurations == before.configurations)
  {
    var records := w.plane.records;
    var existing := ExistingRunning(records, id, a);
    NothingIsFound(records, id, a);
    if existing.Some? {
      SaveExisting(records, existing.value, Configured(existing.value, c));
      OnlyOneRuns(records, existing.value);
      AppendOne(existing.value.configurations, c);
    }
  }
}
