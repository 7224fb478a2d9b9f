/** One pass of the adaptive loop over all profiles, as the sequence of steps it amounts to. */
module LoopRunner {
  import opened Iterables
  import opened Bindings
  import opened ControlPlane
  import opened Orchestrator
  import opened Scoring
  import opened Controller
  import opened Feedback
  import opened ActionLimit
  import opened AdaptiveLoop
  import opened LoopInvariant

  function StepsOf(evidence: seq<Evidence>, touches: seq<Touch>, now: int, visits: seq<Visit>): (r: seq<Step>)
    ensures |r| == |visits| + 1
  {
    [Begin(evidence, touches, now)] + seq(|visits|, i requires 0 <= i < |visits| => Attend(visits[i]))
  }

  lemma {:induction false} ValidStepsPrefix(s: Settings, l: Loop, steps: seq<Step>, k: nat)
    requires ValidSteps(s, l, steps) && k <= |steps|
    ensures ValidSteps(s, l, steps[..k])
    decreases |steps|
  {
    if k == |steps| {
      assert steps[..k] == steps;
    } else {
      ValidStepsPrefix(s, l, steps[..|steps| - 1], k);
      assert steps[..|steps| - 1][..k] == steps[..k];
    }
  }

  lemma StepInRun(s: Settings, l: Loop, steps: seq<Step>, k: nat)
    requires LoopInv(l) && ValidSteps(s, l, steps) && k < |steps|
    ensures ValidSteps(s, l, steps[..k]) && ValidSteps(s, l, steps[..k + 1])
    ensures LoopInv(LoopAfter(s, l, steps[..k])) && Possible(s, LoopAfter(s, l, steps[..k]), steps[k])
    ensures LoopAfter(s, l, steps[..k + 1]) == NextLoop(s, LoopAfter(s, l, steps[..k]), steps[k])
    ensures var before := LoopAfter(s, l, steps[..k]);
      SentAlong(s, l, steps[..k + 1]) == SentAlong(s, l, steps[..k]) +
        if steps[k].Attend? then SentBy(s, before, before.agenda[0], steps[k].visit.assets) else 0
  {
    ValidStepsPrefix(s, l, steps, k + 1);
    assert steps[..k + 1][..k] == steps[..k];
    LoopOk(s, l, steps[..k]);
  }

  /** The step of a pass that looks at its i-th profile. */
  lemma VisitInRun(s: Settings, l: Loop, steps: seq<Step>, visits: seq<Visit>, profiles: seq<Known>, i: nat)
    requires LoopInv(l) && ValidSteps(s, l, steps) && i < |visits| == |profiles| && |steps| == |visits| + 1
    requires steps[i + 1] == Attend(visits[i])
    requires ValidSteps(s, l, steps[..i + 1]) && LoopAfter(s, l, steps[..i + 1]).agenda == profiles[i..]
    ensures var before := LoopAfter(s, l, steps[..i + 1]);
      && LoopInv(before) && PossibleVisit(s, before, profiles[i], visits[i])
      && ValidSteps(s, l, steps[..i + 2])
      && LoopAfter(s, l, steps[..i + 2]) == Attended(s, before, profiles[i], visits[i]).(agenda := profiles[i + 1..])
      && SentAlong(s, l, steps[..i + 2])
         == SentAlong(s, l, steps[..i + 1]) + SentBy(s, before, profiles[i], visits[i].assets)
  {
    StepInRun(s, l, steps, i + 1);
    assert profiles[i..][0] == profiles[i] && profiles[i..][1..] == profiles[i + 1..];
  }

  class AdaptiveLoopService {
    const orchestrator: OrchestratorService
    const feedback: FeedbackRepository
    const controller: Config
    const prior: seq<string> -> Scores
    const limit: int
    const window: int
    const keepsState: bool
    const keepsFeedback: bool
    var processed: map<string, seq<string>>

    constructor (
        orchestrator: OrchestratorService, feedback: FeedbackRepository, controller: Config,
        prior: seq<string> -> Scores,
        limit: int, window: int, keepsState: bool, keepsFeedback: bool)
      ensures processed == map[] && this.orchestrator == orchestrator && this.feedback == feedback
      ensures Configuration()
           == Settings(orchestrator.Configuration(), controller, prior, limit, window, keepsState, keepsFeedback)
    {
      this.orchestrator, this.feedback, this.controller, this.prior := orchestrator, feedback, controller, prior;
      this.limit, this.window, this.keepsState, this.keepsFeedback := limit, window, keepsState, keepsFeedback;
      processed := map[];
    }

    function Configuration(): Settings {
      Settings(orchestrator.Configuration(), controller, prior, limit, window, keepsState, keepsFeedback)
    }

    function State(profiles: seq<Known>, snapshot: seq<Binding>, agenda: seq<Known>, clock: int): Loop
      reads this, feedback, orchestrator.bindings.repository, orchestrator.runtime, orchestrator.gateway
    {
      Loop(orchestrator.State(clock), feedback.State(), processed, profiles, snapshot, agenda)
    }

    method MarkEvidenceProcessed(attacker: string, ids: seq<string>)
      modifies this
      ensures processed == MarkProcessed(old(processed), attacker, ids)
    {
      var previous := if attacker in processed then processed[attacker] else [];
      var all := DedupePreserve(previous + ids);
      processed := processed[attacker := all];
    }

    method RecordRevealFeedback(
        k: Known, bindingId: string, chosen: seq<Candidate>, sent: seq<Action>, stamps: seq<int>)
      requires |stamps| >= |chosen|
      modifies feedback
      ensures feedback.State()
              == RecordAll(old(feedback.State()), NewRows(k, bindingId, chosen, UnlockedBy(sent), stamps))
    {
      var ids: seq<string> := [];
      for i := 0 to |sent|
        invariant ids == UnlockedBy(sent[..i])
      {
        assert sent[..i + 1][..i] == sent[..i];
        if sent[i].Unlock? {
          ids := ids + [sent[i].assetId];
        }
      }
      assert sent[..|sent|] == sent;
      if ids == [] {
        NoIdsNoRows(k, bindingId, chosen, stamps);
        return;
      }
      var shown := DedupePreserve(ids);
      for i := 0 to |chosen|
        invariant feedback.State()
               == RecordAll(old(feedback.State()), NewRows(k, bindingId, chosen[..i], ids, stamps[..i]))
      {
        RowsStep(k, bindingId, chosen, ids, stamps, i, old(feedback.State()));
        var c := chosen[i];
        if ExposedId(c) !in ids {
          continue;
        }
        feedback.RecordReveal(ContextOf(c), c.option.group, bindingId, k.attacker, ExposedId(c), shown, stamps[i]);
      }
      RowsEnough(k, bindingId, chosen, ids, stamps);
    }

    method SendReveals(k: Known, b: Binding, chosen: seq<Candidate>, actions: seq<Action>, v: Visit, ghost clock: int)
      requires Inv(orchestrator.State(clock)) && FindById(orchestrator.bindings.repository.records, b.id).Some?
      requires Fits(Configuration(), orchestrator.State(clock), b.id, actions, v)
      requires |actions| <= |chosen| <= 2 && forall i :: 0 <= i < |actions| ==> actions[i] == ActionOf(chosen[i])
      modifies this, feedback, orchestrator.bindings.repository, orchestrator.runtime, orchestrator.gateway
      ensures orchestrator.State(v.synced) == Applied(Configuration(), old(orchestrator.State(clock)), b.id, actions, v)
      ensures feedback.State() == if keepsFeedback
        then RecordAll(old(feedback.State()), NewRows(k, b.id, chosen, UnlockedBy(actions), v.stamps))
        else old(feedback.State())
      ensures processed == MarkProcessed(old(processed), k.attacker, k.profile.evidenceIds)
    {
      var _ := orchestrator.Apply(b.id, actions, v.envs[..|actions|], v.up, clock, v.synced);
      var sent := CollectReveals(actions);
      AllReveal(actions, chosen);
      if keepsFeedback {
        RecordRevealFeedback(k, b.id, chosen, sent, v.stamps);
      }
      MarkEvidenceProcessed(k.attacker, k.profile.evidenceIds);
    }

    /** The branches that decide what to do about one profile. */
    method Consult(k: Known, snapshot: seq<Binding>, assets: seq<Asset>, ghost l: Loop) returns (a: Attention)
      requires l.processed == processed && l.ledger == feedback.State() && l.snapshot == snapshot
      ensures a == AttentionTo(Configuration(), l, k, assets)
    {
      if keepsState && !HasNewEvidence(processed, k.attacker, k.profile.evidenceIds) {
        return NothingNew;
      }
      var found := BindingOf(snapshot, k.attacker);
      if found.None? {
        return NoBinding;
      }
      var b := found.value;
      if keepsFeedback && !GateOpen(feedback.State(), k.attacker, b.id, k.profile.assetIds) {
        return Waiting(b);
      }
      var chosen := Tick(controller, assets, Request(k.profile, b.unlocked, b.revealed), prior);
      if chosen == [] {
        return Quiet(b);
      }
      var actions := LimitReveals(ActionsOf(chosen), limit);
      assert actions == ActionsToSend(chosen, limit);
      a := Reveal(b, chosen, actions);
    }

    /** What the pass does about one profile, and how many reveals it sends. */
    method LookAt(k: Known, snapshot: seq<Binding>, v: Visit, ghost l: Loop) returns (sent: nat, ghost end: int)
      requires LoopInv(l) && l == State(l.profiles, snapshot, l.agenda, l.world.clock)
               && PossibleVisit(Configuration(), l, k, v)
      modifies this, feedback, orchestrator.bindings.repository, orchestrator.runtime, orchestrator.gateway
      ensures State(l.profiles, snapshot, l.agenda, end) == Attended(Configuration(), l, k, v)
      ensures sent == SentBy(Configuration(), l, k, v.assets)
    {
      end, sent := l.world.clock, 0;
      var a := Consult(k, snapshot, v.assets, l);
      match a
      case Reveal(b, chosen, actions) =>
        SendsWhenOpen(Configuration(), l, k, v, b, chosen, actions);
        SendReveals(k, b, chosen, actions, v, l.world.clock);
        end, sent := v.stamps[1], |actions|;
      case Waiting(_) =>
        MarkingEffect(Configuration(), l, k, v);
        MarkEvidenceProcessed(k.attacker, k.profile.evidenceIds);
      case Quiet(_) =>
        MarkingEffect(Configuration(), l, k, v);
        MarkEvidenceProcessed(k.attacker, k.profile.evidenceIds);
      case NothingNew => MarkingEffect(Configuration(), l, k, v);
      case NoBinding => MarkingEffect(Configuration(), l, k, v);
    }

    method BeginPass(
        ghost profiles: seq<Known>, evidence: seq<Evidence>, touches: seq<Touch>, now: int,
        ghost earlier: seq<Binding>, ghost start: int)
      returns (snapshot: seq<Binding>)
      requires start <= now
      modifies feedback
      ensures snapshot == orchestrator.bindings.repository.records
      ensures State(profiles, snapshot, profiles, now)
           == NextLoop(Configuration(), old(State(profiles, earlier, [], start)), Begin(evidence, touches, now))
    {
      snapshot := orchestrator.bindings.repository.records;
      if keepsFeedback {
        feedback.UpdateFromEvidence(Observation(evidence, touches, now, window));
      }
    }

    /** A pass reads the bindings once, updates the ledger and then looks at every profile in turn;
        it returns the number of reveals it sent. */
    method TickOnce(
        profiles: seq<Known>, visits: seq<Visit>, evidence: seq<Evidence>, touches: seq<Touch>, now: int,
        ghost earlier: seq<Binding>, ghost start: int)
      returns (sent: nat, ghost end: int)
      requires |visits| == |profiles| && LoopInv(State(profiles, earlier, [], start))
      requires ValidSteps(Configuration(), State(profiles, earlier, [], start), StepsOf(evidence, touches, now, visits))
      modifies this, feedback, orchestrator.bindings.repository, orchestrator.runtime, orchestrator.gateway
      ensures State(profiles, old(orchestrator.bindings.repository.records), [], end)
           == LoopAfter(Configuration(), old(State(profiles, earlier, [], start)),
                      StepsOf(evidence, touches, now, visits))
      ensures sent
           == SentAlong(Configuration(), old(State(profiles, earlier, [], start)),
                      StepsOf(evidence, touches, now, visits))
    {
      ghost var s, l := Configuration(), State(profiles, earlier, [], start);
      ghost var steps := StepsOf(evidence, touches, now, visits);
      StepInRun(s, l, steps, 0);
      var snapshot := BeginPass(profiles, evidence, touches, now, earlier, start);
      assert steps[..0] == [];
      sent, end := VisitAll(profiles, visits, snapshot, l, steps, now);
    }

    method VisitAll(
        profiles: seq<Known>, visits: seq<Visit>, snapshot: seq<Binding>, ghost l: Loop, ghost steps: seq<Step>,
        ghost start: int)
      returns (sent: nat, ghost end: int)
      requires |visits| == |profiles| == |steps| - 1 && LoopInv(l) && ValidSteps(Configuration(), l, steps)
      requires steps[0].Begin? && forall i :: 0 <= i < |visits| ==> steps[i + 1] == Attend(visits[i])
      requires ValidSteps(Configuration(), l, steps[..1])
      requires State(profiles, snapshot, profiles, start) == LoopAfter(Configuration(), l, steps[..1])
      modifies this, feedback, orchestrator.bindings.repository, orchestrator.runtime, orchestrator.gateway
      ensures State(profiles, snapshot, [], end) == LoopAfter(Configuration(), l, steps)
      ensures sent == SentAlong(Configuration(), l, steps)
    {
      ghost var s := Configuration();
      end, sent := start, 0;
      assert steps[..1][..0] == [];
      for i := 0 to |profiles|
        invariant ValidSteps(s, l, steps[..i + 1])
        invariant State(profiles, snapshot, profiles[i..], end) == LoopAfter(s, l, steps[..i + 1])
        invariant sent == SentAlong(s, l, steps[..i + 1])
      {
        VisitInRun(s, l, steps, visits, profiles, i);
        var more;
        more, end := LookAt(profiles[i], snapshot, visits[i], LoopAfter(s, l, steps[..i + 1]));
        sent := sent + more;
      }
      assert steps[..|profiles| + 1] == steps;
    }
  }

  /** All that is needed to send the reveals of a visit, and what that amounts to. */
  lemma SendsWhenOpen(
      s: Settings, l: Loop, k: Known, v: Visit, b: Binding, chosen: seq<Candidate>, actions: seq<Action>)
    requires LoopInv(l) && PossibleVisit(s, l, k, v) && AttentionTo(s, l, k, v.assets) == Reveal(b, chosen, actions)
    ensures Inv(l.world) && FindById(l.world.bindings, b.id).Some? && Fits(s, l.world, b.id, actions, v)
    ensures |actions| <= |chosen| <= 2 && forall i :: 0 <= i < |actions| ==> actions[i] == ActionOf(chosen[i])
    ensures Attended(s, l, k, v) == Revealed(s, l, k, v, b, chosen, actions)
  {
    assert Sends(s, l, k, v, b, chosen, actions);
    SendsParts(s, l, k, v, b, chosen, actions);
    SendsFits(s, l, k, v, b, chosen, actions);
    SendsEffect(s, l, k, v, b, chosen, actions);
    SnapshotBinding(l, k.attacker);
  }

  lemma AllReveal(actions: seq<Action>, chosen: seq<Candidate>)
    requires |actions| <= |chosen| && forall i :: 0 <= i < |actions| ==> actions[i] == ActionOf(chosen[i])
    ensures RevealActions(actions) == actions
  {
    LimitOfReveals(actions, 1);
  }

  lemma {:induction false} NoIdsNoRows(k: Known, id: string, chosen: seq<Candidate>, stamps: seq<int>)
    requires |stamps| >= |chosen|
    ensures NewRows(k, id, chosen, [], stamps) == []
  {
    if chosen != [] {
      NoIdsNoRows(k, id, chosen[..|chosen| - 1], stamps[..|chosen| - 1]);
    }
  }

  lemma RowsStep(
      k: Known, id: string, chosen: seq<Candidate>, ids: seq<string>, stamps: seq<int>, i: nat, l: Ledger)
    requires i < |chosen| <= |stamps|
    ensures RecordAll(l, NewRows(k, id, chosen[..i + 1], ids, stamps[..i + 1])) ==
      var before := RecordAll(l, NewRows(k, id, chosen[..i], ids, stamps[..i]));
      if ExposedId(chosen[i]) in ids
      then Feedback.Record(before, RowOf(k, id, chosen[i], Dedupe(ids), stamps[i])) else before
  {
    assert chosen[..i + 1][..i] == chosen[..i] && stamps[..i + 1][..i] == stamps[..i];
    var rows := NewRows(k, id, chosen[..i], ids, stamps[..i]);
    var row := RowOf(k, id, chosen[i], Dedupe(ids), stamps[i]);
    assert (rows + [row])[..|rows|] == rows;
    assert rows + [] == rows;
  }

  lemma RowsEnough(k: Known, id: string, chosen: seq<Candidate>, ids: seq<string>, stamps: seq<int>)
    requires |stamps| >= |chosen|
    ensures NewRows(k, id, chosen[..|chosen|], ids, stamps[..|chosen|]) == NewRows(k, id, chosen, ids, stamps)
  {
    assert chosen[..|chosen|] == chosen;
    if chosen != [] {
      var n := |chosen| - 1;
      assert stamps[..|chosen|][..n] == stamps[..n];
    }
  }
}
