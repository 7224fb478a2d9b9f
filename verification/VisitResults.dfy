/** What the adaptive loop does when it looks at a profile: when it reveals, which actions it sends, and
    which feedback rows it writes, field by field. */
module VisitResults {
  import opened Wrappers
  import opened Iterables
  import opened Sorting
  import opened Bindings
  import opened ControlPlane
  import opened Scoring
  import opened Controller
  import opened Feedback
  import opened ActionLimit
  import opened AdaptiveLoop
  import opened LoopInvariant
  import opened BindingResults
  import opened FeedbackResults

  // ----- When a visit reveals -----

  /** Some evidence of the profile has not been looked at. */
  ghost predicate HasUnseen(l: Loop, k: Known) {
    exists id :: id in k.profile.evidenceIds
                 && (k.attacker in l.processed ==> id !in l.processed[k.attacker])
  }

  lemma UnseenIff(l: Loop, k: Known)
    ensures HasNewEvidence(l.processed, k.attacker, k.profile.evidenceIds) <==> HasUnseen(l, k)
  {
    var ids := k.profile.evidenceIds;
    if id :| id in ids && (k.attacker in l.processed ==> id !in l.processed[k.attacker]) {
      var i :| 0 <= i < |ids| && ids[i] == id;
    }
    if i :| 0 <= i < |ids| && ids[i] !in ProcessedOf(l.processed, k.attacker) {
      assert ids[i] in ids;
    }
  }

  /** What the controller is asked: the settings, the profile with the binding's reveals as the pass
      read them, the techniques known well enough, and what the prior advises on these. */
  ghost predicate IsAsked(s: Settings, k: Known, b: Binding, scene: Scene) {
    && scene.config == s.controller
    && scene.request == Request(k.profile, b.unlocked, b.revealed)
    && (forall t :: t in scene.observed <==>
          exists x :: (t, x) in k.profile.confidences && x >= s.controller.observedThreshold)
    && scene.recommendations == if s.controller.usePriorSupport then s.prior(scene.observed) else []
  }

  lemma {:induction false} ObservedMembers(c: Config, scores: Scores, t: string)
    ensures t in ThresholdedObserved(c, scores) <==> exists x :: (t, x) in scores && x >= c.observedThreshold
  {
    if scores != [] {
      var n := |scores| - 1;
      ObservedMembers(c, scores[..n], t);
      assert scores == scores[..n] + [scores[n]];
      assert scores[n] == (scores[n].0, scores[n].1);
    }
  }

  lemma SceneIsAsked(s: Settings, k: Known, b: Binding)
    ensures IsAsked(s, k, b, SceneOf(s, b, k.profile))
  {
    forall t
      ensures t in SceneOf(s, b, k.profile).observed <==>
              exists x :: (t, x) in k.profile.confidences && x >= s.controller.observedThreshold
    {
      ObservedMembers(s.controller, k.profile.confidences, t);
    }
  }

  /** Main result: a visit reveals exactly if, as far as the loop keeps state and feedback, there is
      unseen evidence and the gate is open, the attacker has a binding, and the controller has a main
      reveal for it. */
  lemma VisitRevealsIff(s: Settings, l: Loop, k: Known, assets: seq<Asset>, i: nat)
    requires k.attacker != "" && IsInUse(l.snapshot, i) && l.snapshot[i].attacker == k.attacker
    ensures var b := l.snapshot[i]; var a := AttentionTo(s, l, k, assets);
      && (a.Reveal? <==>
            && (s.keepsState ==> HasUnseen(l, k))
            && (s.keepsFeedback ==> GateOpen(l.ledger, k.attacker, b.id, k.profile.assetIds))
            && Decide(SceneOf(s, b, k.profile), assets).main.Some?)
      && (a.Reveal? ==> a.binding == b && a.chosen == Reveals(Decide(SceneOf(s, b, k.profile), assets)))
  {
    UnseenIff(l, k);
    LatestIsLast(l.snapshot, k.attacker, i);
    ExploreNeedsMain(SceneOf(s, l.snapshot[i], k.profile), assets);
  }

  /** Nobody without a binding of its own is revealed anything, nor is the nameless attacker. */
  lemma NoBindingNoReveal(s: Settings, l: Loop, k: Known, assets: seq<Asset>)
    requires k.attacker == "" || forall b :: b in l.snapshot ==> b.attacker != k.attacker
    ensures !AttentionTo(s, l, k, assets).Reveal?
  {
  }

  lemma ExploreNeedsMain(scene: Scene, assets: seq<Asset>)
    ensures Reveals(Decide(scene, assets)) == [] <==> Decide(scene, assets).main.None?
  {
  }

  /** The ids are put behind those the attacker has already, each once. */
  ghost predicate AreMarked(before: seq<string>, ids: seq<string>, after: seq<string>) {
    Distinct(after) && forall x :: x in after <==> x in before || x in ids
  }

  lemma MarkingIs(processed: map<string, seq<string>>, attacker: string, ids: seq<string>)
    ensures var after := MarkProcessed(processed, attacker, ids);
      && after.Keys == processed.Keys + {attacker}
      && AreMarked(if attacker in processed then processed[attacker] else [], ids, after[attacker])
      && forall x :: x in processed && x != attacker ==> after[x] == processed[x]
  {
    AppendNewDistinct([], ProcessedOf(processed, attacker) + ids);
  }

  /** A visit takes its profile off the agenda. It leaves everything else as it is when there is nothing
      new or no binding; else it marks the evidence of the profile as processed; and only a reveal
      changes the honeynet and the ledger. */
  lemma VisitMarks(s: Settings, l: Loop, v: Visit)
    requires Possible(s, l, Attend(v))
    ensures var k, l' := l.agenda[0], NextLoop(s, l, Attend(v)); var a := AttentionTo(s, l, k, v.assets);
      && l'.agenda == l.agenda[1..] && l'.snapshot == l.snapshot && l'.profiles == l.profiles
      && l'.processed == (if a.NothingNew? || a.NoBinding? then l.processed
                          else MarkProcessed(l.processed, k.attacker, k.profile.evidenceIds))
      && (!a.Reveal? ==> l'.world == l.world && l'.ledger == l.ledger)
  {
  }

  // ----- What is sent -----

  /** The action is the unlock or the configuration that was decided on. */
  ghost predicate Does(a: Action, c: Candidate) {
    match c.option.variant
    case None => a == Unlock(c.option.asset.id)
    case Some(v) =>
      a.Configure? && a.assetId == c.option.asset.id && a.target == v.target && a.targetRuntime == v.targetRuntime
      && v.configurationId == Some(a.configurationId)
  }

  /** The main reveal and, if the limit allows two, the explore reveal are sent, in this order. */
  lemma SentAreDecided(s: Settings, l: Loop, k: Known, assets: seq<Asset>)
    requires AttentionTo(s, l, k, assets).Reveal?
    ensures var a := AttentionTo(s, l, k, assets);
      && |a.actions| == (if s.limit <= 0 then 0 else if s.limit == 1 then 1 else |a.chosen|)
      && forall i :: 0 <= i < |a.actions| ==> Does(a.actions[i], a.chosen[i])
  {
    var a := AttentionTo(s, l, k, assets);
    forall i | 0 <= i < |a.actions| ensures Does(a.actions[i], a.chosen[i]) {
      ChosenAreGated(s, a.binding, k.profile, assets, i);
      assert a.actions[i] == ActionOf(a.chosen[i]);
    }
  }

  // ----- What is recorded -----

  function Written(markers: seq<Marker>): (r: seq<string>)
    ensures |r| == |markers| && forall i :: 0 <= i < |r| ==> r[i] == markers[i].key + ":" + markers[i].value
  {
    seq(|markers|, i requires 0 <= i < |markers| => markers[i].key + ":" + markers[i].value)
  }

  /** The names are those of the markers in order. */
  ghost predicate AreInOrder(names: seq<string>, markers: seq<Marker>) {
    && multiset(names) == multiset(Written(markers))
    && forall i, j :: 0 <= i < j < |names| ==> LexLe(names[i], names[j])
  }

  /** The context of a row: the technique it was revealed for, and its markers in order of name. */
  ghost predicate IsContext(text: string, c: Candidate) {
    exists names :: AreInOrder(names, c.option.markers)
                    && text == (if c.selected == "" then "unknown" else c.selected) + Barred(names)
  }

  function Barred(names: seq<string>): string {
    if names == [] then "" else Barred(names[..|names| - 1]) + "|" + names[|names| - 1]
  }

  lemma {:induction false} BarredFirst(names: seq<string>)
    requires names != []
    ensures Barred(names) == "|" + names[0] + Barred(names[1..])
  {
    var n := |names| - 1;
    if n > 0 {
      BarredFirst(names[..n]);
      assert names[..n][1..] == names[1..][..n - 1];
    } else {
      assert names[..0] == [] && names[1..] == [];
    }
  }

  lemma {:induction false} JoinedIsBarred(names: seq<string>)
    ensures Joined(names) == Barred(names)
  {
    if names != [] {
      JoinedIsBarred(names[1..]);
      BarredFirst(names);
    }
  }

  lemma {:induction false} MarkerNamesAre(markers: seq<Marker>)
    ensures MarkerNames(markers) == Written(markers)
  {
    if markers != [] {
      MarkerNamesAre(markers[1..]);
      assert Written(markers) == [Written(markers)[0]] + Written(markers[1..]);
    }
  }

  lemma LexLeIsTotalPreorder()
    ensures TotalPreorder(LexLe)
  {
    forall x: string, y: string ensures LexLe(x, y) || LexLe(y, x) {
      LexTotal(x, y);
    }
    forall x: string, y: string, z: string | LexLe(x, y) && LexLe(y, z) ensures LexLe(x, z) {
      LexTransitive(x, y, z);
    }
  }

  lemma SortedNames(markers: seq<Marker>)
    ensures AreInOrder(Sort(MarkerNames(markers), LexLe), markers)
  {
    LexLeIsTotalPreorder();
    SortSorted(MarkerNames(markers), LexLe);
    MarkerNamesAre(markers);
  }

  lemma ContextIs(c: Candidate)
    ensures IsContext(ContextOf(c), c)
  {
    var names := Sort(MarkerNames(c.option.markers), LexLe);
    SortedNames(c.option.markers);
    JoinedIsBarred(names);
    assert AreInOrder(names, c.option.markers);
  }

  /** A pending row for an unlock that was sent. */
  ghost predicate Records(r: Row, k: Known, b: Binding, c: Candidate, shown: seq<string>, ts: int) {
    && r.ts == ts && r.status == Status.Pending && r.bindingId == b.id && r.attacker == k.attacker
    && r.assetId == c.option.asset.id && r.group == c.option.group && r.shown == shown && IsContext(r.context, c)
  }

  /** The rows are those of the unlocks among the actions, in their order. */
  ghost predicate AreRecorded(
      rows: seq<Row>, index: seq<nat>, k: Known, b: Binding, chosen: seq<Candidate>, actions: seq<Action>,
      shown: seq<string>, stamps: seq<int>)
  {
    && |index| == |rows| && |actions| <= |chosen| && |actions| <= |stamps|
    && (forall m :: 0 <= m < |rows| ==>
          index[m] < |actions| && actions[index[m]].Unlock?
          && Records(rows[m], k, b, chosen[index[m]], shown, stamps[index[m]]))
    && (forall m, n :: 0 <= m < n < |index| ==> index[m] < index[n])
    && forall i: nat :: i < |actions| && actions[i].Unlock? ==> i in index
  }

  lemma {:induction false} SentAreRecorded(
      k: Known, b: Binding, chosen: seq<Candidate>, actions: seq<Action>, shown: seq<string>, stamps: seq<int>)
    returns (index: seq<nat>)
    requires |actions| <= |chosen| <= |stamps| && forall i :: 0 <= i < |actions| ==> Does(actions[i], chosen[i])
    ensures AreRecorded(SentRows(k, b.id, chosen, actions, shown, stamps), index, k, b, chosen, actions, shown, stamps)
  {
    if actions == [] {
      index := [];
    } else {
      var n: nat := |actions| - 1;
      index := SentAreRecorded(k, b, chosen, actions[..n], shown, stamps);
      var rows := SentRows(k, b.id, chosen, actions[..n], shown, stamps);
      if actions[n].Unlock? {
        var r := RowOf(k, b.id, chosen[n], shown, stamps[n]);
        RowIs(k, b, chosen[n], actions[n], shown, stamps[n]);
        OneMoreRecorded(rows, index, k, b, chosen, actions, shown, stamps, r);
        index := index + [n];
        assert SentRows(k, b.id, chosen, actions, shown, stamps) == rows + [r];
      } else {
        NoneMoreRecorded(rows, index, k, b, chosen, actions, shown, stamps);
        assert SentRows(k, b.id, chosen, actions, shown, stamps) == rows;
      }
    }
  }

  lemma RowIs(k: Known, b: Binding, c: Candidate, a: Action, shown: seq<string>, ts: int)
    requires a.Unlock? && Does(a, c)
    ensures Records(RowOf(k, b.id, c, shown, ts), k, b, c, shown, ts)
  {
    ContextIs(c);
  }

  lemma OneMoreRecorded(
      rows: seq<Row>, index: seq<nat>, k: Known, b: Binding, chosen: seq<Candidate>, actions: seq<Action>,
      shown: seq<string>, stamps: seq<int>, r: Row)
    requires actions != [] && |actions| <= |chosen| && |actions| <= |stamps| && actions[|actions| - 1].Unlock?
    requires AreRecorded(rows, index, k, b, chosen, actions[..|actions| - 1], shown, stamps)
    requires Records(r, k, b, chosen[|actions| - 1], shown, stamps[|actions| - 1])
    ensures AreRecorded(rows + [r], index + [|actions| - 1], k, b, chosen, actions, shown, stamps)
  {
    var n: nat := |actions| - 1;
    var front := actions[..n];
    forall m | 0 <= m < |rows| + 1
      ensures var j := (index + [n])[m];
        j < |actions| && actions[j].Unlock? && Records((rows + [r])[m], k, b, chosen[j], shown, stamps[j])
    {
      assert m < |rows| ==> front[index[m]] == actions[index[m]];
    }
    forall i: nat | i < |actions| && actions[i].Unlock? ensures i in index + [n] {
      assert i < n ==> front[i].Unlock?;
    }
  }

  lemma NoneMoreRecorded(
      rows: seq<Row>, index: seq<nat>, k: Known, b: Binding, chosen: seq<Candidate>, actions: seq<Action>,
      shown: seq<string>, stamps: seq<int>)
    requires actions != [] && |actions| <= |chosen| && |actions| <= |stamps| && !actions[|actions| - 1].Unlock?
    requires AreRecorded(rows, index, k, b, chosen, actions[..|actions| - 1], shown, stamps)
    ensures AreRecorded(rows, index, k, b, chosen, actions, shown, stamps)
  {
    var n: nat := |actions| - 1;
    var front := actions[..n];
    assert forall i :: 0 <= i < n ==> front[i] == actions[i];
    forall i: nat | i < |actions| && actions[i].Unlock? ensures i in index {
      assert front[i].Unlock?;
    }
  }

  lemma {:induction false} UnlockedMembers(actions: seq<Action>, x: string)
    ensures x in UnlockedBy(actions) <==> Unlock(x) in actions
  {
    if actions != [] {
      var n := |actions| - 1;
      UnlockedMembers(actions[..n], x);
      assert actions == actions[..n] + [actions[n]];
    }
  }

  /** Main result on the ledger: a visit that reveals appends one pending row for every unlock it sends
      and for nothing else, in order, each with its own time and its own decision's asset, group and
      context, and all with the list of assets that were unlocked together. */
  lemma VisitRecords(s: Settings, l: Loop, v: Visit) returns (added: seq<Row>, index: seq<nat>, shown: seq<string>)
    requires s.keepsFeedback && Possible(s, l, Attend(v)) && AttentionTo(s, l, l.agenda[0], v.assets).Reveal?
    ensures var k := l.agenda[0]; var a := AttentionTo(s, l, k, v.assets);
      && NextLoop(s, l, Attend(v)).ledger.rows == l.ledger.rows + added
      && AreRecorded(added, index, k, a.binding, a.chosen, a.actions, shown, v.stamps)
      && Distinct(shown) && forall x :: x in shown <==> Unlock(x) in a.actions
  {
    var k := l.agenda[0];
    var a := AttentionTo(s, l, k, v.assets);
    added := NewRows(k, a.binding.id, a.chosen, UnlockedBy(a.actions), v.stamps);
    LedgerOfVisit(s, l, v);
    RecordAllRows(l.ledger, added);
    index, shown := RowsAreRecorded(s, l, k, v);
  }

  lemma LedgerOfVisit(s: Settings, l: Loop, v: Visit)
    requires s.keepsFeedback && Possible(s, l, Attend(v)) && AttentionTo(s, l, l.agenda[0], v.assets).Reveal?
    ensures var k := l.agenda[0]; var a := AttentionTo(s, l, k, v.assets);
      NextLoop(s, l, Attend(v)).ledger
        == RecordAll(l.ledger, NewRows(k, a.binding.id, a.chosen, UnlockedBy(a.actions), v.stamps))
  {
    var k := l.agenda[0];
    var a := AttentionTo(s, l, k, v.assets);
    SendsEffect(s, l, k, v, a.binding, a.chosen, a.actions);
    RevealedLedger(s, l, k, v, a.binding, a.chosen, a.actions);
  }

  lemma RevealedLedger(
      s: Settings, l: Loop, k: Known, v: Visit, b: Binding, chosen: seq<Candidate>, actions: seq<Action>)
    requires |v.envs| == |v.stamps| == 2 && |actions| <= |chosen| <= 2 && s.keepsFeedback
    ensures Revealed(s, l, k, v, b, chosen, actions).ledger
         == RecordAll(l.ledger, NewRows(k, b.id, chosen, UnlockedBy(actions), v.stamps))
  {
  }

  lemma RowsAreRecorded(s: Settings, l: Loop, k: Known, v: Visit) returns (index: seq<nat>, shown: seq<string>)
    requires |v.stamps| == 2 && AttentionTo(s, l, k, v.assets).Reveal?
    ensures var a := AttentionTo(s, l, k, v.assets);
      var rows := NewRows(k, a.binding.id, a.chosen, UnlockedBy(a.actions), v.stamps);
      && AreRecorded(rows, index, k, a.binding, a.chosen, a.actions, shown, v.stamps)
      && Distinct(shown) && forall x :: x in shown <==> Unlock(x) in a.actions
  {
    var a := AttentionTo(s, l, k, v.assets);
    var ids := UnlockedBy(a.actions);
    shown := Dedupe(ids);
    AppendNewDistinct([], ids);
    SentAreDecided(s, l, k, v.assets);
    RowsMatchSentUnlocks(s, l, k, v);
    index := SentAreRecorded(k, a.binding, a.chosen, a.actions, shown, v.stamps);
    forall x ensures x in shown <==> Unlock(x) in a.actions {
      UnlockedMembers(a.actions, x);
    }
  }

  // ----- The beginning of a pass -----

  /** A pass begins with the bindings and the profiles as they are, and first settles the rows that are
      pending by what was seen in the meantime. */
  lemma PassBegins(s: Settings, l: Loop, evidence: seq<Evidence>, touches: seq<Touch>, now: int)
    requires Possible(s, l, Begin(evidence, touches, now))
    ensures var l' := NextLoop(s, l, Begin(evidence, touches, now));
      && l'.snapshot == l.world.bindings && l'.agenda == l.profiles && l'.processed == l.processed
      && |l'.ledger.rows| == |l.ledger.rows|
      && forall i :: 0 <= i < |l.ledger.rows| ==>
           var before, after := l.ledger.rows[i], l'.ledger.rows[i];
           && after == before.(status := after.status)
           && (!s.keepsFeedback || before.status != Status.Pending ==> after.status == before.status)
           && (s.keepsFeedback && before.status == Status.Pending ==>
                 ComesTo(before, Observation(evidence, touches, now, s.window), after.status))
  {
    if s.keepsFeedback {
      var o := Observation(evidence, touches, now, s.window);
      forall i | 0 <= i < |l.ledger.rows|
        ensures var before, after := l.ledger.rows[i], Update(l.ledger, o).rows[i];
          && after == before.(status := after.status)
          && (before.status != Status.Pending ==> after.status == before.status)
          && (before.status == Status.Pending ==> ComesTo(before, o, after.status))
      {
        LedgerAfterUpdate(l.ledger, o, i);
      }
    }
  }
}
