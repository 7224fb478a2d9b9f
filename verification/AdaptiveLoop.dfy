/** The adaptive loop: it looks at every profile with new evidence, asks the response gate and the
    controller, sends the limited reveals to the orchestrator and keeps the feedback ledger. The
    loop is a state machine whose steps interleave with whatever else happens to the honeynet. */
module AdaptiveLoop {
  import opened Wrappers
  import opened Iterables
  import opened ListStore
  import opened Sorting
  import opened Bindings
  import opened ControlPlane
  import opened Orchestrator
  import opened Scoring
  import opened Controller
  import opened Feedback
  import opened ActionLimit

  /** `keepsState` and `keepsFeedback`: whether the loop was given a state and a feedback file. */
  datatype Settings = Settings(
    plane: Setting, controller: Config, prior: seq<string> -> Scores,
    limit: int, window: int, keepsState: bool, keepsFeedback: bool)

  datatype Known = Known(attacker: string, profile: Profile)

  function AttackerOf(k: Known): string {
    k.attacker
  }

  /** `snapshot` and `agenda` are what the current pass has read at its start: the bindings, and the
      profiles it has still to look at. */
  datatype Loop = Loop(
    world: World, ledger: Ledger, processed: map<string, seq<string>>, profiles: seq<Known>,
    snapshot: seq<Binding>, agenda: seq<Known>)

  const INITIAL := Loop(EMPTY, NO_FEEDBACK, map[], [], [], [])

  /** What a visit to a profile finds: the asset catalogue, how each action goes, which containers
      are up, and when the gateway is told and each feedback row is written. */
  datatype Visit = Visit(assets: seq<Asset>, envs: seq<Env>, up: set<string>, synced: int, stamps: seq<int>)

  datatype Step =
    | Begin(evidence: seq<Evidence>, touches: seq<Touch>, now: int)
    | Attend(visit: Visit)
    | Outside(event: Event)
    | Profiled(known: Known)

  // ----- Processed evidence -----

  function ProcessedOf(processed: map<string, seq<string>>, attacker: string): seq<string> {
    if attacker in processed then processed[attacker] else []
  }

  predicate HasNewEvidence(processed: map<string, seq<string>>, attacker: string, ids: seq<string>) {
    exists i :: 0 <= i < |ids| && ids[i] !in ProcessedOf(processed, attacker)
  }

  function MarkProcessed(
      processed: map<string, seq<string>>, attacker: string, ids: seq<string>): map<string, seq<string>> {
    processed[attacker := Dedupe(ProcessedOf(processed, attacker) + ids)]
  }

  // ----- What a visit decides -----

  /** The last record of an attacker wins. */
  function BindingOf(snapshot: seq<Binding>, attacker: string): Option<Binding> {
    if attacker == "" then None else LatestByAttacker(snapshot, attacker)
  }

  datatype Attention =
    | NothingNew
    | NoBinding
    | Waiting(binding: Binding)
    | Quiet(binding: Binding)
    | Reveal(binding: Binding, chosen: seq<Candidate>, actions: seq<Action>)

  function SceneOf(s: Settings, b: Binding, p: Profile): Scene {
    MakeScene(s.controller, Request(p, b.unlocked, b.revealed), s.prior)
  }

  function ChosenFor(s: Settings, b: Binding, p: Profile, assets: seq<Asset>): (r: seq<Candidate>)
    ensures |r| <= 2
  {
    Reveals(Decide(SceneOf(s, b, p), assets))
  }

  /** The reveals that are sent are the first of those the controller chose. */
  function ActionsToSend(chosen: seq<Candidate>, limit: int): (r: seq<Action>)
    ensures |r| == (if limit <= 0 then 0 else Least(limit, |chosen|)) <= |chosen|
    ensures r == ActionsOf(chosen)[..|r|]
    ensures forall i :: 0 <= i < |r| ==> r[i] == ActionOf(chosen[i])
  {
    LimitOfReveals(ActionsOf(chosen), limit);
    Limited(ActionsOf(chosen), limit)
  }

  function AttentionTo(s: Settings, l: Loop, k: Known, assets: seq<Asset>): (a: Attention)
    ensures a.Reveal? ==> 1 <= |a.chosen| <= 2 && a.actions == ActionsToSend(a.chosen, s.limit)
  {
    var found := BindingOf(l.snapshot, k.attacker);
    if s.keepsState && !HasNewEvidence(l.processed, k.attacker, k.profile.evidenceIds) then NothingNew
    else if found.None? then NoBinding
    else
      var b := found.value;
      if s.keepsFeedback && !GateOpen(l.ledger, k.attacker, b.id, k.profile.assetIds) then Waiting(b)
      else
        var chosen := ChosenFor(s, b, k.profile, assets);
        if chosen == [] then Quiet(b) else Reveal(b, chosen, ActionsToSend(chosen, s.limit))
  }

  // ----- Feedback rows -----

  function UnlockedBy(actions: seq<Action>): seq<string> {
    if actions == [] then []
    else
      var n := |actions| - 1;
      UnlockedBy(actions[..n]) + if actions[n].Unlock? then [actions[n].assetId] else []
  }

  function Joined(parts: seq<string>): string {
    if parts == [] then "" else "|" + parts[0] + Joined(parts[1..])
  }

  function MarkerNames(markers: seq<Marker>): seq<string> {
    if markers == [] then [] else [markers[0].key + ":" + markers[0].value] + MarkerNames(markers[1..])
  }

  function ContextOf(c: Candidate): string {
    (if c.selected == "" then "unknown" else c.selected) + Joined(Sort(MarkerNames(c.option.markers), LexLe))
  }

  function RowOf(k: Known, bindingId: string, c: Candidate, shown: seq<string>, ts: int): Row {
    Row(ts, ContextOf(c), c.option.group, bindingId, k.attacker, ExposedId(c), shown, Pending)
  }

  /** A row for every decision, applied or not, whose asset an applied unlock names. */
  function NewRows(k: Known, bindingId: string, chosen: seq<Candidate>, ids: seq<string>, stamps: seq<int>): seq<Row>
    requires |stamps| >= |chosen|
  {
    if chosen == [] then []
    else
      var n := |chosen| - 1;
      NewRows(k, bindingId, chosen[..n], ids, stamps[..n]) +
      if ExposedId(chosen[n]) in ids then [RowOf(k, bindingId, chosen[n], Dedupe(ids), stamps[n])] else []
  }

  function RecordAll(l: Ledger, rows: seq<Row>): Ledger {
    if rows == [] then l
    else
      var n := |rows| - 1;
      Feedback.Record(RecordAll(l, rows[..n]), rows[n])
  }

  // ----- Steps -----

  /** The honeynet after an orchestration request. */
  function Applied(s: Settings, w: World, id: string, actions: seq<Action>, v: Visit): World
    requires |v.envs| >= |actions|
  {
    var envs := v.envs[..|actions|];
    Next(s.plane, After(s.plane, w, ActEvents(id, actions, envs)),
         Sync(id, v.up, NotesOfAll(s.plane, w, id, actions, envs), v.synced))
  }

  function Marked(l: Loop, k: Known): Loop {
    l.(processed := MarkProcessed(l.processed, k.attacker, k.profile.evidenceIds))
  }

  /** The loop state after a profile was looked at, the agenda aside. */
  function Attended(s: Settings, l: Loop, k: Known, v: Visit): Loop
    requires |v.envs| == |v.stamps| == 2
  {
    match AttentionTo(s, l, k, v.assets)
    case NothingNew => l
    case NoBinding => l
    case Waiting(_) => Marked(l, k)
    case Quiet(_) => Marked(l, k)
    case Reveal(b, chosen, actions) => Revealed(s, l, k, v, b, chosen, actions)
  }

  function Revealed(
      s: Settings, l: Loop, k: Known, v: Visit, b: Binding, chosen: seq<Candidate>, actions: seq<Action>): Loop
    requires |v.envs| == |v.stamps| == 2 && |actions| <= |chosen| <= 2
  {
    var rows := NewRows(k, b.id, chosen, UnlockedBy(actions), v.stamps);
    Marked(l, k).(world := Applied(s, l.world, b.id, actions, v).(clock := v.stamps[1]),
                  ledger := if s.keepsFeedback then RecordAll(l.ledger, rows) else l.ledger)
  }

  function NextLoop(s: Settings, l: Loop, step: Step): Loop
    requires Possible(s, l, step)
  {
    match step
    case Begin(evidence, touches, now) =>
      l.(world := l.world.(clock := now), snapshot := l.world.bindings, agenda := l.profiles,
         ledger :=
           if s.keepsFeedback then Update(l.ledger, Observation(evidence, touches, now, s.window)) else l.ledger)
    case Attend(v) => Attended(s, l, l.agenda[0], v).(agenda := l.agenda[1..])
    case Outside(e) => l.(world := Next(s.plane, l.world, e))
    case Profiled(k) => l.(profiles := Upsert(l.profiles, AttackerOf, k))
  }

  /** Catalogue entries have names. */
  predicate Named(assets: seq<Asset>) {
    forall i :: 0 <= i < |assets| ==>
      assets[i].id != "" && forall j :: 0 <= j < |assets[i].variants| ==> NamedVariant(assets[i].variants[j])
  }

  predicate NamedVariant(v: Variant) {
    v.configurationId != Some("") && v.target != Some("")
  }

  predicate PossibleVisit(s: Settings, l: Loop, k: Known, v: Visit) {
    && |v.envs| == |v.stamps| == 2 && Named(v.assets)
    && var a := AttentionTo(s, l, k, v.assets);
       a.Reveal? ==>
         var events := ActEvents(a.binding.id, a.actions, v.envs[..|a.actions|]);
         && ValidRun(s.plane, l.world, events)
         && After(s.plane, l.world, events).clock <= v.synced <= v.stamps[0] <= v.stamps[1]
  }

  /** Time does not go back, generated identifiers are new, and a pass ends before the next begins. */
  predicate Possible(s: Settings, l: Loop, step: Step) {
    match step
    case Begin(_, _, now) => l.agenda == [] && l.world.clock <= now
    case Attend(v) => l.agenda != [] && PossibleVisit(s, l, l.agenda[0], v)
    case Outside(e) => Enabled(l.world, e)
    case Profiled(_) => true
  }

  ghost predicate ValidSteps(s: Settings, l: Loop, steps: seq<Step>)
    decreases |steps|, 0
  {
    steps == [] ||
    (var n := |steps| - 1; ValidSteps(s, l, steps[..n]) && Possible(s, LoopAfter(s, l, steps[..n]), steps[n]))
  }

  ghost function LoopAfter(s: Settings, l: Loop, steps: seq<Step>): Loop
    requires ValidSteps(s, l, steps)
    decreases |steps|, 1
  {
    if steps == [] then l
    else var n := |steps| - 1; NextLoop(s, LoopAfter(s, l, steps[..n]), steps[n])
  }

  /** How many reveals a visit sends. */
  function SentBy(s: Settings, l: Loop, k: Known, assets: seq<Asset>): nat {
    var a := AttentionTo(s, l, k, assets);
    if a.Reveal? then |a.actions| else 0
  }

  ghost function SentAlong(s: Settings, l: Loop, steps: seq<Step>): nat
    requires ValidSteps(s, l, steps)
    decreases |steps|
  {
    if steps == [] then 0
    else
      var n := |steps| - 1;
      var before := LoopAfter(s, l, steps[..n]);
      SentAlong(s, l, steps[..n]) +
      if steps[n].Attend? then SentBy(s, before, before.agenda[0], steps[n].visit.assets) else 0
  }
}
