/** The profiler: mapping an event's tags, storing evidence and rebuilding the attacker's profile. */
module Profiler {
  import opened Wrappers
  import opened Iterables
  import opened Sorting
  import opened Confidence
  import AdaptiveLoop
  import Feedback

  // ----- Tags -----

  const TACTIC_PREFIX := "mitre_"

  predicate IsTacticTag(tag: string) {
    TACTIC_PREFIX <= tag
  }

  /** The ATT&CK catalogue and the pattern of technique names. */
  datatype Catalogue = Catalogue(
    canonical: string -> Option<string>, tacticOf: string -> Option<string>, isTechnique: string -> bool)

  /** What a tactic tag names; an unknown tactic names none. */
  function Named(c: Catalogue, tag: string): Option<string>
    requires IsTacticTag(tag)
  {
    c.canonical(tag[|TACTIC_PREFIX|..])
  }

  /** The tactic that the last tactic tag names. */
  function NearestTactic(c: Catalogue, tags: seq<string>): Option<string> {
    if tags == [] then None
    else
      var n := |tags| - 1;
      if IsTacticTag(tags[n]) then Named(c, tags[n]) else NearestTactic(c, tags[..n])
  }

  datatype Mapping = Mapping(technique: Option<string>, tactic: Option<string>)

  /** Every technique with the nearest tactic before it, or the catalogue's when there is none. */
  function TechniqueMappings(c: Catalogue, tags: seq<string>): seq<Mapping> {
    if tags == [] then []
    else
      var n := |tags| - 1;
      var nearest := NearestTactic(c, tags[..n]);
      TechniqueMappings(c, tags[..n]) +
      if IsTacticTag(tags[n]) || !c.isTechnique(tags[n]) then []
      else [Mapping(Some(tags[n]), if nearest.Some? then nearest else c.tacticOf(tags[n]))]
  }

  function TacticMappings(c: Catalogue, tags: seq<string>): seq<Mapping> {
    if tags == [] then []
    else
      var n := |tags| - 1;
      TacticMappings(c, tags[..n]) +
      if IsTacticTag(tags[n]) && Named(c, tags[n]).Some? then [Mapping(None, Named(c, tags[n]))] else []
  }

  /** Techniques if there are any, else bare tactics, else one mapping that names nothing. */
  function Mappings(c: Catalogue, tags: seq<string>): (r: seq<Mapping>)
    ensures r != []
  {
    var techniques, tactics := Dedupe(TechniqueMappings(c, tags)), Dedupe(TacticMappings(c, tags));
    if techniques != [] then techniques else if tactics != [] then tactics else [Mapping(None, None)]
  }

  method MappingsFromTags(c: Catalogue, tags: seq<string>) returns (r: seq<Mapping>)
    ensures r == Mappings(c, tags)
  {
    var current: Option<string> := None;
    var techniques: seq<Mapping> := [];
    var tactics: seq<Mapping> := [];
    var seen: set<Mapping> := {};
    for i := 0 to |tags|
      invariant current == NearestTactic(c, tags[..i])
      invariant techniques == Dedupe(TechniqueMappings(c, tags[..i])) && tactics == Dedupe(TacticMappings(c, tags[..i]))
      invariant forall m :: m in techniques ==> m.technique.Some?
      invariant forall m :: m in tactics ==> m.technique.None?
      invariant forall m :: m in seen <==> m in techniques || m in tactics
    {
      MappingsStep(c, tags, i);
      var tag := tags[i];
      if !IsTacticTag(tag) {
        if c.isTechnique(tag) {
          var m := Mapping(Some(tag), if current.Some? then current else c.tacticOf(tag));
          if m !in seen {
            techniques := techniques + [m];
            seen := seen + {m};
          }
        }
        continue;
      }
      current := Named(c, tag);
      var m := Mapping(None, current);
      if current.Some? && m !in seen {
        tactics := tactics + [m];
        seen := seen + {m};
      }
    }
    assert tags[..|tags|] == tags;
    r := if techniques != [] then techniques else tactics;
    if r == [] {
      r := [Mapping(None, None)];
    }
  }

  lemma MappingsStep(c: Catalogue, tags: seq<string>, i: nat)
    requires i < |tags|
    ensures var tag, nearest := tags[i], NearestTactic(c, tags[..i]);
      if IsTacticTag(tag)
      then && NearestTactic(c, tags[..i + 1]) == Named(c, tag)
           && TechniqueMappings(c, tags[..i + 1]) == TechniqueMappings(c, tags[..i])
           && Dedupe(TacticMappings(c, tags[..i + 1])) ==
                var before := Dedupe(TacticMappings(c, tags[..i]));
                var m := Mapping(None, Named(c, tag));
                if m.tactic.None? || m in before then before else before + [m]
      else && NearestTactic(c, tags[..i + 1]) == nearest
           && TacticMappings(c, tags[..i + 1]) == TacticMappings(c, tags[..i])
           && Dedupe(TechniqueMappings(c, tags[..i + 1])) ==
                var before := Dedupe(TechniqueMappings(c, tags[..i]));
                var m := Mapping(Some(tag), if nearest.Some? then nearest else c.tacticOf(tag));
                if !c.isTechnique(tag) || m in before then before else before + [m]
  {
    assert tags[..i + 1][..i] == tags[..i];
    var tag, nearest := tags[i], NearestTactic(c, tags[..i]);
    assert TacticMappings(c, tags[..i]) + [] == TacticMappings(c, tags[..i]);
    assert TechniqueMappings(c, tags[..i]) + [] == TechniqueMappings(c, tags[..i]);
    if IsTacticTag(tag) {
      DedupeLast(TacticMappings(c, tags[..i]), Mapping(None, Named(c, tag)));
    } else {
      DedupeLast(TechniqueMappings(c, tags[..i]),
                 Mapping(Some(tag), if nearest.Some? then nearest else c.tacticOf(tag)));
    }
  }

  // ----- Profiles -----

  predicate NotLater(a: Evidence, b: Evidence) {
    a.ts <= b.ts
  }

  lemma NotLaterIsTotalPreorder()
    ensures TotalPreorder(NotLater)
  {
  }

  function Since(evidence: seq<Evidence>, cutoff: int): seq<Evidence> {
    if evidence == [] then []
    else
      var n := |evidence| - 1;
      Since(evidence[..n], cutoff) + if evidence[n].ts >= cutoff then [evidence[n]] else []
  }

  /** The evidence of the window, the latest last. */
  function Recent(stored: seq<Evidence>, window: int): seq<Evidence> {
    var sorted := Sort(stored, NotLater);
    if sorted == [] then [] else Since(sorted, sorted[|sorted| - 1].ts - window)
  }

  function Newest(stored: seq<Evidence>): Option<int> {
    var sorted := Sort(stored, NotLater);
    if sorted == [] then None else Some(sorted[|sorted| - 1].ts)
  }

  function Ids(evidence: seq<Evidence>): (r: seq<string>)
    ensures |r| == |evidence| && forall i :: 0 <= i < |r| ==> r[i] == evidence[i].id
  {
    seq(|evidence|, i requires 0 <= i < |evidence| => evidence[i].id)
  }

  function LastFive(evidence: seq<Evidence>): seq<Evidence> {
    if |evidence| <= 5 then evidence else evidence[|evidence| - 5..]
  }

  datatype Snapshot = Snapshot(
    tacticConfidences: Confidence.Scores, techniqueConfidences: Confidence.Scores,
    tactics: seq<string>, techniques: seq<string>, evidenceIds: seq<string>,
    publicPaths: seq<string>, publicRules: seq<string>, publicIndicators: seq<string>,
    internalPaths: seq<string>, internalRules: seq<string>, internalIndicators: seq<string>, assetIds: seq<string>,
    updatedAt: Option<int>)

  const PUBLIC := Some("public_http")
  const INTERNAL := Some("internal_http")

  /** What a piece of evidence says under a key; with a surface, only if it stems from there. */
  function ValuesIn(e: Evidence, surface: Option<string>, key: string): seq<string> {
    if surface.Some? && ("source" !in e.source || e.source["source"] != Text(surface.value)) then []
    else if key !in e.source then []
    else
      match e.source[key]
      case Texts(values) => values
      case Text(value) => if value == "" then [] else [value]
  }

  function ValuesOf(evidence: seq<Evidence>, surface: Option<string>, key: string): seq<string> {
    if evidence == [] then []
    else
      var n := |evidence| - 1;
      ValuesOf(evidence[..n], surface, key) + ValuesIn(evidence[n], surface, key)
  }

  lemma {:induction false} ValuesMembers(evidence: seq<Evidence>, surface: Option<string>, key: string, x: string)
    ensures x in ValuesOf(evidence, surface, key) <==> exists e :: e in evidence && x in ValuesIn(e, surface, key)
  {
    if evidence != [] {
      var n := |evidence| - 1;
      ValuesMembers(evidence[..n], surface, key, x);
      assert evidence == evidence[..n] + [evidence[n]];
    }
  }

  method CollectValues(evidence: seq<Evidence>, surface: Option<string>, key: string) returns (values: seq<string>)
    ensures values == Dedupe(ValuesOf(evidence, surface, key))
  {
    var all: seq<string> := [];
    for i := 0 to |evidence|
      invariant all == ValuesOf(evidence[..i], surface, key)
    {
      assert evidence[..i + 1][..i] == evidence[..i];
      var e := evidence[i];
      if surface.Some? && ("source" !in e.source || e.source["source"] != Text(surface.value)) {
        continue;
      }
      if key in e.source {
        match e.source[key]
        case Texts(values) => all := all + values;
        case Text(value) =>
          if value != "" {
            all := all + [value];
          }
      }
    }
    assert evidence[..|evidence|] == evidence;
    values := DedupePreserve(all);
  }

  function Rebuilt(fields: seq<string>, stored: seq<Evidence>, window: int, saturate: real -> real): Snapshot {
    var recent := Recent(stored, window);
    Snapshot(Summary(ByTactic(fields, recent), saturate), Summary(ByTechnique(fields, recent), saturate),
             Dedupe(KeysOf(ByTactic(fields, recent))), Dedupe(KeysOf(ByTechnique(fields, recent))),
             Ids(LastFive(recent)),
             Dedupe(ValuesOf(recent, PUBLIC, "http_path")), Dedupe(ValuesOf(recent, PUBLIC, "http_rule_names")),
             Dedupe(ValuesOf(recent, PUBLIC, "http_indicators")),
             Dedupe(ValuesOf(recent, INTERNAL, "http_path")), Dedupe(ValuesOf(recent, INTERNAL, "http_rule_names")),
             Dedupe(ValuesOf(recent, INTERNAL, "http_indicators")), Dedupe(ValuesOf(recent, None, "asset_id")),
             Newest(stored))
  }

  /** The breadcrumbs of a surface are exactly what recent evidence from there says, and the recent
      assets are what any recent evidence names. */
  lemma BreadcrumbsAreObserved(
      fields: seq<string>, stored: seq<Evidence>, window: int, saturate: real -> real, x: string)
    ensures var p, recent := Rebuilt(fields, stored, window, saturate), Recent(stored, window);
      && (x in p.publicPaths <==> exists e :: e in recent && x in ValuesIn(e, PUBLIC, "http_path"))
      && (x in p.publicRules <==> exists e :: e in recent && x in ValuesIn(e, PUBLIC, "http_rule_names"))
      && (x in p.publicIndicators <==> exists e :: e in recent && x in ValuesIn(e, PUBLIC, "http_indicators"))
      && (x in p.internalPaths <==> exists e :: e in recent && x in ValuesIn(e, INTERNAL, "http_path"))
      && (x in p.internalRules <==> exists e :: e in recent && x in ValuesIn(e, INTERNAL, "http_rule_names"))
      && (x in p.internalIndicators <==> exists e :: e in recent && x in ValuesIn(e, INTERNAL, "http_indicators"))
      && (x in p.assetIds <==> exists e :: e in recent && x in ValuesIn(e, None, "asset_id"))
  {
    var recent := Recent(stored, window);
    ValuesMembers(recent, PUBLIC, "http_path", x);
    ValuesMembers(recent, PUBLIC, "http_rule_names", x);
    ValuesMembers(recent, PUBLIC, "http_indicators", x);
    ValuesMembers(recent, INTERNAL, "http_path", x);
    ValuesMembers(recent, INTERNAL, "http_rule_names", x);
    ValuesMembers(recent, INTERNAL, "http_indicators", x);
    ValuesMembers(recent, None, "asset_id", x);
  }

  /** The tactics and techniques listed as recent are exactly those with a confidence, in the same
      order, and a technique is listed exactly when there is recent evidence of it. */
  lemma RecentAreThoseWithConfidence(fields: seq<string>, stored: seq<Evidence>, window: int, saturate: real -> real)
    ensures var p := Rebuilt(fields, stored, window, saturate);
      && |p.techniques| == |p.techniqueConfidences| && |p.tactics| == |p.tacticConfidences|
      && (forall i :: 0 <= i < |p.techniques| ==> p.techniqueConfidences[i].0 == p.techniques[i])
      && (forall i :: 0 <= i < |p.tactics| ==> p.tacticConfidences[i].0 == p.tactics[i])
      && Distinct(p.techniques) && Distinct(p.tactics)
      && (forall t :: t in p.techniques <==> exists e :: e in Recent(stored, window) && e.technique == Some(t))
  {
    var recent := Recent(stored, window);
    AppendNewDistinct([], KeysOf(ByTactic(fields, recent)));
    AppendNewDistinct([], KeysOf(ByTechnique(fields, recent)));
    forall t ensures t in KeysOf(ByTechnique(fields, recent)) <==> exists e :: e in recent && e.technique == Some(t) {
      TechniqueKeys(fields, recent, t);
    }
  }

  /** The profile is as old as the newest evidence that is stored. */
  lemma UpdatedWithNewest(fields: seq<string>, stored: seq<Evidence>, window: int, saturate: real -> real)
    requires stored != []
    ensures var at := Rebuilt(fields, stored, window, saturate).updatedAt;
      && at.Some? && (exists e :: e in stored && e.ts == at.value) && forall e :: e in stored ==> e.ts <= at.value
  {
    var sorted := Sort(stored, NotLater);
    NotLaterIsTotalPreorder();
    SortMembers(stored, NotLater);
    SortSorted(stored, NotLater);
    assert stored[0] in sorted;
    assert sorted[|sorted| - 1] in stored;
    forall e | e in stored ensures e.ts <= sorted[|sorted| - 1].ts {
      var i :| 0 <= i < |sorted| && sorted[i] == e;
      assert i < |sorted| - 1 ==> NotLater(sorted[i], sorted[|sorted| - 1]);
    }
  }

  // ----- Evidence is not missed -----

  /** What is at least as late as everything stored sorts last. */
  lemma SortOfLatest(stored: seq<Evidence>, e: Evidence)
    requires forall x :: x in stored ==> x.ts <= e.ts
    ensures Sort(stored + [e], NotLater) == Sort(stored, NotLater) + [e]
  {
    assert (stored + [e])[..|stored|] == stored;
    var sorted := Sort(stored, NotLater);
    NotLaterIsTotalPreorder();
    SortMembers(stored, NotLater);
    assert |sorted| > 0 ==> sorted[|sorted| - 1] in sorted;
  }

  /** Evidence stored last and not earlier than the rest is among the ids of the rebuilt profile. */
  lemma LatestIsListed(fields: seq<string>, stored: seq<Evidence>, e: Evidence, window: int, saturate: real -> real)
    requires 0 <= window && forall x :: x in stored ==> x.ts <= e.ts
    ensures var ids := Rebuilt(fields, stored + [e], window, saturate).evidenceIds;
      ids != [] && ids[|ids| - 1] == e.id
    ensures e in Recent(stored + [e], window)
  {
    SortOfLatest(stored, e);
    var sorted := Sort(stored, NotLater) + [e];
    assert sorted[..|sorted| - 1] == Sort(stored, NotLater);
    var recent := Recent(stored + [e], window);
    assert recent[|recent| - 1] == e;
    var five := LastFive(recent);
    assert five[|five| - 1] == e;
  }

  lemma LastAddedIsListed(
      fields: seq<string>, stored: seq<Evidence>, added: seq<Evidence>, ts: int, window: int, saturate: real -> real)
    requires added != [] && 0 <= window && forall x :: x in stored ==> x.ts <= ts
    requires forall i :: 0 <= i < |added| ==> added[i].ts == ts
    ensures var ids := Rebuilt(fields, stored + added, window, saturate).evidenceIds;
      ids != [] && ids[|ids| - 1] == added[|added| - 1].id
    ensures added[|added| - 1] in Recent(stored + added, window)
  {
    var n := |added| - 1;
    var before := stored + added[..n];
    assert stored + added == before + [added[n]];
    forall x | x in before ensures x.ts <= added[n].ts {
      if x !in stored {
        var i :| 0 <= i < n && added[i] == x;
      }
    }
    LatestIsListed(fields, before, added[n], window, saturate);
  }

  // ----- The service -----

  /** What an event contributes besides its mappings. */
  datatype Event = Event(ts: int, tags: seq<string>, weight: real, success: bool, source: map<string, Value>)

  function EvidenceFor(
      c: Catalogue, ms: seq<Mapping>, ids: seq<string>, reasons: Mapping -> string, e: Event): (r: seq<Evidence>)
    requires |ids| == |ms|
    ensures |r| == |ms|
    ensures forall i :: 0 <= i < |r| ==>
      && r[i].id == ids[i] && r[i].ts == e.ts && r[i].weight == e.weight && r[i].technique == ms[i].technique
      && r[i].source == e.source && r[i].success == e.success && r[i].reason == reasons(ms[i])
      && r[i].tactic == if ms[i].tactic.Some? then ms[i].tactic
                        else if ms[i].technique.Some? then c.tacticOf(ms[i].technique.value) else None
  {
    seq(|ms|, i requires 0 <= i < |ms| =>
      Evidence(ids[i], e.ts, ms[i].technique,
               if ms[i].tactic.Some? then ms[i].tactic
               else if ms[i].technique.Some? then c.tacticOf(ms[i].technique.value) else None,
               e.weight, e.success, reasons(ms[i]), e.source))
  }

  /** Main result: an event that is not older than what is stored is seen by the next pass of the
      adaptive loop, however many mappings it has and whatever was processed before. */
  lemma IngestIsNoticed(
      fields: seq<string>, c: Catalogue, stored: seq<Evidence>, e: Event, ids: seq<string>, reasons: Mapping -> string,
      window: int, saturate: real -> real, processed: map<string, seq<string>>, attacker: string)
    requires |ids| == |Mappings(c, e.tags)| && 0 <= window && forall x :: x in stored ==> x.ts <= e.ts
    requires forall i :: 0 <= i < |ids| ==> ids[i] !in AdaptiveLoop.ProcessedOf(processed, attacker)
    ensures var added := EvidenceFor(c, Mappings(c, e.tags), ids, reasons, e);
      AdaptiveLoop.HasNewEvidence(processed, attacker, Rebuilt(fields, stored + added, window, saturate).evidenceIds)
  {
    var added := EvidenceFor(c, Mappings(c, e.tags), ids, reasons, e);
    LastAddedIsListed(fields, stored, added, e.ts, window, saturate);
    var listed := Rebuilt(fields, stored + added, window, saturate).evidenceIds;
    assert listed[|listed| - 1] == ids[|added| - 1];
  }

  /** Main result: an event about an asset of the attacker's newest batch opens the response gate. */
  lemma TouchOpensGate(
      fields: seq<string>, c: Catalogue, stored: seq<Evidence>, e: Event, ids: seq<string>, reasons: Mapping -> string,
      window: int, saturate: real -> real, l: Feedback.Ledger, attacker: string, bindingId: string, assetId: string)
    requires |ids| == |Mappings(c, e.tags)| && 0 <= window && forall x :: x in stored ==> x.ts <= e.ts
    requires assetId != "" && "asset_id" in e.source && e.source["asset_id"] == Text(assetId)
    requires var own := Feedback.RowsFor(l.rows, attacker, bindingId);
             own != [] && assetId in Feedback.ShownSet(Feedback.Latest(own))
    ensures var added := EvidenceFor(c, Mappings(c, e.tags), ids, reasons, e);
      Feedback.GateOpen(l, attacker, bindingId, Rebuilt(fields, stored + added, window, saturate).assetIds)
  {
    var added := EvidenceFor(c, Mappings(c, e.tags), ids, reasons, e);
    LastAddedIsListed(fields, stored, added, e.ts, window, saturate);
    var last := added[|added| - 1];
    assert last.source == e.source;
    assert assetId in ValuesIn(last, None, "asset_id");
    ValuesMembers(Recent(stored + added, window), None, "asset_id", assetId);
    var seen := Rebuilt(fields, stored + added, window, saturate).assetIds;
    var i :| 0 <= i < |seen| && seen[i] == assetId;
  }

  function StoredFor<T>(records: map<string, seq<T>>, attacker: string): seq<T> {
    if attacker in records then records[attacker] else []
  }

  class ProfilerService {
    const catalogue: Catalogue
    const window: int
    const saturate: real -> real
    var evidence: map<string, seq<Evidence>>
    var profiles: map<string, Snapshot>

    constructor (catalogue: Catalogue, window: int, saturate: real -> real)
      ensures this.catalogue == catalogue && this.window == window && this.saturate == saturate
      ensures evidence == map[] && profiles == map[]
    {
      this.catalogue, this.window, this.saturate := catalogue, window, saturate;
      evidence, profiles := map[], map[];
    }

    /** Stores the evidence of an event and rebuilds the attacker's profile from all that is stored;
        `ids` are the identifiers generated for it, and `reasons` the texts its rule and output give
        for each mapping. */
    method Ingest(attacker: string, e: Event, ids: seq<string>, reasons: Mapping -> string)
      requires |ids| == |Mappings(catalogue, e.tags)|
      modifies this
      ensures evidence == old(evidence)[attacker :=
        StoredFor(old(evidence), attacker) + EvidenceFor(catalogue, Mappings(catalogue, e.tags), ids, reasons, e)]
      ensures profiles == old(profiles)[attacker := Rebuilt(FINGERPRINT_KEYS, evidence[attacker], window, saturate)]
    {
      var mappings := MappingsFromTags(catalogue, e.tags);
      var added := EvidenceFor(catalogue, mappings, ids, reasons, e);
      evidence := evidence[attacker := (if attacker in evidence then evidence[attacker] else []) + added];
      RebuildProfile(attacker);
    }

    method RebuildProfile(attacker: string)
      requires attacker in evidence
      modifies this`profiles
      ensures profiles == old(profiles)[attacker := Rebuilt(FINGERPRINT_KEYS, evidence[attacker], window, saturate)]
    {
      var recent := Recent(evidence[attacker], window);
      var byTactic, byTechnique := ByTactic(FINGERPRINT_KEYS, recent), ByTechnique(FINGERPRINT_KEYS, recent);
      var tacticConfidences := SummarizeDimension(byTactic, saturate);
      var techniqueConfidences := SummarizeDimension(byTechnique, saturate);
      var tactics := DedupePreserve(KeysOf(byTactic));
      var techniques := DedupePreserve(KeysOf(byTechnique));
      var publicPaths := CollectValues(recent, PUBLIC, "http_path");
      var publicRules := CollectValues(recent, PUBLIC, "http_rule_names");
      var publicIndicators := CollectValues(recent, PUBLIC, "http_indicators");
      var internalPaths := CollectValues(recent, INTERNAL, "http_path");
      var internalRules := CollectValues(recent, INTERNAL, "http_rule_names");
      var internalIndicators := CollectValues(recent, INTERNAL, "http_indicators");
      var assetIds := CollectValues(recent, None, "asset_id");
      profiles := profiles[attacker :=
        Snapshot(tacticConfidences, techniqueConfidences, tactics, techniques, Ids(LastFive(recent)),
                 publicPaths, publicRules, publicIndicators, internalPaths, internalRules, internalIndicators,
                 assetIds, Newest(evidence[attacker]))];
    }
  }
}
