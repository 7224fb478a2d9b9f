/** The reveal feedback ledger: one row for every asset that was revealed, the counters that sum the
    rows up, and the response gate that reads them. Times are in microseconds. */
module Feedback {
  import opened Wrappers

  datatype Status = Pending | Useful | Shallow | Ignored

  datatype Row = Row(
    ts: int, context: string, group: string, bindingId: string, attacker: string, assetId: string,
    shown: seq<string>, status: Status)

  datatype Counters = Counters(revealed: int, useful: int, shallow: int, ignored: int)

  datatype GroupKey = GroupKey(context: string, group: string)

  datatype Ledger = Ledger(contexts: map<GroupKey, Counters>, rows: seq<Row>)

  const NO_FEEDBACK := Ledger(map[], [])

  /** Profiler evidence; `mapped` says whether it names a technique or a group. A time stamp that
      cannot be parsed is absent. */
  datatype Evidence = Evidence(attacker: string, ts: Option<int>, assetId: Option<string>, mapped: bool)

  /** A request that the asset gateway logged. */
  datatype Touch = Touch(attacker: string, ts: Option<int>, assetId: Option<string>)

  datatype Observation = Observation(evidence: seq<Evidence>, touches: seq<Touch>, now: int, window: int)

  function KeyOf(r: Row): GroupKey {
    GroupKey(r.context, r.group)
  }

  // ----- Counters -----

  function CountersOf(contexts: map<GroupKey, Counters>, k: GroupKey): Counters {
    if k in contexts then contexts[k] else Counters(0, 0, 0, 0)
  }

  function WithReveal(contexts: map<GroupKey, Counters>, k: GroupKey): map<GroupKey, Counters> {
    var c := CountersOf(contexts, k);
    contexts[k := c.(revealed := c.revealed + 1)]
  }

  function WithOutcome(contexts: map<GroupKey, Counters>, k: GroupKey, outcome: Status): map<GroupKey, Counters>
    requires !outcome.Pending?
  {
    var c := CountersOf(contexts, k);
    contexts[k := match outcome
                  case Useful => c.(useful := c.useful + 1)
                  case Shallow => c.(shallow := c.shallow + 1)
                  case Ignored => c.(ignored := c.ignored + 1)]
  }

  function Record(l: Ledger, r: Row): Ledger {
    Ledger(WithReveal(l.contexts, KeyOf(r)), l.rows + [r])
  }

  // ----- Outcomes -----

  predicate NotBefore(ts: Option<int>, since: int) {
    ts.Some? ==> ts.value >= since
  }

  predicate Shows(e: Evidence, r: Row) {
    e.attacker == r.attacker && NotBefore(e.ts, r.ts) && e.assetId == Some(r.assetId)
  }

  predicate Touches(t: Touch, r: Row) {
    t.attacker == r.attacker && NotBefore(t.ts, r.ts) && t.assetId == Some(r.assetId)
  }

  predicate IsTouched(r: Row, touches: seq<Touch>) {
    exists i :: 0 <= i < |touches| && Touches(touches[i], r)
  }

  /** The first piece of evidence about the row's asset decides. */
  function EvidenceOutcome(r: Row, evidence: seq<Evidence>): (s: Option<Status>)
    ensures s.Some? ==> Responded(s.value)
  {
    if evidence == [] then None
    else if Shows(evidence[0], r) then Some(if evidence[0].mapped then Useful else Shallow)
    else EvidenceOutcome(r, evidence[1..])
  }

  function Outcome(r: Row, o: Observation): (s: Option<Status>)
    ensures s.Some? ==> !s.value.Pending?
  {
    var seen := EvidenceOutcome(r, o.evidence);
    if seen.Some? then seen
    else if IsTouched(r, o.touches) then Some(Shallow)
    else if o.now - r.ts > o.window then Some(Ignored)
    else None
  }

  function Settle(l: Ledger, i: nat, o: Observation): Ledger
    requires i < |l.rows|
  {
    var r := l.rows[i];
    var outcome := Outcome(r, o);
    if !r.status.Pending? || outcome.None? then l
    else Ledger(WithOutcome(l.contexts, KeyOf(r), outcome.value), l.rows[i := r.(status := outcome.value)])
  }

  function Updated(l: Ledger, n: nat, o: Observation): (l': Ledger)
    requires n <= |l.rows|
    ensures |l'.rows| == |l.rows|
  {
    if n == 0 then l else Settle(Updated(l, n - 1, o), n - 1, o)
  }

  function Update(l: Ledger, o: Observation): Ledger {
    Updated(l, |l.rows|, o)
  }

  /** Row by row, an update resolves the pending rows with an outcome and leaves the others alone. */
  lemma {:induction false} UpdatedRows(l: Ledger, n: nat, o: Observation, i: nat)
    requires n <= |l.rows| && i < |l.rows|
    ensures Updated(l, n, o).rows[i] ==
            if i < n && l.rows[i].status.Pending? && Outcome(l.rows[i], o).Some?
            then l.rows[i].(status := Outcome(l.rows[i], o).value) else l.rows[i]
  {
    if n > 0 {
      UpdatedRows(l, n - 1, o, i);
    }
  }

  lemma {:induction false} EvidenceOutcomeMeaning(r: Row, evidence: seq<Evidence>)
    ensures EvidenceOutcome(r, evidence).None? <==> forall i :: 0 <= i < |evidence| ==> !Shows(evidence[i], r)
    ensures EvidenceOutcome(r, evidence).Some? ==>
              exists i :: 0 <= i < |evidence| && Shows(evidence[i], r)
                && (forall j :: 0 <= j < i ==> !Shows(evidence[j], r))
                && EvidenceOutcome(r, evidence).value == (if evidence[i].mapped then Useful else Shallow)
  {
    if evidence != [] && !Shows(evidence[0], r) {
      var rest := evidence[1..];
      EvidenceOutcomeMeaning(r, rest);
      assert forall i :: 0 < i < |evidence| ==> evidence[i] == rest[i - 1];
      if EvidenceOutcome(r, rest).Some? {
        var i :| 0 <= i < |rest| && Shows(rest[i], r) && (forall j :: 0 <= j < i ==> !Shows(rest[j], r))
                 && EvidenceOutcome(r, rest).value == (if rest[i].mapped then Useful else Shallow);
        assert evidence[i + 1] == rest[i];
      }
    }
  }

  /** A row is ignored only once its window has passed without any sign of its asset, and a useful
      row has evidence with a technique or a group behind it. */
  lemma OutcomesAreEarned(r: Row, o: Observation)
    ensures Outcome(r, o) == Some(Ignored) <==>
              o.now - r.ts > o.window && (forall i :: 0 <= i < |o.evidence| ==> !Shows(o.evidence[i], r))
              && !IsTouched(r, o.touches)
    ensures Outcome(r, o) == Some(Useful) ==>
              exists i :: 0 <= i < |o.evidence| && Shows(o.evidence[i], r) && o.evidence[i].mapped
    ensures Outcome(r, o).None? <==>
              o.now - r.ts <= o.window && (forall i :: 0 <= i < |o.evidence| ==> !Shows(o.evidence[i], r))
              && !IsTouched(r, o.touches)
  {
    EvidenceOutcomeMeaning(r, o.evidence);
  }

  // ----- Conservation -----

  function Count(rows: seq<Row>, k: GroupKey, s: Status): nat {
    if rows == [] then 0
    else
      var n := |rows| - 1;
      Count(rows[..n], k, s) + if KeyOf(rows[n]) == k && rows[n].status == s then 1 else 0
  }

  function CountAll(rows: seq<Row>, k: GroupKey): nat {
    if rows == [] then 0
    else
      var n := |rows| - 1;
      CountAll(rows[..n], k) + if KeyOf(rows[n]) == k then 1 else 0
  }

  /** Every counter is the number of rows it stands for. */
  ghost predicate Conserved(l: Ledger) {
    forall k: GroupKey :: CountersOf(l.contexts, k) ==
      Counters(CountAll(l.rows, k), Count(l.rows, k, Useful), Count(l.rows, k, Shallow), Count(l.rows, k, Ignored))
  }

  lemma {:induction false} StatusesAddUp(rows: seq<Row>, k: GroupKey)
    ensures CountAll(rows, k)
         == Count(rows, k, Pending) + Count(rows, k, Useful) + Count(rows, k, Shallow) + Count(rows, k, Ignored)
  {
    if rows != [] {
      StatusesAddUp(rows[..|rows| - 1], k);
    }
  }

  lemma {:induction false} CountChanged(rows: seq<Row>, i: nat, status: Status, k: GroupKey, s: Status)
    requires i < |rows|
    ensures var after := rows[i := rows[i].(status := status)];
      && CountAll(after, k) == CountAll(rows, k)
      && Count(after, k, s) == Count(rows, k, s)
           - (if KeyOf(rows[i]) == k && rows[i].status == s then 1 else 0)
           + (if KeyOf(rows[i]) == k && status == s then 1 else 0)
  {
    var n := |rows| - 1;
    var after := rows[i := rows[i].(status := status)];
    if i < n {
      CountChanged(rows[..n], i, status, k, s);
      assert after[..n] == rows[..n][i := rows[i].(status := status)];
    } else {
      assert after[..n] == rows[..n];
    }
  }

  lemma SettleConserves(l: Ledger, i: nat, o: Observation)
    requires Conserved(l) && i < |l.rows|
    ensures Conserved(Settle(l, i, o))
  {
    var l' := Settle(l, i, o);
    if l' != l {
      var status := l'.rows[i].status;
      forall k ensures CountersOf(l'.contexts, k) ==
        Counters(CountAll(l'.rows, k), Count(l'.rows, k, Useful), Count(l'.rows, k, Shallow),
                 Count(l'.rows, k, Ignored))
      {
        CountChanged(l.rows, i, status, k, Useful);
        CountChanged(l.rows, i, status, k, Shallow);
        CountChanged(l.rows, i, status, k, Ignored);
      }
    }
  }

  lemma {:induction false} UpdateConserves(l: Ledger, n: nat, o: Observation)
    requires Conserved(l) && n <= |l.rows|
    ensures Conserved(Updated(l, n, o))
  {
    if n > 0 {
      UpdateConserves(l, n - 1, o);
      SettleConserves(Updated(l, n - 1, o), n - 1, o);
    }
  }

  lemma RecordConserves(l: Ledger, r: Row)
    requires Conserved(l) && r.status.Pending?
    ensures Conserved(Record(l, r))
  {
    var l' := Record(l, r);
    assert l'.rows[..|l.rows|] == l.rows;
    forall k ensures CountersOf(l'.contexts, k) ==
      Counters(CountAll(l'.rows, k), Count(l'.rows, k, Useful), Count(l'.rows, k, Shallow), Count(l'.rows, k, Ignored))
    {
      assert CountersOf(l.contexts, k) ==
        Counters(CountAll(l.rows, k), Count(l.rows, k, Useful), Count(l.rows, k, Shallow), Count(l.rows, k, Ignored));
    }
  }

  // ----- How rows change -----

  /** Only a pending row changes, and only its status does. */
  predicate RowSettles(before: Row, after: Row) {
    after == before || (before.status.Pending? && after == before.(status := after.status))
  }

  ghost predicate RowsSettle(before: seq<Row>, after: seq<Row>) {
    |before| == |after| && forall i :: 0 <= i < |before| ==> RowSettles(before[i], after[i])
  }

  /** `after` is `before` with pending rows resolved and new rows behind. */
  ghost predicate Advances(before: Ledger, after: Ledger) {
    |before.rows| <= |after.rows| && RowsSettle(before.rows, after.rows[..|before.rows|])
  }

  lemma AdvancesTransitive(a: Ledger, b: Ledger, c: Ledger)
    requires Advances(a, b) && Advances(b, c)
    ensures Advances(a, c)
  {
    forall i | 0 <= i < |a.rows| ensures RowSettles(a.rows[i], c.rows[..|a.rows|][i]) {
      assert RowSettles(a.rows[i], b.rows[..|a.rows|][i]);
      assert RowSettles(b.rows[i], c.rows[..|b.rows|][i]);
    }
  }

  lemma UpdateAdvances(l: Ledger, o: Observation)
    ensures Advances(l, Update(l, o)) && |Update(l, o).rows| == |l.rows|
  {
    forall i | 0 <= i < |l.rows| ensures RowSettles(l.rows[i], Update(l, o).rows[..|l.rows|][i]) {
      UpdatedRows(l, |l.rows|, o, i);
    }
  }

  // ----- The response gate -----

  const BATCH_WINDOW := 5_000_000

  function ShownSet(r: Row): set<string> {
    if r.shown != [] then set a | a in r.shown else {r.assetId}
  }

  predicate IsFor(r: Row, attacker: string, bindingId: string) {
    r.attacker == attacker && r.bindingId == bindingId
  }

  function RowsFor(rows: seq<Row>, attacker: string, bindingId: string): seq<Row> {
    if rows == [] then []
    else
      var n := |rows| - 1;
      RowsFor(rows[..n], attacker, bindingId) + if IsFor(rows[n], attacker, bindingId) then [rows[n]] else []
  }

  /** The newest row; among equally new ones the one recorded last. */
  function Latest(rows: seq<Row>): Row
    requires rows != []
  {
    var n := |rows| - 1;
    if n == 0 || rows[n].ts >= Latest(rows[..n]).ts then rows[n] else Latest(rows[..n])
  }

  predicate InBatch(r: Row, latest: Row) {
    ShownSet(r) == ShownSet(latest) && -BATCH_WINDOW <= latest.ts - r.ts <= BATCH_WINDOW
  }

  /** The rows that were recorded with the latest one. */
  function Batch(rows: seq<Row>, latest: Row): seq<Row> {
    if rows == [] then []
    else
      var n := |rows| - 1;
      Batch(rows[..n], latest) + if InBatch(rows[n], latest) then [rows[n]] else []
  }

  function Statuses(rows: seq<Row>): map<string, Status> {
    if rows == [] then map[]
    else
      var n := |rows| - 1;
      Statuses(rows[..n])[rows[n].assetId := rows[n].status]
  }

  predicate Responded(s: Status) {
    s.Useful? || s.Shallow?
  }

  predicate AnyResponse(statuses: map<string, Status>) {
    exists a :: a in statuses && Responded(statuses[a])
  }

  function NewestBatch(rows: seq<Row>, attacker: string, bindingId: string): seq<Row> {
    var own := RowsFor(rows, attacker, bindingId);
    if own == [] then [] else Batch(own, Latest(own))
  }

  predicate TouchesNewest(rows: seq<Row>, attacker: string, bindingId: string, recent: seq<string>) {
    var own := RowsFor(rows, attacker, bindingId);
    own != [] && exists i :: 0 <= i < |recent| && recent[i] in ShownSet(Latest(own))
  }

  /** Whether the controller may be asked for another reveal. */
  predicate GateOpen(l: Ledger, attacker: string, bindingId: string, recent: seq<string>) {
    || RowsFor(l.rows, attacker, bindingId) == []
    || AnyResponse(Statuses(NewestBatch(l.rows, attacker, bindingId)))
    || TouchesNewest(l.rows, attacker, bindingId, recent)
  }

  lemma {:induction false} RowsForMembers(rows: seq<Row>, attacker: string, bindingId: string)
    ensures forall r :: r in RowsFor(rows, attacker, bindingId) <==> r in rows && IsFor(r, attacker, bindingId)
  {
    if rows != [] {
      var n := |rows| - 1;
      RowsForMembers(rows[..n], attacker, bindingId);
      assert rows == rows[..n] + [rows[n]];
    }
  }

  lemma {:induction false} LatestIsNewest(rows: seq<Row>)
    requires rows != []
    ensures Latest(rows) in rows && forall r :: r in rows ==> r.ts <= Latest(rows).ts
  {
    var n := |rows| - 1;
    assert rows == rows[..n] + [rows[n]];
    if n > 0 {
      LatestIsNewest(rows[..n]);
    }
  }

  lemma {:induction false} BatchMembers(rows: seq<Row>, latest: Row)
    ensures forall r :: r in Batch(rows, latest) <==> r in rows && InBatch(r, latest)
  {
    if rows != [] {
      var n := |rows| - 1;
      BatchMembers(rows[..n], latest);
      assert rows == rows[..n] + [rows[n]];
    }
  }

  /** The batch always holds the latest row, so it needs no replacement. */
  lemma BatchIsNotEmpty(rows: seq<Row>, attacker: string, bindingId: string)
    requires RowsFor(rows, attacker, bindingId) != []
    ensures Latest(RowsFor(rows, attacker, bindingId)) in NewestBatch(rows, attacker, bindingId)
  {
    var own := RowsFor(rows, attacker, bindingId);
    LatestIsNewest(own);
    BatchMembers(own, Latest(own));
  }

  /** The status under an asset is that of its last row. */
  lemma {:induction false} StatusesAreLast(rows: seq<Row>, a: string)
    ensures a in Statuses(rows) <==> exists i :: 0 <= i < |rows| && rows[i].assetId == a
    ensures forall i ::
              0 <= i < |rows| && rows[i].assetId == a && (forall j :: i < j < |rows| ==> rows[j].assetId != a) ==>
              a in Statuses(rows) && Statuses(rows)[a] == rows[i].status
  {
    if rows != [] {
      var n := |rows| - 1;
      var front := rows[..n];
      StatusesAreLast(front, a);
      assert forall i :: 0 <= i < n ==> front[i] == rows[i];
      if rows[n].assetId != a {
        if i :| 0 <= i < |front| && front[i].assetId == a {
          assert rows[i].assetId == a;
        }
      }
    }
  }

  /** No asset has two rows. */
  ghost predicate OneRowEach(rows: seq<Row>) {
    forall i, j :: 0 <= i < j < |rows| ==> rows[i].assetId != rows[j].assetId
  }

  lemma ResponseMeaning(rows: seq<Row>)
    ensures AnyResponse(Statuses(rows)) ==> exists r :: r in rows && Responded(r.status)
    ensures OneRowEach(rows) && (exists r :: r in rows && Responded(r.status)) ==> AnyResponse(Statuses(rows))
  {
    if AnyResponse(Statuses(rows)) {
      var a :| a in Statuses(rows) && Responded(Statuses(rows)[a]);
      StatusComesFromRow(rows, a);
    }
    if OneRowEach(rows) && exists r :: r in rows && Responded(r.status) {
      var r :| r in rows && Responded(r.status);
      var i :| 0 <= i < |rows| && rows[i] == r;
      StatusesAreLast(rows, r.assetId);
    }
  }

  lemma {:induction false} StatusComesFromRow(rows: seq<Row>, a: string)
    requires a in Statuses(rows)
    ensures exists r :: r in rows && r.assetId == a && r.status == Statuses(rows)[a]
  {
    var n := |rows| - 1;
    if rows[n].assetId != a {
      StatusComesFromRow(rows[..n], a);
      var r :| r in rows[..n] && r.assetId == a && r.status == Statuses(rows[..n])[a];
      assert r in rows;
    } else {
      assert rows[n] in rows;
    }
  }

  /** A batch of which nothing has been answered or touched keeps the gate shut. */
  lemma UnansweredBatchBlocks(l: Ledger, attacker: string, bindingId: string, recent: seq<string>)
    requires RowsFor(l.rows, attacker, bindingId) != []
    requires forall r :: r in NewestBatch(l.rows, attacker, bindingId) ==> r.status.Pending? || r.status.Ignored?
    requires !TouchesNewest(l.rows, attacker, bindingId, recent)
    ensures !GateOpen(l, attacker, bindingId, recent)
  {
    ResponseMeaning(NewestBatch(l.rows, attacker, bindingId));
  }

  lemma {:induction false} RowsForOneEach(rows: seq<Row>, attacker: string, bindingId: string)
    requires UniqueRows(rows)
    ensures OneRowEach(RowsFor(rows, attacker, bindingId))
  {
    if rows != [] {
      var n := |rows| - 1;
      RowsForOneEach(rows[..n], attacker, bindingId);
      RowsForMembers(rows[..n], attacker, bindingId);
      var front := RowsFor(rows[..n], attacker, bindingId);
      forall i | 0 <= i < |front| && IsFor(rows[n], attacker, bindingId) ensures front[i].assetId != rows[n].assetId {
        assert front[i] in front;
        var j :| 0 <= j < n && rows[j] == front[i];
      }
    }
  }

  lemma {:induction false} BatchOneEach(rows: seq<Row>, latest: Row)
    requires OneRowEach(rows)
    ensures OneRowEach(Batch(rows, latest))
  {
    if rows != [] {
      var n := |rows| - 1;
      BatchOneEach(rows[..n], latest);
      BatchMembers(rows[..n], latest);
      var front := Batch(rows[..n], latest);
      forall i | 0 <= i < |front| ensures front[i].assetId != rows[n].assetId {
        assert front[i] in front;
        var j :| 0 <= j < n && rows[j] == front[i];
      }
    }
  }

  /** A binding has at most one row for an asset. */
  ghost predicate UniqueRows(rows: seq<Row>) {
    forall i, j :: 0 <= i < j < |rows| ==>
        !(rows[i].bindingId == rows[j].bindingId && rows[i].assetId == rows[j].assetId)
  }

  /** When no asset was recorded twice for the binding, the gate is open exactly when nothing was
      revealed yet, a row of the newest batch was answered, or one of its assets was touched. */
  lemma GateIsExact(l: Ledger, attacker: string, bindingId: string, recent: seq<string>)
    requires UniqueRows(l.rows)
    ensures GateOpen(l, attacker, bindingId, recent) <==>
      || RowsFor(l.rows, attacker, bindingId) == []
      || (exists r :: r in NewestBatch(l.rows, attacker, bindingId) && Responded(r.status))
      || TouchesNewest(l.rows, attacker, bindingId, recent)
  {
    var own := RowsFor(l.rows, attacker, bindingId);
    RowsForOneEach(l.rows, attacker, bindingId);
    if own != [] {
      BatchOneEach(own, Latest(own));
    }
    ResponseMeaning(NewestBatch(l.rows, attacker, bindingId));
  }

  // ----- What resolving rows does to the gate -----

  lemma {:induction false} RowsForSettle(before: seq<Row>, after: seq<Row>, attacker: string, bindingId: string)
    requires RowsSettle(before, after)
    ensures RowsSettle(RowsFor(before, attacker, bindingId), RowsFor(after, attacker, bindingId))
  {
    if before != [] {
      var n := |before| - 1;
      RowsForSettle(before[..n], after[..n], attacker, bindingId);
      assert RowSettles(before[n], after[n]);
    }
  }

  lemma {:induction false} LatestSettles(before: seq<Row>, after: seq<Row>)
    requires RowsSettle(before, after) && before != []
    ensures RowSettles(Latest(before), Latest(after))
  {
    var n := |before| - 1;
    assert RowSettles(before[n], after[n]);
    if n > 0 {
      LatestSettles(before[..n], after[..n]);
    }
  }

  lemma {:induction false} BatchSettles(before: seq<Row>, after: seq<Row>, latest: Row, latest': Row)
    requires RowsSettle(before, after) && RowSettles(latest, latest')
    ensures RowsSettle(Batch(before, latest), Batch(after, latest'))
  {
    if before != [] {
      var n := |before| - 1;
      BatchSettles(before[..n], after[..n], latest, latest');
      assert RowSettles(before[n], after[n]);
    }
  }

  lemma {:induction false} RowsForOthers(rows: seq<Row>, n: nat, attacker: string, bindingId: string)
    requires n <= |rows| && forall i :: n <= i < |rows| ==> !IsFor(rows[i], attacker, bindingId)
    ensures RowsFor(rows, attacker, bindingId) == RowsFor(rows[..n], attacker, bindingId)
    decreases |rows|
  {
    if n < |rows| {
      RowsForOthers(rows[..|rows| - 1], n, attacker, bindingId);
      assert rows[..|rows| - 1][..n] == rows[..n];
    } else {
      assert rows[..n] == rows;
    }
  }

  /** The newest batch of a binding that gets no new rows stays the newest, with its pending rows
      possibly resolved. */
  lemma NewestBatchStays(before: Ledger, after: Ledger, attacker: string, bindingId: string)
    requires Advances(before, after)
    requires forall i :: |before.rows| <= i < |after.rows| ==> !IsFor(after.rows[i], attacker, bindingId)
    ensures RowsSettle(NewestBatch(before.rows, attacker, bindingId), NewestBatch(after.rows, attacker, bindingId))
    ensures RowsSettle(RowsFor(before.rows, attacker, bindingId), RowsFor(after.rows, attacker, bindingId))
    ensures forall recent :: TouchesNewest(after.rows, attacker, bindingId, recent) <==>
                             TouchesNewest(before.rows, attacker, bindingId, recent)
  {
    var n := |before.rows|;
    RowsForOthers(after.rows, n, attacker, bindingId);
    RowsForSettle(before.rows, after.rows[..n], attacker, bindingId);
    var own, own' := RowsFor(before.rows, attacker, bindingId), RowsFor(after.rows, attacker, bindingId);
    if own != [] {
      LatestSettles(own, own');
      BatchSettles(own, own', Latest(own), Latest(own'));
    }
  }

  // ----- The repository -----

  class FeedbackRepository {
    var contexts: map<GroupKey, Counters>
    var rows: seq<Row>

    constructor ()
      ensures State() == NO_FEEDBACK
    {
      contexts, rows := map[], [];
    }

    function State(): Ledger
      reads this
    {
      Ledger(contexts, rows)
    }

    /** Counts the reveal and appends its row; without a list of revealed assets the row stands for
        its own asset alone. */
    method RecordReveal(
        context: string, group: string, bindingId: string, attacker: string, assetId: string, shown: seq<string>,
        now: int)
      modifies this
      ensures State() == Record(old(State()), Row(now, context, group, bindingId, attacker, assetId,
                                                  if shown == [] then [assetId] else shown, Pending))
    {
      var k := GroupKey(context, group);
      var c := if k in contexts then contexts[k] else Counters(0, 0, 0, 0);
      contexts := contexts[k := c.(revealed := c.revealed + 1)];
      var revealed := if shown == [] then [assetId] else shown;
      rows := rows + [Row(now, context, group, bindingId, attacker, assetId, revealed, Pending)];
    }

    static method FindEvidence(r: Row, evidence: seq<Evidence>) returns (outcome: Option<Status>)
      ensures outcome == EvidenceOutcome(r, evidence)
    {
      for i := 0 to |evidence|
        invariant EvidenceOutcome(r, evidence) == EvidenceOutcome(r, evidence[i..])
      {
        var e := evidence[i];
        if e.attacker != r.attacker || (e.ts.Some? && e.ts.value < r.ts) {
          continue;
        }
        if e.assetId == Some(r.assetId) {
          return Some(if e.mapped then Useful else Shallow);
        }
      }
      return None;
    }

    static method FindTouch(r: Row, touches: seq<Touch>) returns (outcome: Option<Status>)
      ensures outcome == if IsTouched(r, touches) then Some(Shallow) else None
    {
      for i := 0 to |touches|
        invariant forall j :: 0 <= j < i ==> !Touches(touches[j], r)
      {
        var t := touches[i];
        if t.attacker != r.attacker || t.assetId != Some(r.assetId) || (t.ts.Some? && t.ts.value < r.ts) {
          continue;
        }
        assert Touches(touches[i], r);
        return Some(Shallow);
      }
      return None;
    }

    method UpdateFromEvidence(o: Observation)
      modifies this
      ensures State() == Update(old(State()), o)
    {
      for i := 0 to |rows|
        invariant |rows| == |old(rows)|
        invariant State() == Updated(old(State()), i, o)
      {
        if !rows[i].status.Pending? {
          continue;
        }
        var touched := FindEvidence(rows[i], o.evidence);
        if touched.None? {
          touched := FindTouch(rows[i], o.touches);
        }
        var expired := o.now - rows[i].ts > o.window;
        if touched.None? && !expired {
          continue;
        }
        var outcome := touched.GetOr(Ignored);
        contexts := WithOutcome(contexts, KeyOf(rows[i]), outcome);
        rows := rows[i := rows[i].(status := outcome)];
      }
    }
  }
}
