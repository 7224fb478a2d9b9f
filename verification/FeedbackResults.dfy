/** What the feedback ledger and the response gate say, in terms of the fields of evidence, touches and
    rows. */
module FeedbackResults {
  import opened Wrappers
  import opened Feedback

  // ----- How a row is resolved -----

  /** Something the attacker of the row did with its asset, not before it was revealed; what has no
      time counts. */
  ghost predicate IsAbout(r: Row, attacker: string, ts: Option<int>, assetId: Option<string>) {
    && attacker == r.attacker
    && assetId == Some(r.assetId)
    && (ts == None || ts.value >= r.ts)
  }

  ghost predicate IsFirstAbout(r: Row, evidence: seq<Evidence>, i: nat) {
    && i < |evidence| && IsAbout(r, evidence[i].attacker, evidence[i].ts, evidence[i].assetId)
    && forall j :: 0 <= j < i ==> !IsAbout(r, evidence[j].attacker, evidence[j].ts, evidence[j].assetId)
  }

  ghost predicate NoEvidenceAbout(r: Row, evidence: seq<Evidence>) {
    forall i :: 0 <= i < |evidence| ==> !IsAbout(r, evidence[i].attacker, evidence[i].ts, evidence[i].assetId)
  }

  ghost predicate SomeTouchAbout(r: Row, touches: seq<Touch>) {
    exists i :: 0 <= i < |touches| && IsAbout(r, touches[i].attacker, touches[i].ts, touches[i].assetId)
  }

  /** The first evidence about the row, if there is any, names a technique or a group, or does not. */
  ghost predicate FirstSays(r: Row, evidence: seq<Evidence>, mapped: bool) {
    exists i: nat :: IsFirstAbout(r, evidence, i) && evidence[i].mapped == mapped
  }

  /** What a pending row comes to. The first evidence about it decides: with a technique or a group it
      is useful, else shallow. Without evidence a touch makes it shallow, and the end of its window
      ignored. */
  ghost predicate ComesTo(r: Row, o: Observation, status: Status) {
    match status
    case Useful => FirstSays(r, o.evidence, true)
    case Shallow =>
      FirstSays(r, o.evidence, false) || (NoEvidenceAbout(r, o.evidence) && SomeTouchAbout(r, o.touches))
    case Ignored =>
      NoEvidenceAbout(r, o.evidence) && !SomeTouchAbout(r, o.touches) && o.now - r.ts > o.window
    case Pending =>
      NoEvidenceAbout(r, o.evidence) && !SomeTouchAbout(r, o.touches) && o.now - r.ts <= o.window
  }

  lemma {:induction false} FirstEvidenceDecides(r: Row, evidence: seq<Evidence>)
    ensures var seen := EvidenceOutcome(r, evidence);
      && (seen == None <==> NoEvidenceAbout(r, evidence))
      && (seen == Some(Useful) <==> FirstSays(r, evidence, true))
      && (seen == Some(Shallow) <==> FirstSays(r, evidence, false))
  {
    if evidence != [] {
      var rest := evidence[1..];
      FirstEvidenceDecides(r, rest);
      var first := IsAbout(r, evidence[0].attacker, evidence[0].ts, evidence[0].assetId);
      if first {
        assert IsFirstAbout(r, evidence, 0);
      } else {
        NoneInRest(r, evidence);
        FirstOfRest(r, evidence, true);
        FirstOfRest(r, evidence, false);
      }
    }
  }

  lemma NoneInRest(r: Row, evidence: seq<Evidence>)
    requires evidence != [] && !IsAbout(r, evidence[0].attacker, evidence[0].ts, evidence[0].assetId)
    ensures NoEvidenceAbout(r, evidence) <==> NoEvidenceAbout(r, evidence[1..])
  {
    var rest := evidence[1..];
    assert forall i :: 0 < i < |evidence| ==> evidence[i] == rest[i - 1];
    assert forall i :: 0 <= i < |rest| ==> rest[i] == evidence[i + 1];
  }

  lemma FirstOfRest(r: Row, evidence: seq<Evidence>, mapped: bool)
    requires evidence != [] && !IsAbout(r, evidence[0].attacker, evidence[0].ts, evidence[0].assetId)
    ensures FirstSays(r, evidence, mapped) <==> FirstSays(r, evidence[1..], mapped)
  {
    var rest := evidence[1..];
    assert forall i :: 0 < i < |evidence| ==> evidence[i] == rest[i - 1];
    if i: nat :| IsFirstAbout(r, evidence, i) && evidence[i].mapped == mapped {
      assert i > 0 && IsFirstAbout(r, rest, i - 1);
    }
    if i: nat :| IsFirstAbout(r, rest, i) && rest[i].mapped == mapped {
      assert IsFirstAbout(r, evidence, i + 1);
    }
  }

  lemma OutcomeIff(r: Row, o: Observation)
    ensures Outcome(r, o) == None <==> ComesTo(r, o, Pending)
    ensures Outcome(r, o) == Some(Useful) <==> ComesTo(r, o, Useful)
    ensures Outcome(r, o) == Some(Shallow) <==> ComesTo(r, o, Shallow)
    ensures Outcome(r, o) == Some(Ignored) <==> ComesTo(r, o, Ignored)
  {
    FirstEvidenceDecides(r, o.evidence);
    assert IsTouched(r, o.touches) <==> SomeTouchAbout(r, o.touches) by {
      assert forall i :: 0 <= i < |o.touches| ==>
        (Touches(o.touches[i], r) <==> IsAbout(r, o.touches[i].attacker, o.touches[i].ts, o.touches[i].assetId));
    }
  }

  /** Main result: after an update every row that was pending has exactly the status it comes to, and
      every other row is as it was. */
  lemma LedgerAfterUpdate(l: Ledger, o: Observation, i: nat)
    requires i < |l.rows|
    ensures |Update(l, o).rows| == |l.rows|
    ensures var before, after := l.rows[i], Update(l, o).rows[i];
      && after == before.(status := after.status)
      && (before.status != Pending ==> after.status == before.status)
      && (before.status == Pending ==> forall status :: after.status == status <==> ComesTo(before, o, status))
  {
    UpdatedRows(l, |l.rows|, o, i);
    OutcomeIff(l.rows[i], o);
  }

  // ----- The response gate -----

  ghost predicate IsOf(r: Row, attacker: string, bindingId: string) {
    r.attacker == attacker && r.bindingId == bindingId
  }

  /** The row says that the asset was shown together with its own. */
  ghost predicate ShowsAsset(r: Row, assetId: string) {
    if r.shown == [] then assetId == r.assetId else assetId in r.shown
  }

  /** Of the rows of a binding this is the newest, and of equally new ones the last. */
  ghost predicate IsNewestOf(rows: seq<Row>, i: nat, attacker: string, bindingId: string) {
    && i < |rows| && IsOf(rows[i], attacker, bindingId)
    && forall j :: 0 <= j < |rows| && IsOf(rows[j], attacker, bindingId) ==>
         rows[j].ts <= rows[i].ts && (j > i ==> rows[j].ts < rows[i].ts)
  }

  /** Revealed together: the same assets, at most five seconds apart. */
  ghost predicate RevealedTogether(a: Row, b: Row) {
    && (forall x :: ShowsAsset(a, x) <==> ShowsAsset(b, x))
    && a.ts - b.ts <= 5_000_000 && b.ts - a.ts <= 5_000_000
  }

  ghost predicate IsAnsweredWith(r: Row, rows: seq<Row>, attacker: string, bindingId: string) {
    exists x :: x in rows && IsOf(x, attacker, bindingId) && RevealedTogether(x, r)
                && (x.status == Useful || x.status == Shallow)
  }

  lemma {:induction false} NewestIsLatest(rows: seq<Row>, i: nat, attacker: string, bindingId: string)
    requires IsNewestOf(rows, i, attacker, bindingId)
    ensures RowsFor(rows, attacker, bindingId) != [] && Latest(RowsFor(rows, attacker, bindingId)) == rows[i]
  {
    var n := |rows| - 1;
    var own := RowsFor(rows[..n], attacker, bindingId);
    LatestOfMore(own, rows[n]);
    if i < n {
      NewestOfFront(rows, i, attacker, bindingId);
      NewestIsLatest(rows[..n], i, attacker, bindingId);
      if IsOf(rows[n], attacker, bindingId) {
        assert RowsFor(rows, attacker, bindingId) == own + [rows[n]];
      } else {
        assert RowsFor(rows, attacker, bindingId) == own;
      }
    } else {
      NoneIsNewer(rows, attacker, bindingId);
      assert RowsFor(rows, attacker, bindingId) == own + [rows[n]];
    }
  }

  lemma LatestOfMore(rows: seq<Row>, r: Row)
    ensures Latest(rows + [r]) == if rows == [] || r.ts >= Latest(rows).ts then r else Latest(rows)
  {
    assert (rows + [r])[..|rows|] == rows;
  }

  lemma NewestOfFront(rows: seq<Row>, i: nat, attacker: string, bindingId: string)
    requires IsNewestOf(rows, i, attacker, bindingId) && i < |rows| - 1
    ensures IsNewestOf(rows[..|rows| - 1], i, attacker, bindingId)
  {
  }

  lemma NoneIsNewer(rows: seq<Row>, attacker: string, bindingId: string)
    requires rows != [] && IsNewestOf(rows, |rows| - 1, attacker, bindingId)
    ensures var own := RowsFor(rows[..|rows| - 1], attacker, bindingId);
      own != [] ==> Latest(own).ts <= rows[|rows| - 1].ts
  {
    var n := |rows| - 1;
    var own := RowsFor(rows[..n], attacker, bindingId);
    if own != [] {
      LatestIsNewest(own);
      RowsForMembers(rows[..n], attacker, bindingId);
      var j :| 0 <= j < n && rows[..n][j] == Latest(own);
      assert rows[j] == Latest(own);
    }
  }

  lemma SameShownIff(a: Row, b: Row)
    ensures ShownSet(a) == ShownSet(b) <==> forall x :: ShowsAsset(a, x) <==> ShowsAsset(b, x)
  {
    assert forall x :: x in ShownSet(a) <==> ShowsAsset(a, x);
    assert forall x :: x in ShownSet(b) <==> ShowsAsset(b, x);
  }

  lemma BatchIsTogether(rows: seq<Row>, i: nat, attacker: string, bindingId: string)
    requires IsNewestOf(rows, i, attacker, bindingId)
    ensures forall x :: x in NewestBatch(rows, attacker, bindingId) <==>
              x in rows && IsOf(x, attacker, bindingId) && RevealedTogether(x, rows[i])
  {
    var own := RowsFor(rows, attacker, bindingId);
    NewestIsLatest(rows, i, attacker, bindingId);
    RowsForMembers(rows, attacker, bindingId);
    BatchMembers(own, rows[i]);
    forall x ensures InBatch(x, rows[i]) <==> RevealedTogether(x, rows[i]) {
      SameShownIff(x, rows[i]);
    }
  }

  /** Main result: when no asset was recorded twice for the binding, the gate is open exactly if a row
      that was revealed together with the newest one was answered, or the profile has an asset that
      the newest one shows among its recent ones. */
  lemma GateIff(l: Ledger, attacker: string, bindingId: string, recent: seq<string>, i: nat)
    requires forall j, k :: 0 <= j < k < |l.rows| ==>
               l.rows[j].bindingId != l.rows[k].bindingId || l.rows[j].assetId != l.rows[k].assetId
    requires IsNewestOf(l.rows, i, attacker, bindingId)
    ensures GateOpen(l, attacker, bindingId, recent) <==>
            || IsAnsweredWith(l.rows[i], l.rows, attacker, bindingId)
            || exists a :: a in recent && ShowsAsset(l.rows[i], a)
  {
    GateIsExact(l, attacker, bindingId, recent);
    NewestIsLatest(l.rows, i, attacker, bindingId);
    BatchIsTogether(l.rows, i, attacker, bindingId);
    var newest := l.rows[i];
    assert (exists x :: x in NewestBatch(l.rows, attacker, bindingId) && Responded(x.status)) <==>
           IsAnsweredWith(newest, l.rows, attacker, bindingId);
    if a :| a in recent && ShowsAsset(newest, a) {
      var k :| 0 <= k < |recent| && recent[k] == a;
      assert recent[k] in ShownSet(newest);
    }
    if k :| 0 <= k < |recent| && recent[k] in ShownSet(newest) {
      assert recent[k] in recent && ShowsAsset(newest, recent[k]);
    }
  }

  /** And a binding for which nothing was revealed finds it open. */
  lemma GateOpensFirst(l: Ledger, attacker: string, bindingId: string, recent: seq<string>)
    requires forall r :: r in l.rows ==> !IsOf(r, attacker, bindingId)
    ensures GateOpen(l, attacker, bindingId, recent)
  {
    NoRowsFor(l.rows, attacker, bindingId);
  }

  lemma {:induction false} NoRowsFor(rows: seq<Row>, attacker: string, bindingId: string)
    requires forall r :: r in rows ==> !IsOf(r, attacker, bindingId)
    ensures RowsFor(rows, attacker, bindingId) == []
  {
    if rows != [] {
      var n := |rows| - 1;
      NoRowsFor(rows[..n], attacker, bindingId);
      assert rows[n] in rows;
    }
  }
}
