/** Sticky attacker-to-binding records: the service that resolves, refreshes, recycles and extends
    them, over a repository that keeps them as a list. */
module Bindings {
  import opened Wrappers
  import opened Iterables
  import opened ListStore

  datatype BindingStatus = Active | Recycled | Recovered

  datatype Binding = Binding(
    id: string,
    attacker: string,
    status: BindingStatus,
    firstSeen: int,
    lastSeen: int,
    ttlExpires: int,
    unlocked: seq<string>,
    revealed: map<string, seq<string>>)

  function IdOf(b: Binding): string {
    b.id
  }

  /** Both lookups go through a dictionary, in which a later record wins. */
  function FindById(records: seq<Binding>, id: string): (r: Option<Binding>)
    ensures r.Some? ==> r.value in records && r.value.id == id
    ensures r.None? <==> !HasKey(records, IdOf, id)
  {
    if records == [] then None
    else
      var n := |records| - 1;
      if records[n].id == id then Some(records[n])
      else
        assert HasKey(records, IdOf, id) <==> HasKey(records[..n], IdOf, id) by {
          if i :| 0 <= i < |records| && IdOf(records[i]) == id {
            assert IdOf(records[..n][i]) == id;
          }
        }
        FindById(records[..n], id)
  }

  function LatestByAttacker(records: seq<Binding>, attacker: string): (r: Option<Binding>)
    ensures r.Some? ==> r.value in records && r.value.attacker == attacker
    ensures r.None? <==> forall b :: b in records ==> b.attacker != attacker
  {
    if records == [] then None
    else
      var n := |records| - 1;
      assert records == records[..n] + [records[n]];
      if records[n].attacker == attacker then Some(records[n]) else LatestByAttacker(records[..n], attacker)
  }

  // ----- What each operation does to the records -----

  function Refreshed(b: Binding, now: int, ttl: int): Binding {
    b.(status := if b.status.Recycled? then Recovered else Active, lastSeen := now, ttlExpires := now + ttl)
  }

  function Created(id: string, attacker: string, now: int, ttl: int): Binding {
    Binding(id, attacker, Active, now, now, now + ttl, [], map[])
  }

  /** The record `resolve` returns; `freshId` is the identifier generated if one is needed. */
  function Resolved(records: seq<Binding>, attacker: string, now: int, ttl: int, freshId: string): Binding {
    var latest := LatestByAttacker(records, attacker);
    if latest.Some? && latest.value.ttlExpires >= now then Refreshed(latest.value, now, ttl)
    else Created(freshId, attacker, now, ttl)
  }

  function Save(records: seq<Binding>, b: Binding): seq<Binding> {
    Upsert(records, IdOf, b)
  }

  function Beaten(b: Binding, ts: int, ttl: int): Binding {
    b.(status := Active, lastSeen := ts, ttlExpires := ts + ttl)
  }

  function RecycledBinding(b: Binding, hard: bool, now: int, ttl: int): Binding {
    b.(status := Recycled, lastSeen := now, ttlExpires := if hard then now else now + ttl)
  }

  function WithUnlocked(b: Binding, assets: seq<string>, now: int): Binding {
    b.(status := Active, lastSeen := now, unlocked := AppendNew(b.unlocked, assets))
  }

  function WithRevealed(b: Binding, asset: string, configurations: seq<string>, now: int): Binding {
    b.(status := Active, lastSeen := now,
       revealed :=
         b.revealed[asset := AppendNew(if asset in b.revealed then b.revealed[asset] else [], configurations)])
  }

  /** Configurations of several assets, revealed at once. */
  function WithAllRevealed(b: Binding, configurations: seq<(string, seq<string>)>, now: int): Binding {
    if configurations == [] then b.(status := Active, lastSeen := now)
    else
      var n := |configurations| - 1;
      WithRevealed(WithAllRevealed(b, configurations[..n], now), configurations[n].0, configurations[n].1, now)
  }

  lemma OneRevealed(b: Binding, asset: string, configurations: seq<string>, now: int)
    ensures WithAllRevealed(b, [(asset, configurations)], now) == WithRevealed(b, asset, configurations, now)
  {
    assert [(asset, configurations)][..0] == [];
  }

  // ----- What every operation keeps -----

  ghost predicate Wellformed(records: seq<Binding>) {
    && DistinctBy(records, IdOf)
    && (forall b :: b in records ==> NoRepeats(b))
  }

  /** Nothing was unlocked or revealed twice. */
  ghost predicate NoRepeats(b: Binding) {
    Distinct(b.unlocked) && forall k :: k in b.revealed ==> Distinct(b.revealed[k])
  }

  ghost predicate Updates(b: Binding, b': Binding) {
    Extends(b, b') && NoRepeats(b')
  }

  /** `later` is `earlier` after any updates: the same binding of the same attacker, to whose
      reveals only new ones were appended. */
  ghost predicate Extends(earlier: Binding, later: Binding) {
    && later.id == earlier.id && later.attacker == earlier.attacker && later.firstSeen == earlier.firstSeen
    && earlier.unlocked <= later.unlocked
    && forall k :: k in earlier.revealed ==> k in later.revealed && earlier.revealed[k] <= later.revealed[k]
  }

  /** Records are updated where they are and added behind. */
  ghost predicate Grows(before: seq<Binding>, after: seq<Binding>) {
    |before| <= |after| && forall i :: 0 <= i < |before| ==> Extends(before[i], after[i])
  }

  lemma GrowsTransitive(a: seq<Binding>, b: seq<Binding>, c: seq<Binding>)
    requires Grows(a, b) && Grows(b, c)
    ensures Grows(a, c)
  {
    forall i | 0 <= i < |a| ensures Extends(a[i], c[i]) {
      assert Extends(a[i], b[i]) && Extends(b[i], c[i]);
    }
  }

  lemma FindByIdUnique(records: seq<Binding>, i: nat)
    requires DistinctBy(records, IdOf) && i < |records|
    ensures FindById(records, records[i].id) == Some(records[i])
  {
    assert IdOf(records[i]) == records[i].id;
    var r := FindById(records, records[i].id);
    var j :| 0 <= j < |records| && records[j] == r.value;
    assert IdOf(records[j]) == IdOf(records[i]);
  }

  /** What was found before is found afterwards, extended. */
  lemma GrowsFind(before: seq<Binding>, after: seq<Binding>, id: string)
    requires Grows(before, after) && DistinctBy(before, IdOf) && DistinctBy(after, IdOf)
    requires FindById(before, id).Some?
    ensures FindById(after, id).Some? && Extends(FindById(before, id).value, FindById(after, id).value)
  {
    var i :| 0 <= i < |before| && before[i] == FindById(before, id).value;
    assert Extends(before[i], after[i]);
    FindByIdUnique(after, i);
  }

  /** Saving an extension of the stored record keeps everything well-formed and only grows it. */
  lemma SaveGrows(records: seq<Binding>, b: Binding, b': Binding)
    requires Wellformed(records) && FindById(records, b.id) == Some(b) && Updates(b, b')
    ensures Wellformed(Save(records, b')) && Grows(records, Save(records, b'))
    ensures |Save(records, b')| == |records|
    ensures FindById(Save(records, b'), b.id) == Some(b')
    ensures forall i :: 0 <= i < |records| && records[i].id != b.id ==> Save(records, b')[i] == records[i]
  {
    var after := Save(records, b');
    UpsertFrame(records, IdOf, b');
    UpsertKeepsUnique(records, IdOf, b');
    forall i | 0 <= i < |records| ensures Extends(records[i], after[i]) {
      if records[i].id == b.id {
        FindByIdUnique(records, i);
      }
    }
    var i :| 0 <= i < |after| && after[i] == b';
    FindByIdUnique(after, i);
  }

  lemma CreateGrows(records: seq<Binding>, b: Binding)
    requires Wellformed(records) && !HasKey(records, IdOf, b.id)
    requires b.unlocked == [] && b.revealed == map[]
    ensures Save(records, b) == records + [b]
    ensures Wellformed(Save(records, b)) && Grows(records, Save(records, b))
    ensures FindById(Save(records, b), b.id) == Some(b)
  {
    UpsertKeepsUnique(records, IdOf, b);
    assert HasKey(records, IdOf, IdOf(b)) <==> HasKey(records, IdOf, b.id);
    FindByIdUnique(records + [b], |records|);
  }

  lemma StatusUpdates(b: Binding, now: int, ttl: int, hard: bool)
    requires NoRepeats(b)
    ensures Updates(b, Refreshed(b, now, ttl)) && Updates(b, Beaten(b, now, ttl))
    ensures Updates(b, RecycledBinding(b, hard, now, ttl))
  {
  }

  lemma UnlockUpdates(b: Binding, assets: seq<string>, now: int)
    requires NoRepeats(b)
    ensures Updates(b, WithUnlocked(b, assets, now))
  {
    AppendNewDistinct(b.unlocked, assets);
  }

  lemma RevealUpdates(b: Binding, asset: string, configurations: seq<string>, now: int)
    requires NoRepeats(b)
    ensures Updates(b, WithRevealed(b, asset, configurations, now))
  {
    AppendNewDistinct(if asset in b.revealed then b.revealed[asset] else [], configurations);
  }

  lemma {:induction false} AllRevealUpdates(b: Binding, configurations: seq<(string, seq<string>)>, now: int)
    requires NoRepeats(b)
    ensures Updates(b, WithAllRevealed(b, configurations, now))
  {
    if configurations != [] {
      var n := |configurations| - 1;
      AllRevealUpdates(b, configurations[..n], now);
      RevealUpdates(WithAllRevealed(b, configurations[..n], now), configurations[n].0, configurations[n].1, now);
    }
  }

  // ----- Stickiness -----

  lemma {:induction false} LatestIsLast(records: seq<Binding>, attacker: string, i: nat)
    requires i < |records| && records[i].attacker == attacker
    requires forall j :: i < j < |records| ==> records[j].attacker != attacker
    ensures LatestByAttacker(records, attacker) == Some(records[i])
  {
    if i < |records| - 1 {
      LatestIsLast(records[..|records| - 1], attacker, i);
    }
  }

  lemma {:induction false} LatestIndex(records: seq<Binding>, attacker: string) returns (i: nat)
    requires LatestByAttacker(records, attacker).Some?
    ensures i < |records| && LatestByAttacker(records, attacker) == Some(records[i])
    ensures forall j :: i < j < |records| ==> records[j].attacker != attacker
  {
    var n := |records| - 1;
    if records[n].attacker == attacker {
      i := n;
    } else {
      i := LatestIndex(records[..n], attacker);
    }
  }

  /** The record in use for an attacker is the one its records were last extended to. */
  lemma LatestGrows(before: seq<Binding>, after: seq<Binding>, attacker: string)
    requires Grows(before, after) && LatestByAttacker(before, attacker).Some?
    requires forall j :: |before| <= j < |after| ==> after[j].attacker != attacker
    ensures LatestByAttacker(after, attacker).Some?
    ensures Extends(LatestByAttacker(before, attacker).value, LatestByAttacker(after, attacker).value)
  {
    var i := LatestIndex(before, attacker);
    forall j | i < j < |after| ensures after[j].attacker != attacker {
      if j < |before| {
        assert Extends(before[j], after[j]);
      }
    }
    assert Extends(before[i], after[i]);
    LatestIsLast(after, attacker, i);
  }

  /** `resolve` reuses the attacker's most recently created binding as long as it has not expired
      and otherwise creates exactly one, which then is the most recent; either way the record it
      returns is the one in use from then on. */
  lemma ResolveIsSticky(records: seq<Binding>, attacker: string, now: int, ttl: int, freshId: string)
    requires Wellformed(records) && !HasKey(records, IdOf, freshId)
    ensures var r := Resolved(records, attacker, now, ttl, freshId);
      var after := Save(records, r);
      var latest := LatestByAttacker(records, attacker);
      && Wellformed(after) && Grows(records, after)
      && r.attacker == attacker && r.ttlExpires == now + ttl
      && LatestByAttacker(after, attacker) == Some(r) && FindById(after, r.id) == Some(r)
      && (latest.Some? && latest.value.ttlExpires >= now ==>
            r.id == latest.value.id && Extends(latest.value, r) && |after| == |records|
            && (r.status.Recovered? <==> latest.value.status.Recycled?))
      && (latest.None? || latest.value.ttlExpires < now ==>
            r.id == freshId && after == records + [r] && r.unlocked == [] && r.revealed == map[])
      && (forall i :: 0 <= i < |records| && records[i].id != r.id ==> after[i] == records[i])
  {
    var r := Resolved(records, attacker, now, ttl, freshId);
    var latest := LatestByAttacker(records, attacker);
    if latest.Some? && latest.value.ttlExpires >= now {
      var i := LatestIndex(records, attacker);
      FindByIdUnique(records, i);
      StatusUpdates(records[i], now, ttl, false);
      SaveGrows(records, records[i], r);
      var after := Save(records, r);
      LatestGrows(records, after, attacker);
      UpsertFrame(records, IdOf, r);
      LatestIsLast(after, attacker, i) by {
        forall j | i < j < |after| ensures after[j].attacker != attacker {
          assert Extends(records[j], after[j]);
        }
      }
    } else {
      CreateGrows(records, r);
      LatestIsLast(records + [r], attacker, |records|);
    }
  }

  // ----- The repository and the service -----

  class BindingRepository {
    var records: seq<Binding>

    constructor ()
      ensures records == []
    {
      records := [];
    }

    function GetByAttacker(attacker: string): Option<Binding>
      reads this
    {
      LatestByAttacker(records, attacker)
    }

    function GetByBinding(id: string): Option<Binding>
      reads this
    {
      FindById(records, id)
    }

    method Upsert(record: Binding)
      modifies this
      ensures records == Save(old(records), record)
    {
      records := UpsertListItem(records, IdOf, record);
    }
  }

  /** Operations on an unknown binding raise in the source; here they return `None` and leave the
      records alone. */
  class BindingService {
    const repository: BindingRepository
    const ttl: int

    constructor (repository: BindingRepository, ttl: int)
      ensures this.repository == repository && this.ttl == ttl
    {
      this.repository := repository;
      this.ttl := ttl;
    }

    method Resolve(attacker: string, now: int, freshId: string) returns (r: Binding)
      modifies repository
      ensures r == Resolved(old(repository.records), attacker, now, ttl, freshId)
      ensures repository.records == Save(old(repository.records), r)
    {
      var existing := repository.GetByAttacker(attacker);
      if existing.Some? && existing.value.ttlExpires >= now {
        var status := if existing.value.status == Recycled then Recovered else Active;
        r := existing.value.(status := status, lastSeen := now, ttlExpires := now + ttl);
      } else {
        r := Binding(freshId, attacker, Active, now, now, now + ttl, [], map[]);
      }
      repository.Upsert(r);
    }

    method Heartbeat(id: string, ts: int) returns (r: Option<Binding>)
      modifies repository
      ensures var found := FindById(old(repository.records), id);
              if found.None? then r == None && repository.records == old(repository.records)
              else r == Some(Beaten(found.value, ts, ttl))
                   && repository.records == Save(old(repository.records), r.value)
    {
      var existing := repository.GetByBinding(id);
      if existing.None? {
        return None;
      }
      r := Some(existing.value.(status := Active, lastSeen := ts, ttlExpires := ts + ttl));
      repository.Upsert(r.value);
    }

    method Recycle(id: string, hard: bool, now: int) returns (r: Option<Binding>)
      modifies repository
      ensures var found := FindById(old(repository.records), id);
              if found.None? then r == None && repository.records == old(repository.records)
              else r == Some(RecycledBinding(found.value, hard, now, ttl))
                   && repository.records == Save(old(repository.records), r.value)
    {
      var existing := repository.GetByBinding(id);
      if existing.None? {
        return None;
      }
      var expires := if hard then now else now + ttl;
      r := Some(existing.value.(status := Recycled, lastSeen := now, ttlExpires := expires));
      repository.Upsert(r.value);
    }

    method UnlockAssets(id: string, assets: seq<string>, now: int) returns (r: Option<Binding>)
      modifies repository
      ensures var found := FindById(old(repository.records), id);
              if found.None? then r == None && repository.records == old(repository.records)
              else r == Some(WithUnlocked(found.value, assets, now))
                   && repository.records == Save(old(repository.records), r.value)
    {
      var existing := repository.GetByBinding(id);
      if existing.None? {
        return None;
      }
      var unlocked := AppendUnlessPresent(existing.value.unlocked, assets);
      r := Some(existing.value.(status := Active, lastSeen := now, unlocked := unlocked));
      repository.Upsert(r.value);
    }

    /** `configurations` is a dictionary in its order, from assets to configuration ids. */
    method RevealConfigurations(id: string, configurations: seq<(string, seq<string>)>, now: int)
      returns (r: Option<Binding>)
      modifies repository
      ensures var found := FindById(old(repository.records), id);
              if found.None? then r == None && repository.records == old(repository.records)
              else r == Some(WithAllRevealed(found.value, configurations, now))
                   && repository.records == Save(old(repository.records), r.value)
      ensures Wellformed(old(repository.records)) ==>
                Wellformed(repository.records) && Grows(old(repository.records), repository.records)
    {
      var existing := repository.GetByBinding(id);
      if existing.None? {
        return None;
      }
      var b := existing.value.(status := Active, lastSeen := now);
      for i := 0 to |configurations|
        invariant repository.records == old(repository.records)
        invariant b == WithAllRevealed(existing.value, configurations[..i], now)
      {
        assert configurations[..i + 1][..i] == configurations[..i];
        var (asset, ids) := configurations[i];
        var bucket := AppendUnlessPresent(if asset in b.revealed then b.revealed[asset] else [], ids);
        b := b.(revealed := b.revealed[asset := bucket]);
      }
      assert configurations[..|configurations|] == configurations;
      r := Some(b);
      if Wellformed(repository.records) {
        AllRevealUpdates(existing.value, configurations, now);
        SaveGrows(repository.records, existing.value, b);
      }
      repository.Upsert(b);
    }

    static method AppendUnlessPresent(present: seq<string>, more: seq<string>) returns (r: seq<string>)
      ensures r == AppendNew(present, more)
    {
      r := present;
      for i := 0 to |more|
        invariant r == AppendNew(present, more[..i])
      {
        assert more[..i + 1] == more[..i] + [more[i]];
        AppendNewSplit(present, more[..i], [more[i]]);
        if more[i] !in r {
          r := r + [more[i]];
        }
      }
      assert more[..|more|] == more;
    }
  }
}
