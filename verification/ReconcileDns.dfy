/** The DNS half of reconcile (internal/core/reconcile.go): missing, misdirected and stale
    records of one provider, and exactly when one pass leaves nothing to correct. */
module ReconcileDns {
  import opened Model
  import opened Zones
  import opened Planner
  import opened Canonical
  import opened Reconcile

  /** Only a provider with an ownership marker proves all it reports is crenel's. */
  predicate OwnsAll(dp: DnsProvider) {
    dp.kind == Cloudflare
  }

  /** What the zone answers, for presence checks only: foreign records count too where the
      provider's report is filtered by the marker. */
  predicate InCoverage(dp: DnsProvider, e: Entry) {
    e.ours || OwnsAll(dp)
  }

  predicate ExactCoverage(dp: DnsProvider, zone: Zone, rec: Record) {
    exists e :: e in zone && InCoverage(dp, e) && KeyOf(e.rec) == KeyOf(rec) && e.rec.value == rec.value
  }

  predicate IsCoveringEntry(dp: DnsProvider, e: Entry, name: Host) {
    InCoverage(dp, e) && IsWildcard(e.rec.name) && PatternCovers(e.rec.name, name)
  }

  /** The answer of the first wildcard covering a name, own records at the keys in `but` left
      out of account. */
  function AnswerBut(dp: DnsProvider, zone: Zone, name: Host, but: set<Key>): Option<string> {
    if zone == [] then None
    else if IsCoveringEntry(dp, zone[0], name) && !(zone[0].ours && KeyOf(zone[0].rec) in but) then Some(zone[0].rec.value)
    else AnswerBut(dp, zone[1..], name, but)
  }

  /** The answer of the first wildcard covering a name. */
  function CoveringWildcard(dp: DnsProvider, zone: Zone, name: Host): Option<string> {
    AnswerBut(dp, zone, name, {})
  }

  /** A record is demanded at a provider whose zone covers the host, unless the service is
      internal-only and the provider public. */
  predicate Demanded(cfg: Config, dp: DnsProvider, host: Host) {
    Covers(dp, host) && !(dp.scope == Public && cfg.serviceOf(host) in cfg.internal)
  }

  /** Missing: no own record, no exact answer, no covering wildcard with the right answer.
      Misdirected: an own record answering something else, where ownership is proved. */
  predicate Corrects(dp: DnsProvider, zone: Zone, rec: Record) {
    match LastAt(zone, KeyOf(rec))
    case None => !ExactCoverage(dp, zone, rec) && CoveringWildcard(dp, zone, rec.name) != Some(rec.value)
    case Some(cur) => OwnsAll(dp) && cur.value != rec.value
  }

  function DnsAdds(cfg: Config, dp: DnsProvider, zone: Zone, order: seq<Host>): Result<seq<Record>> {
    if order == [] then Ok([])
    else
      var host := order[|order| - 1];
      match DnsAdds(cfg, dp, zone, order[..|order| - 1])
      case Err => Err
      case Ok(rest) =>
        if !Demanded(cfg, dp, host) then Ok(rest)
        else if host == "" then Err
        else Ok(rest + if Corrects(dp, zone, Desired(dp, host)) then [Desired(dp, host)] else [])
  }

  /** An own record in crenel's domain whose host no edge exposes. A record at a demanded key
      has an exposed host's name, so it is never stale. */
  predicate IsStale(cfg: Config, canon: Canon, e: Entry) {
    e.ours && !IsWildcard(e.rec.name) && Managed(cfg, e.rec.name) && (e.rec.name == "" || e.rec.name !in canon)
  }

  function StaleRecords(cfg: Config, canon: Canon, zone: Zone): seq<Record> {
    if zone == [] then []
    else
      var last := zone[|zone| - 1];
      StaleRecords(cfg, canon, zone[..|zone| - 1]) + if IsStale(cfg, canon, last) then [last.rec] else []
  }

  function DnsPass(cfg: Config, canon: Canon, order: seq<Host>, dp: DnsProvider, zone: Zone): Result<DnsChange> {
    match DnsAdds(cfg, dp, zone, order)
    case Err => Err
    case Ok(adds) => Ok(ChangeFor(dp, adds, StaleRecords(cfg, canon, zone)))
  }

  // ----- what a pass adds and removes -----

  predicate Addable(cfg: Config, dp: DnsProvider, zone: Zone, order: seq<Host>, key: Key) {
    key.name in order && Demanded(cfg, dp, key.name) && KeyOf(Desired(dp, key.name)) == key
    && Corrects(dp, zone, Desired(dp, key.name))
  }

  lemma {:induction false} DnsAddsAt(cfg: Config, dp: DnsProvider, zone: Zone, order: seq<Host>, key: Key)
    requires DnsAdds(cfg, dp, zone, order).Ok?
    ensures AddedRecord(DnsAdds(cfg, dp, zone, order).value, key)
         == if Addable(cfg, dp, zone, order, key) then Some(Desired(dp, key.name)) else None
    ensures key.name in order && Demanded(cfg, dp, key.name) ==> key.name != ""
  {
    if order != [] {
      var init, last := order[..|order| - 1], order[|order| - 1];
      DnsAddsAt(cfg, dp, zone, init, key);
      assert key.name in order <==> key.name in init || key.name == last by {
        assert order == init + [last];
      }
      var rest := DnsAdds(cfg, dp, zone, init).value;
      if Demanded(cfg, dp, last) {
        OneMoreAdded(rest, Desired(dp, last), Corrects(dp, zone, Desired(dp, last)), key);
      }
    }
  }

  lemma OneMoreAdded(rest: seq<Record>, r: Record, adds: bool, key: Key)
    ensures AddedRecord(rest + if adds then [r] else [], key)
         == if adds && KeyOf(r) == key then Some(r) else AddedRecord(rest, key)
  {
    assert (rest + [r])[..|rest|] == rest;
    assert rest + [] == rest;
  }

  lemma {:induction false} DnsAddsListed(cfg: Config, dp: DnsProvider, zone: Zone, order: seq<Host>)
    requires DnsAdds(cfg, dp, zone, order).Ok?
    ensures forall r :: r in DnsAdds(cfg, dp, zone, order).value ==>
      r.name in order && r.name != "" && r == Desired(dp, r.name) && Corrects(dp, zone, r)
  {
    if order != [] {
      var init, last := order[..|order| - 1], order[|order| - 1];
      DnsAddsListed(cfg, dp, zone, init);
      assert order == init + [last];
    }
  }

  /** Nothing to do for a host at this provider. */
  predicate InOrder(cfg: Config, dp: DnsProvider, zone: Zone, h: Host) {
    Demanded(cfg, dp, h) ==> h != "" && !Corrects(dp, zone, Desired(dp, h))
  }

  lemma InitOrLast(order: seq<Host>, h: Host)
    requires order != []
    ensures h in order <==> h in order[..|order| - 1] || h == order[|order| - 1]
  {
    assert order == order[..|order| - 1] + [order[|order| - 1]];
  }

  lemma {:induction false} DnsAddsNoneIff(cfg: Config, dp: DnsProvider, zone: Zone, order: seq<Host>)
    ensures DnsAdds(cfg, dp, zone, order) == Ok([]) <==> forall h :: h in order ==> InOrder(cfg, dp, zone, h)
  {
    if order != [] {
      var init, last := order[..|order| - 1], order[|order| - 1];
      DnsAddsNoneIff(cfg, dp, zone, init);
      if DnsAdds(cfg, dp, zone, order) == Ok([]) {
        forall h | h in order ensures InOrder(cfg, dp, zone, h) {
          InitOrLast(order, h);
        }
      } else if DnsAdds(cfg, dp, zone, init) == Ok([]) {
        var none: seq<Record> := [];
        assert none + [] == none;
        assert last in order && !InOrder(cfg, dp, zone, last);
      } else {
        var h :| h in init && !InOrder(cfg, dp, zone, h);
        InitOrLast(order, h);
      }
    }
  }

  lemma {:induction false} StaleListed(cfg: Config, canon: Canon, zone: Zone)
    ensures forall e :: e in zone && IsStale(cfg, canon, e) ==> e.rec in StaleRecords(cfg, canon, zone)
    ensures forall r :: r in StaleRecords(cfg, canon, zone) ==> Entry(r, true) in zone && IsStale(cfg, canon, Entry(r, true))
  {
    if zone != [] {
      var init, last := zone[..|zone| - 1], zone[|zone| - 1];
      StaleListed(cfg, canon, init);
      assert zone == init + [last];
    }
  }

  /** A removal takes no record of an exposed host. */
  lemma RemovesOnlyStale(cfg: Config, canon: Canon, zone: Zone, c: DnsChange, e: Entry)
    requires c.removes == StaleRecords(cfg, canon, zone)
    ensures Removes(c, e) ==> !IsWildcard(e.rec.name) && (e.rec.name == "" || e.rec.name !in canon)
  {
    StaleListed(cfg, canon, zone);
  }

  // ----- what applying a change leaves -----

  lemma {:induction false} WildcardAppend(dp: DnsProvider, a: Zone, b: Zone, name: Host, but: set<Key>)
    ensures AnswerBut(dp, a + b, name, but)
         == if AnswerBut(dp, a, name, but).Some? then AnswerBut(dp, a, name, but) else AnswerBut(dp, b, name, but)
  {
    if a == [] {
      assert a + b == b;
    } else {
      assert (a + b)[1..] == a[1..] + b;
      WildcardAppend(dp, a[1..], b, name, but);
    }
  }

  lemma {:induction false} WildcardRemaining(dp: DnsProvider, zone: Zone, c: DnsChange, name: Host, but: set<Key>)
    requires forall e :: e in zone && Removes(c, e) ==> !IsWildcard(e.rec.name)
    ensures AnswerBut(dp, Remaining(zone, c), name, but) == AnswerBut(dp, zone, name, but)
  {
    if zone != [] {
      assert zone == [zone[0]] + zone[1..];
      WildcardRemaining(dp, zone[1..], c, name, but);
      WildcardAppend(dp, if Removes(c, zone[0]) then [] else [zone[0]], Remaining(zone[1..], c), name, but);
    }
  }

  /** Taking a key's own records away is leaving them out of account. */
  lemma {:induction false} WildcardDisplaced(dp: DnsProvider, zone: Zone, r: Record, name: Host, but: set<Key>)
    ensures AnswerBut(dp, Remaining(zone, DnsChange([], [r])), name, but) == AnswerBut(dp, zone, name, but + {KeyOf(r)})
  {
    if zone != [] {
      var c := DnsChange([], [r]);
      assert HasKey([r], KeyOf(zone[0].rec)) <==> KeyOf(zone[0].rec) == KeyOf(r) by { assert r in [r]; }
      WildcardDisplaced(dp, zone[1..], r, name, but);
      WildcardAppend(dp, if Removes(c, zone[0]) then [] else [zone[0]], Remaining(zone[1..], c), name, but);
      assert [zone[0]][1..] == [];
    }
  }

  function KeysOf(recs: seq<Record>): set<Key> {
    set i | 0 <= i < |recs| :: KeyOf(recs[i])
  }

  predicate CoversIn(dp: DnsProvider, adds: seq<Record>, name: Host, but: set<Key>) {
    exists r :: r in adds && KeyOf(r) !in but && IsCoveringEntry(dp, Entry(r, true), name)
  }

  lemma CoversLast(dp: DnsProvider, init: seq<Record>, last: Record, name: Host, but: set<Key>)
    ensures CoversIn(dp, init + [last], name, but) <==>
      CoversIn(dp, init, name, but + {KeyOf(last)}) || (KeyOf(last) !in but && IsCoveringEntry(dp, Entry(last, true), name))
    ensures CoversIn(dp, init + [last], name, but) <==>
      CoversIn(dp, init, name, but) || (KeyOf(last) !in but && IsCoveringEntry(dp, Entry(last, true), name))
  {
    var adds := init + [last];
    assert last in adds;
    if r :| r in adds && KeyOf(r) !in but && IsCoveringEntry(dp, Entry(r, true), name) {
      assert r in init || r == last;
    }
  }

  lemma KeysLast(init: seq<Record>, last: Record)
    ensures KeysOf(init + [last]) == KeysOf(init) + {KeyOf(last)}
  {
    var adds := init + [last];
    forall k ensures k in KeysOf(adds) <==> k in KeysOf(init) || k == KeyOf(last) {
      if k in KeysOf(init) {
        var i :| 0 <= i < |init| && KeyOf(init[i]) == k;
        assert KeyOf(adds[i]) == k;
      }
      assert KeyOf(adds[|init|]) == KeyOf(last);
    }
  }

  /** Putting records of one answer: what covers a name is the first wildcard not displaced, else
      one put. */
  lemma {:induction false} WildcardPut(dp: DnsProvider, zone: Zone, adds: seq<Record>, name: Host, but: set<Key>, answer: string)
    requires forall r :: r in adds ==> r.value == answer
    ensures AnswerBut(dp, PutRecords(zone, adds), name, but)
         == if AnswerBut(dp, zone, name, but + KeysOf(adds)).Some? then AnswerBut(dp, zone, name, but + KeysOf(adds))
            else if CoversIn(dp, adds, name, but) then Some(answer) else None
  {
    if adds == [] {
      assert but + KeysOf(adds) == but;
    } else {
      var init, last := adds[..|adds| - 1], adds[|adds| - 1];
      assert adds == init + [last];
      var put, k := PutRecords(zone, init), KeyOf(last);
      WildcardPut(dp, zone, init, name, but + {k}, answer);
      WildcardDisplaced(dp, put, last, name, but);
      WildcardAppend(dp, Remaining(put, DnsChange([], [last])), [Entry(last, true)], name, but);
      CoversLast(dp, init, last, name, but);
      KeysLast(init, last);
      assert but + {k} + KeysOf(init) == but + KeysOf(adds);
      assert [Entry(last, true)][1..] == [];
    }
  }

  lemma {:induction false} WildcardAppended(dp: DnsProvider, zone: Zone, adds: seq<Record>, name: Host, answer: string)
    requires forall r :: r in adds ==> r.value == answer
    ensures CoveringWildcard(dp, AppendRecords(zone, adds), name)
         == if CoveringWildcard(dp, zone, name).Some? then CoveringWildcard(dp, zone, name)
            else if CoversIn(dp, adds, name, {}) then Some(answer) else None
  {
    if adds != [] {
      var init, last := adds[..|adds| - 1], adds[|adds| - 1];
      assert adds == init + [last];
      WildcardAppended(dp, zone, init, name, answer);
      WildcardAppend(dp, AppendRecords(zone, init), [Entry(last, true)], name, {});
      CoversLast(dp, init, last, name, {});
      assert [Entry(last, true)][1..] == [];
    }
  }

  // ----- convergence -----

  /** The keys whose own records a change replaces. */
  function Displaced(c: DnsChange): set<Key> {
    if c.DnsChange? then KeysOf(c.adds) else {}
  }

  /** The name resolves rightly by a wildcard alone. */
  predicate ByWildcard(dp: DnsProvider, zone: Zone, rec: Record) {
    LastAt(zone, KeyOf(rec)).None? && !ExactCoverage(dp, zone, rec) && CoveringWildcard(dp, zone, rec.name) == Some(rec.value)
  }

  /** No wildcard with another answer comes first once the change has displaced what it does. */
  predicate StillByWildcard(dp: DnsProvider, zone: Zone, c: DnsChange, rec: Record) {
    AnswerBut(dp, zone, rec.name, Displaced(c)).None? || AnswerBut(dp, zone, rec.name, Displaced(c)) == Some(rec.value)
  }

  ghost predicate WildcardsKept(cfg: Config, canon: Canon, dp: DnsProvider, zone: Zone, c: DnsChange) {
    forall h :: h in canon && Demanded(cfg, dp, h) && ByWildcard(dp, zone, Desired(dp, h)) ==> StillByWildcard(dp, zone, c, Desired(dp, h))
  }

  /** What covers a name after a pass. */
  lemma CoveringAfter(cfg: Config, canon: Canon, order: seq<Host>, dp: DnsProvider, zone: Zone, name: Host)
    requires DnsPass(cfg, canon, order, dp, zone).Ok?
    ensures var c := DnsPass(cfg, canon, order, dp, zone).value;
      CoveringWildcard(dp, ApplyDns(zone, c), name)
      == if AnswerBut(dp, zone, name, Displaced(c)).Some? then AnswerBut(dp, zone, name, Displaced(c))
         else if CoversIn(dp, c.adds, name, {}) then Some(dp.target) else None
  {
    var c := DnsPass(cfg, canon, order, dp, zone).value;
    DnsAddsListed(cfg, dp, zone, order);
    forall e | e in zone && Removes(c, e) ensures !IsWildcard(e.rec.name) {
      RemovesOnlyStale(cfg, canon, zone, c, e);
    }
    WildcardRemaining(dp, zone, c, name, Displaced(c));
    if c.DnsChange? {
      WildcardPut(dp, Remaining(zone, c), c.adds, name, {}, dp.target);
      assert {} + KeysOf(c.adds) == Displaced(c);
    } else {
      WildcardAppended(dp, Remaining(zone, c), c.adds, name, dp.target);
    }
  }

  /** What is displaced under a name is replaced there. */
  lemma {:induction false} DisplacedIsCovered(dp: DnsProvider, zone: Zone, adds: seq<Record>, name: Host)
    requires CoveringWildcard(dp, zone, name).Some?
    ensures AnswerBut(dp, zone, name, KeysOf(adds)) == CoveringWildcard(dp, zone, name)
         || (CoversIn(dp, adds, name, {})
             && exists e :: e in zone && e.ours && KeyOf(e.rec) in KeysOf(adds) && IsCoveringEntry(dp, e, name)
                            && Some(e.rec.value) == CoveringWildcard(dp, zone, name))
  {
    if IsCoveringEntry(dp, zone[0], name) {
      if zone[0].ours && KeyOf(zone[0].rec) in KeysOf(adds) {
        var i :| 0 <= i < |adds| && KeyOf(adds[i]) == KeyOf(zone[0].rec);
        assert adds[i] in adds && IsCoveringEntry(dp, Entry(adds[i], true), name);
        assert zone[0] in zone;
      }
    } else {
      DisplacedIsCovered(dp, zone[1..], adds, name);
      if e :| e in zone[1..] && e.ours && KeyOf(e.rec) in KeysOf(adds) && IsCoveringEntry(dp, e, name)
              && Some(e.rec.value) == CoveringWildcard(dp, zone, name) {
        assert e in zone;
      }
    }
  }

  /** After a pass a demanded host needs no correction if and only if it did not ride a wildcard
      that a wrong one now precedes. */
  lemma RecordSettlesIff(cfg: Config, canon: Canon, order: seq<Host>, dp: DnsProvider, zone: Zone, host: Host)
    requires Lists(order, canon) && DnsPass(cfg, canon, order, dp, zone).Ok? && host in canon && Demanded(cfg, dp, host)
    ensures host != ""
    ensures var c, rec := DnsPass(cfg, canon, order, dp, zone).value, Desired(dp, host);
      !Corrects(dp, ApplyDns(zone, c), rec) <==> (ByWildcard(dp, zone, rec) ==> StillByWildcard(dp, zone, c, rec))
  {
    var c, rec := DnsPass(cfg, canon, order, dp, zone).value, Desired(dp, host);
    var zone', key := ApplyDns(zone, c), KeyOf(rec);
    DnsAddsAt(cfg, dp, zone, order, key);
    forall e | e in zone && Hits(e, key) ensures !Removes(c, e) {
      RemovesOnlyStale(cfg, canon, zone, c, e);
    }
    LastApplied(zone, c, key);
    if !Corrects(dp, zone, rec) && LastAt(zone, key).None? {
      ExactKept(cfg, canon, order, dp, zone, host);
      CoveringAfter(cfg, canon, order, dp, zone, host);
      if ByWildcard(dp, zone, rec) {
        DisplacedIsCovered(dp, zone, c.adds, host);
      }
    }
  }

  /** Exact answers crenel does not own are as they were. */
  lemma ExactKept(cfg: Config, canon: Canon, order: seq<Host>, dp: DnsProvider, zone: Zone, host: Host)
    requires DnsPass(cfg, canon, order, dp, zone).Ok? && LastAt(zone, KeyOf(Desired(dp, host))).None?
    requires AddedRecord(DnsPass(cfg, canon, order, dp, zone).value.adds, KeyOf(Desired(dp, host))).None?
    ensures var rec, zone' := Desired(dp, host), ApplyDns(zone, DnsPass(cfg, canon, order, dp, zone).value);
      ExactCoverage(dp, zone, rec) <==> ExactCoverage(dp, zone', rec)
  {
    var c, rec := DnsPass(cfg, canon, order, dp, zone).value, Desired(dp, host);
    LastAtListed(zone, KeyOf(rec));
    AddedRecordIsListed(c.adds, KeyOf(rec));
    forall e | InCoverage(dp, e) && KeyOf(e.rec) == KeyOf(rec) ensures e in zone <==> e in ApplyDns(zone, c) {
      assert Hits(e, KeyOf(rec)) <==> e.ours;
      AppliedMembers(zone, c, e);
    }
  }

  lemma NothingStale(cfg: Config, canon: Canon, order: seq<Host>, dp: DnsProvider, zone: Zone)
    requires Lists(order, canon) && DnsPass(cfg, canon, order, dp, zone).Ok?
    ensures StaleRecords(cfg, canon, ApplyDns(zone, DnsPass(cfg, canon, order, dp, zone).value)) == []
  {
    var c := DnsPass(cfg, canon, order, dp, zone).value;
    var zone' := ApplyDns(zone, c);
    var left := StaleRecords(cfg, canon, zone');
    StaleListed(cfg, canon, zone);
    StaleListed(cfg, canon, zone');
    DnsAddsListed(cfg, dp, zone, order);
    if left != [] {
      var r := left[0];
      AppliedFrom(zone, c, Entry(r, true));
      if r in c.removes { RemovedIsRemoved(c, Entry(r, true)); }
    }
  }

  lemma {:induction false} DnsAddsOkIff(cfg: Config, dp: DnsProvider, zone: Zone, order: seq<Host>)
    ensures DnsAdds(cfg, dp, zone, order).Ok? <==> forall h :: h in order && Demanded(cfg, dp, h) ==> h != ""
  {
    if order != [] {
      var init, last := order[..|order| - 1], order[|order| - 1];
      DnsAddsOkIff(cfg, dp, zone, init);
      assert order == init + [last];
    }
  }

  /** One pass settles a provider, with the same canonical set in whatever order it is listed, if
      and only if no host that rode a wildcard now meets a wrong one first. */
  lemma DnsConvergesIff(cfg: Config, canon: Canon, order: seq<Host>, order': seq<Host>, dp: DnsProvider, zone: Zone)
    requires Lists(order, canon) && Lists(order', canon) && DnsPass(cfg, canon, order, dp, zone).Ok?
    ensures var c := DnsPass(cfg, canon, order, dp, zone).value;
      var again := DnsPass(cfg, canon, order', dp, ApplyDns(zone, c));
      again.Ok? && (again.value == NoDnsChange <==> WildcardsKept(cfg, canon, dp, zone, c))
  {
    var c := DnsPass(cfg, canon, order, dp, zone).value;
    var zone' := ApplyDns(zone, c);
    NothingStale(cfg, canon, order, dp, zone);
    DnsAddsOkIff(cfg, dp, zone, order);
    DnsAddsOkIff(cfg, dp, zone', order');
    forall h | h in canon && Demanded(cfg, dp, h)
      ensures InOrder(cfg, dp, zone', h) <==> (ByWildcard(dp, zone, Desired(dp, h)) ==> StillByWildcard(dp, zone, c, Desired(dp, h)))
    {
      RecordSettlesIff(cfg, canon, order, dp, zone, h);
    }
    DnsAddsNoneIff(cfg, dp, zone', order');
  }

  /** An own record the pass displaces answered wrongly, unless it is one of several at its key. */
  lemma DisplacedWasWrong(cfg: Config, dp: DnsProvider, zone: Zone, order: seq<Host>, e: Entry)
    requires DnsAdds(cfg, dp, zone, order).Ok? && e in zone && e.ours && KeyOf(e.rec) in KeysOf(DnsAdds(cfg, dp, zone, order).value)
    ensures |OursAt(zone, KeyOf(e.rec))| <= 1 ==> e.rec.value != dp.target
    ensures exists r :: r in DnsAdds(cfg, dp, zone, order).value && r.name == e.rec.name
  {
    hide DnsAdds, ExactCoverage, CoveringWildcard, OursAt, LastAt;
    var adds := DnsAdds(cfg, dp, zone, order).value;
    DnsAddsListed(cfg, dp, zone, order);
    var i :| 0 <= i < |adds| && KeyOf(adds[i]) == KeyOf(e.rec);
    assert adds[i] in adds && Corrects(dp, zone, adds[i]);
    assert Hits(e, KeyOf(e.rec));
    LastAtListed(zone, KeyOf(e.rec));
    OnlyOne(zone, KeyOf(e.rec), e.rec);
  }

  ghost predicate OnePerKey(zone: Zone) {
    forall key :: |OursAt(zone, key)| <= 1
  }

  predicate NoWildcards(recs: seq<Record>) {
    forall r :: r in recs ==> !IsWildcard(r.name)
  }

  /** In particular where the pass adds no wildcard, or no key holds two own records. */
  lemma WildcardsAreKept(cfg: Config, canon: Canon, order: seq<Host>, dp: DnsProvider, zone: Zone)
    requires DnsPass(cfg, canon, order, dp, zone).Ok?
    requires NoWildcards(DnsPass(cfg, canon, order, dp, zone).value.adds) || OnePerKey(zone)
    ensures WildcardsKept(cfg, canon, dp, zone, DnsPass(cfg, canon, order, dp, zone).value)
  {
    hide DnsAdds, ExactCoverage, AnswerBut, LastAt, KeysOf, StaleRecords, Covers;
    var c := DnsPass(cfg, canon, order, dp, zone).value;
    assert c.adds == DnsAdds(cfg, dp, zone, order).value;
    forall h | ByWildcard(dp, zone, Desired(dp, h)) ensures StillByWildcard(dp, zone, c, Desired(dp, h)) {
      DisplacedIsCovered(dp, zone, c.adds, h);
      if AnswerBut(dp, zone, h, KeysOf(c.adds)) != CoveringWildcard(dp, zone, h) {
        var e :| e in zone && e.ours && KeyOf(e.rec) in KeysOf(c.adds) && IsCoveringEntry(dp, e, h)
                 && Some(e.rec.value) == CoveringWildcard(dp, zone, h);
        DisplacedWasWrong(cfg, dp, zone, order, e);
      }
    }
  }

  lemma OnlyOne(zone: Zone, key: Key, r: Record)
    requires Entry(r, true) in zone && KeyOf(r) == key
    ensures |OursAt(zone, key)| <= 1 ==> LastAt(zone, key) == Some(r)
  {
    hide OursAt, LastAt, KeyOf;
    OursAtMembers(zone, key, r);
    LastAtListed(zone, key);
    assert Hits(Entry(r, true), key);
    OursAtMembers(zone, key, LastAt(zone, key).value);
  }
}
