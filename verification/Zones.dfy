/** DNS zones as their providers report and change them (internal/model/model.go,
    internal/drivers/dns/adguard/adguard.go:244-274): records, what a change does to them, and
    what is reported at a key afterwards. */
module Zones {
  import opened Model

  /** One record of a provider's zone. `ours` marks those its LiveRecords reports; a provider
      without an ownership marker reports everything. */
  datatype Entry = Entry(rec: Record, ours: bool)

  type Zone = seq<Entry>

  predicate Hits(e: Entry, key: Key) {
    e.ours && KeyOf(e.rec) == key
  }

  /** Some record is reported at the key. */
  predicate Answered(zone: Zone, key: Key) {
    exists e :: e in zone && Hits(e, key)
  }

  // ----- what applying a change means for a DNS provider -----

  /** The reported records a change takes away: those at a removed key, or, where a driver
      names a rewrite by its domain and answer, those with a removed name and value. */
  predicate Removes(c: DnsChange, e: Entry) {
    e.ours && if c.DnsChange? then HasKey(c.removes, KeyOf(e.rec)) else HasAnswer(c.removes, e.rec)
  }

  function Remaining(zone: Zone, c: DnsChange): Zone {
    if zone == [] then []
    else (if Removes(c, zone[0]) then [] else [zone[0]]) + Remaining(zone[1..], c)
  }

  /** By key, an added record takes the place of what is reported there. */
  function PutRecord(zone: Zone, r: Record): Zone {
    Remaining(zone, DnsChange([], [r])) + [Entry(r, true)]
  }

  function PutRecords(zone: Zone, adds: seq<Record>): Zone {
    if adds == [] then zone else PutRecord(PutRecords(zone, adds[..|adds| - 1]), adds[|adds| - 1])
  }

  /** Rewrites are appended. */
  function AppendRecords(zone: Zone, adds: seq<Record>): Zone {
    if adds == [] then zone else AppendRecords(zone, adds[..|adds| - 1]) + [Entry(adds[|adds| - 1], true)]
  }

  /** Removes first, then adds, touching only what the provider reports. */
  function ApplyDns(zone: Zone, c: DnsChange): Zone {
    if c.DnsChange? then PutRecords(Remaining(zone, c), c.adds) else AppendRecords(Remaining(zone, c), c.adds)
  }

  // ----- which records a change leaves -----

  lemma {:induction false} RemainingMembers(zone: Zone, c: DnsChange, e: Entry)
    ensures e in Remaining(zone, c) <==> e in zone && !Removes(c, e)
  {
    if zone != [] {
      RemainingMembers(zone[1..], c, e);
      assert zone == [zone[0]] + zone[1..];
    }
  }

  lemma {:induction false} PutMembers(zone: Zone, adds: seq<Record>, e: Entry)
    ensures e in PutRecords(zone, adds) <==>
      if e.ours && HasKey(adds, KeyOf(e.rec)) then AddedRecord(adds, KeyOf(e.rec)) == Some(e.rec) else e in zone
  {
    if adds != [] {
      var init, last := adds[..|adds| - 1], adds[|adds| - 1];
      PutMembers(zone, init, e);
      RemainingMembers(PutRecords(zone, init), DnsChange([], [last]), e);
      assert adds == init + [last];
      AddedRecordIsListed(init, KeyOf(e.rec));
    }
  }

  lemma {:induction false} AppendMembers(zone: Zone, adds: seq<Record>, e: Entry)
    ensures e in AppendRecords(zone, adds) <==> e in zone || (e.ours && e.rec in adds)
  {
    if adds != [] {
      AppendMembers(zone, adds[..|adds| - 1], e);
      assert adds == adds[..|adds| - 1] + [adds[|adds| - 1]];
    }
  }

  /** Exactly the records a change leaves. */
  lemma AppliedMembers(zone: Zone, c: DnsChange, e: Entry)
    ensures e in ApplyDns(zone, c) <==>
      if c.DnsChange? then
        (if e.ours && HasKey(c.adds, KeyOf(e.rec)) then AddedRecord(c.adds, KeyOf(e.rec)) == Some(e.rec)
         else e in zone && !Removes(c, e))
      else (e in zone && !Removes(c, e)) || (e.ours && e.rec in c.adds)
  {
    RemainingMembers(zone, c, e);
    if c.DnsChange? {
      PutMembers(Remaining(zone, c), c.adds, e);
    } else {
      AppendMembers(Remaining(zone, c), c.adds, e);
    }
  }

  /** What is left was there and not removed, or was added. */
  lemma AppliedFrom(zone: Zone, c: DnsChange, e: Entry)
    requires e in ApplyDns(zone, c)
    ensures (e in zone && !Removes(c, e)) || (e.ours && e.rec in c.adds)
  {
    AppliedMembers(zone, c, e);
    AddedRecordIsListed(c.adds, KeyOf(e.rec));
  }

  lemma RemovedIsRemoved(c: DnsChange, e: Entry)
    requires e.ours && e.rec in c.removes
    ensures Removes(c, e)
  {
    assert KeyOf(e.rec) == KeyOf(e.rec) && SameAnswer(e.rec, e.rec);
  }

  lemma {:induction false} NothingRemoved(zone: Zone, c: DnsChange)
    requires c.removes == []
    ensures Remaining(zone, c) == zone
  {
    if zone != [] {
      NothingRemoved(zone[1..], c);
    }
  }

  /** What applying a change of one record leaves. */
  lemma ApplyOne(zone: Zone, r: Record)
    ensures ApplyDns(zone, DnsChange([r], [])) == Remaining(zone, DnsChange([], [r])) + [Entry(r, true)]
    ensures ApplyDns(zone, DnsChange([], [r])) == Remaining(zone, DnsChange([], [r]))
    ensures ApplyDns(zone, RewriteChange([r], [])) == zone + [Entry(r, true)]
    ensures ApplyDns(zone, RewriteChange([], [r])) == Remaining(zone, RewriteChange([], [r]))
  {
    NothingRemoved(zone, DnsChange([r], []));
    NothingRemoved(zone, RewriteChange([r], []));
    var none: seq<Record> := [];
    assert [r][..0] == none && PutRecords(zone, none) == zone && AppendRecords(zone, none) == zone;
  }

  lemma ApplyNone(zone: Zone, c: DnsChange)
    requires c.adds == [] && c.removes == []
    ensures ApplyDns(zone, c) == zone
  {
    NothingRemoved(zone, c);
  }

  // ----- what is reported at a key -----

  function OursAt(zone: Zone, key: Key): seq<Record> {
    if zone == [] then []
    else (if Hits(zone[0], key) then [zone[0].rec] else []) + OursAt(zone[1..], key)
  }

  /** The last reported record at a key. */
  function LastAt(zone: Zone, key: Key): Option<Record> {
    if zone == [] then None
    else if Hits(zone[|zone| - 1], key) then Some(zone[|zone| - 1].rec)
    else LastAt(zone[..|zone| - 1], key)
  }

  /** The last record reported for a name. */
  function LastByName(zone: Zone, name: Host): Option<Record> {
    if zone == [] then None
    else if zone[|zone| - 1].ours && zone[|zone| - 1].rec.name == name then Some(zone[|zone| - 1].rec)
    else LastByName(zone[..|zone| - 1], name)
  }

  lemma {:induction false} OursAtMembers(zone: Zone, key: Key, r: Record)
    ensures r in OursAt(zone, key) <==> KeyOf(r) == key && Entry(r, true) in zone
  {
    if zone != [] {
      OursAtMembers(zone[1..], key, r);
      assert zone == [zone[0]] + zone[1..];
      assert OursAt(zone, key) == (if Hits(zone[0], key) then [zone[0].rec] else []) + OursAt(zone[1..], key);
    }
  }

  lemma OursAtNone(zone: Zone, key: Key)
    ensures OursAt(zone, key) == [] <==> !Answered(zone, key)
  {
    if OursAt(zone, key) != [] {
      var r := OursAt(zone, key)[0];
      OursAtMembers(zone, key, r);
      assert Hits(Entry(r, true), key);
    }
    if e :| e in zone && Hits(e, key) {
      OursAtMembers(zone, key, e.rec);
    }
  }

  lemma {:induction false} OursAtAppend(a: Zone, b: Zone, key: Key)
    ensures OursAt(a + b, key) == OursAt(a, key) + OursAt(b, key)
  {
    if a == [] {
      assert a + b == b;
    } else {
      assert (a + b)[1..] == a[1..] + b;
      OursAtAppend(a[1..], b, key);
    }
  }

  /** The records at a key stay as they are, or all go. */
  lemma {:induction false} OursAtRemaining(zone: Zone, c: DnsChange, key: Key)
    ensures (forall e :: e in zone && Hits(e, key) ==> !Removes(c, e)) ==> OursAt(Remaining(zone, c), key) == OursAt(zone, key)
    ensures (forall e :: e in zone && Hits(e, key) ==> Removes(c, e)) ==> OursAt(Remaining(zone, c), key) == []
  {
    if zone != [] {
      assert zone == [zone[0]] + zone[1..];
      OursAtRemaining(zone[1..], c, key);
      OursAtAppend(if Removes(c, zone[0]) then [] else [zone[0]], Remaining(zone[1..], c), key);
    }
  }

  lemma {:induction false} LastAtAppend(a: Zone, b: Zone, key: Key)
    ensures LastAt(a + b, key) == if LastAt(b, key).Some? then LastAt(b, key) else LastAt(a, key)
  {
    if b == [] {
      assert a + b == a;
    } else {
      var n := |b| - 1;
      assert (a + b)[..|a + b| - 1] == a + b[..n];
      LastAtAppend(a, b[..n], key);
    }
  }

  lemma {:induction false} LastAtListed(zone: Zone, key: Key)
    ensures LastAt(zone, key).Some? <==> Answered(zone, key)
    ensures LastAt(zone, key).Some? ==> KeyOf(LastAt(zone, key).value) == key && Entry(LastAt(zone, key).value, true) in zone
  {
    if zone != [] {
      var n := |zone| - 1;
      assert zone == zone[..n] + [zone[n]];
      LastAtListed(zone[..n], key);
      if e :| e in zone && Hits(e, key) {
        assert e in zone[..n] || e == zone[n];
      }
      assert Hits(zone[n], key) ==> zone[n] in zone;
      assert Answered(zone[..n], key) ==> Answered(zone, key);
    }
  }

  lemma {:induction false} LastByNameListed(zone: Zone, name: Host)
    ensures LastByName(zone, name).Some? ==>
      LastByName(zone, name).value.name == name && Entry(LastByName(zone, name).value, true) in zone
    ensures LastByName(zone, name).None? <==> forall e :: e in zone && e.ours ==> e.rec.name != name
  {
    if zone != [] {
      var n := |zone| - 1;
      LastByNameListed(zone[..n], name);
      assert zone == zone[..n] + [zone[n]];
      assert zone[n] in zone;
    }
  }

  /** Where removals leave a key's records alone, its last one stays the last. */
  lemma {:induction false} LastAtRemaining(zone: Zone, c: DnsChange, key: Key)
    requires forall e :: e in zone && Hits(e, key) ==> !Removes(c, e)
    ensures LastAt(Remaining(zone, c), key) == LastAt(zone, key)
  {
    if zone != [] {
      assert zone == [zone[0]] + zone[1..];
      LastAtRemaining(zone[1..], c, key);
      LastAtAppend(if Removes(c, zone[0]) then [] else [zone[0]], Remaining(zone[1..], c), key);
      LastAtAppend([zone[0]], zone[1..], key);
      LastAtOne(zone[0], key);
    }
  }

  lemma LastAtOne(e: Entry, key: Key)
    ensures LastAt([e], key) == if Hits(e, key) then Some(e.rec) else None
  {
    assert [e][..0] == [];
  }

  lemma {:induction false} LastPut(zone: Zone, adds: seq<Record>, key: Key)
    ensures LastAt(PutRecords(zone, adds), key)
         == if AddedRecord(adds, key).Some? then AddedRecord(adds, key) else LastAt(zone, key)
    ensures LastAt(AppendRecords(zone, adds), key)
         == if AddedRecord(adds, key).Some? then AddedRecord(adds, key) else LastAt(zone, key)
  {
    if adds != [] {
      var init, last := adds[..|adds| - 1], adds[|adds| - 1];
      LastPut(zone, init, key);
      LastAtAppend(AppendRecords(zone, init), [Entry(last, true)], key);
      LastAtAppend(Remaining(PutRecords(zone, init), DnsChange([], [last])), [Entry(last, true)], key);
      LastAtOne(Entry(last, true), key);
      if KeyOf(last) != key {
        LastAtRemaining(PutRecords(zone, init), DnsChange([], [last]), key);
      }
    }
  }

  /** What is reported last at a key after a change. */
  lemma LastApplied(zone: Zone, c: DnsChange, key: Key)
    ensures AddedRecord(c.adds, key).Some? ==> LastAt(ApplyDns(zone, c), key) == AddedRecord(c.adds, key)
    ensures AddedRecord(c.adds, key).None? ==> LastAt(ApplyDns(zone, c), key) == LastAt(Remaining(zone, c), key)
    ensures AddedRecord(c.adds, key).None? && (forall e :: e in zone && Hits(e, key) ==> !Removes(c, e)) ==>
      LastAt(ApplyDns(zone, c), key) == LastAt(zone, key)
    ensures AddedRecord(c.adds, key).None? && (forall e :: e in zone && Hits(e, key) ==> Removes(c, e)) ==>
      LastAt(ApplyDns(zone, c), key) == None
  {
    LastPut(Remaining(zone, c), c.adds, key);
    if forall e :: e in zone && Hits(e, key) ==> !Removes(c, e) {
      LastAtRemaining(zone, c, key);
    }
    if forall e :: e in zone && Hits(e, key) ==> Removes(c, e) {
      LastAtListed(Remaining(zone, c), key);
      if e :| e in Remaining(zone, c) && Hits(e, key) {
        RemainingMembers(zone, c, e);
      }
    }
  }

  // ----- foreign records -----

  function ForeignOf(zone: Zone): seq<Record> {
    if zone == [] then [] else (if zone[0].ours then [] else [zone[0].rec]) + ForeignOf(zone[1..])
  }

  lemma {:induction false} ForeignAppend(a: Zone, b: Zone)
    ensures ForeignOf(a + b) == ForeignOf(a) + ForeignOf(b)
  {
    if a == [] {
      assert a + b == b;
    } else {
      assert (a + b)[1..] == a[1..] + b;
      ForeignAppend(a[1..], b);
    }
  }

  lemma {:induction false} ForeignRemaining(zone: Zone, c: DnsChange)
    ensures ForeignOf(Remaining(zone, c)) == ForeignOf(zone)
  {
    if zone != [] {
      ForeignRemaining(zone[1..], c);
      ForeignAppend(if Removes(c, zone[0]) then [] else [zone[0]], Remaining(zone[1..], c));
    }
  }

  lemma {:induction false} ForeignPut(zone: Zone, adds: seq<Record>)
    ensures ForeignOf(PutRecords(zone, adds)) == ForeignOf(zone)
    ensures ForeignOf(AppendRecords(zone, adds)) == ForeignOf(zone)
  {
    if adds != [] {
      var init, last := adds[..|adds| - 1], adds[|adds| - 1];
      var mid, one := PutRecords(zone, init), DnsChange([], [last]);
      ForeignPut(zone, init);
      ForeignRemaining(mid, one);
      ForeignAppend(Remaining(mid, one), [Entry(last, true)]);
      ForeignAppend(AppendRecords(zone, init), [Entry(last, true)]);
    }
  }

  /** No change alters a record the provider does not report as its own. */
  lemma ChangeKeepsForeign(zone: Zone, c: DnsChange)
    ensures ForeignOf(ApplyDns(zone, c)) == ForeignOf(zone)
  {
    ForeignRemaining(zone, c);
    ForeignPut(Remaining(zone, c), c.adds);
  }
}
