/** The Cloudflare driver does what the engine's model of a DNS provider says: same diff, and,
    once an apply has run to its end, same answers. */
module CloudflareRefines {
  import opened Model
  import opened Zones
  import opened Planner
  import opened Cloudflare
  import opened CloudflareRuns

  /** The zone as the engine models it. */
  function Abs(s: Settings, all: seq<CfRecord>): Zone {
    seq(|all|, i requires 0 <= i < |all| => Entry(ToModel(s, all[i]), Owned(all[i])))
  }

  /** The server holds fully-qualified names. */
  ghost predicate Qualified(s: Settings, all: seq<CfRecord>) {
    forall r :: r in all ==> s.qualify(r.name) == r.name
  }

  ghost predicate QualifiedKey(s: Settings, key: Key) {
    s.qualify(key.name) == key.name && key.scope == s.scope
  }

  lemma {:induction false} OursRefines(s: Settings, all: seq<CfRecord>, key: Key)
    requires Qualified(s, all) && QualifiedKey(s, key)
    ensures OursAt(Abs(s, all), key) == ToModels(s, Ours(s, all, key.name, key.rtype))
  {
    if all != [] {
      assert all == [all[0]] + all[1..];
      OursRefines(s, all[1..], key);
      assert Abs(s, all)[1..] == Abs(s, all[1..]);
      PickRefines(s, all[0], key);
      ToModelsAppend(s, Pick(s, all[0], key.name, key.rtype, true), Ours(s, all[1..], key.name, key.rtype));
    }
  }

  lemma PickRefines(s: Settings, r: CfRecord, key: Key)
    requires s.qualify(r.name) == r.name && QualifiedKey(s, key)
    ensures (if Hits(Entry(ToModel(s, r), Owned(r)), key) then [ToModel(s, r)] else [])
         == ToModels(s, Pick(s, r, key.name, key.rtype, true))
  {
  }

  lemma ToModelsAppend(s: Settings, a: seq<CfRecord>, b: seq<CfRecord>)
    ensures ToModels(s, a + b) == ToModels(s, a) + ToModels(s, b)
  {
  }

  lemma TheirsRefines(s: Settings, all: seq<CfRecord>, key: Key)
    requires Qualified(s, all) && QualifiedKey(s, key)
    ensures ForeignAt(Abs(s, all), key) <==> Theirs(s, all, key.name, key.rtype) != []
  {
    var theirs, zone := Theirs(s, all, key.name, key.rtype), Abs(s, all);
    PartListed(s, all, key.name, key.rtype, false);
    if theirs != [] {
      assert theirs[0] in theirs;
      var i :| 0 <= i < |all| && all[i] == theirs[0];
      assert !zone[i].ours && KeyOf(zone[i].rec) == key;
    }
    if ForeignAt(zone, key) {
      var i :| 0 <= i < |zone| && !zone[i].ours && KeyOf(zone[i].rec) == key;
      assert all[i] in all && all[i] in theirs;
    }
  }

  /** The driver's diff is the one the engine plans with. */
  lemma DiffRefines(s: Settings, all: seq<CfRecord>, verb: Verb, want: Record)
    requires Qualified(s, all) && QualifiedKey(s, KeyOf(want)) && Guarded(s, want.name)
    ensures Diff(s, all, verb, want) == CloudflareDiff(verb, Abs(s, all), want)
  {
    OursRefines(s, all, KeyOf(want));
    TheirsRefines(s, all, KeyOf(want));
  }

  // ----- applying -----

  function Values(rs: seq<Record>): seq<string> {
    seq(|rs|, i requires 0 <= i < |rs| => rs[i].value)
  }

  /** The values crenel's records answer at a key. */
  function Answers(zone: Zone, key: Key): seq<string> {
    Values(OursAt(zone, key))
  }

  lemma {:induction false} ReplaceAbsent(all: seq<CfRecord>, id: nat, r: CfRecord)
    requires forall q :: q in all ==> q.id != id
    ensures ReplaceId(all, id, r) == all
  {
    assert forall i :: 0 <= i < |all| ==> all[i] in all;
  }

  lemma AnswersOf(s: Settings, all: seq<CfRecord>, key: Key)
    requires Qualified(s, all) && QualifiedKey(s, key)
    ensures |Answers(Abs(s, all), key)| == |Ours(s, all, key.name, key.rtype)|
    ensures forall i :: 0 <= i < |Ours(s, all, key.name, key.rtype)| ==>
      Answers(Abs(s, all), key)[i] == Ours(s, all, key.name, key.rtype)[i].content
  {
    OursRefines(s, all, key);
  }

  /** What the engine's model leaves after writing or dropping one record. */
  lemma ModelAnswers(zone: Zone, want: Record, key: Key)
    ensures Answers(ApplyDns(zone, DnsChange([want], [])), key) == if key == KeyOf(want) then [want.value] else Answers(zone, key)
  {
    ApplyOne(zone, want);
    OneKeyRemains(zone, want);
    OursAtAppend(Remaining(zone, DnsChange([], [want])), [Entry(want, true)], key);
    assert OursAt([Entry(want, true)][1..], key) == [];
  }

  lemma CreateRefines(s: Settings, z: CfZone, want: Record, key: Key)
    requires Lawful(s) && Qualified(s, z.records) && QualifiedKey(s, KeyOf(want)) && QualifiedKey(s, key)
    requires Ours(s, z.records, want.name, want.rtype) == []
    ensures var now := z.records + [Fresh(s, want, z.next)];
      Qualified(s, now) && Answers(Abs(s, now), key) == Answers(ApplyDns(Abs(s, z.records), DnsChange([want], [])), key)
  {
    var added := Fresh(s, want, z.next);
    ModelAnswers(Abs(s, z.records), want, key);
    FreshIsOwned(s, want, z.next);
    PartAppend(s, z.records, [added], key.name, key.rtype, true);
    PartOne(s, added, key.name, key.rtype);
    AnswersOf(s, z.records, key);
    AnswersOf(s, z.records + [added], key);
  }

  lemma UpdateRefines(s: Settings, z: CfZone, target: CfRecord, want: Record, key: Key)
    requires IdsUnique(z) && Lawful(s) && Qualified(s, z.records) && QualifiedKey(s, KeyOf(want)) && QualifiedKey(s, key)
    requires Ours(s, z.records, want.name, want.rtype) == [target]
    ensures var now := ReplaceId(z.records, target.id, Rewritten(s, target, want));
      Qualified(s, now) && Answers(Abs(s, now), key) == Answers(ApplyDns(Abs(s, z.records), DnsChange([want], [])), key)
  {
    var r := Rewritten(s, target, want);
    var now := ReplaceId(z.records, target.id, r);
    ModelAnswers(Abs(s, z.records), want, key);
    PartListed(s, z.records, want.name, want.rtype, true);
    assert target in Ours(s, z.records, want.name, want.rtype);
    OwnedStays(s, target, want);
    forall q | q in z.records && q.id == target.id ensures q == target {
      SameIdSame(z, q, target);
    }
    PartReplaced(s, z.records, target.id, r, key.name, key.rtype);
    forall q | q in now ensures s.qualify(q.name) == q.name {
      var i :| 0 <= i < |now| && now[i] == q;
      assert z.records[i] in z.records;
    }
    AnswersOf(s, z.records, key);
    AnswersOf(s, now, key);
    if key != KeyOf(want) {
      PartListed(s, z.records, key.name, key.rtype, true);
      ReplaceAbsent(Ours(s, z.records, key.name, key.rtype), target.id, r);
    }
  }

  /** An expose that ran to its end leaves, at every key, the answers the engine's model says,
      and the foreign records it says. */
  lemma ExposeRefines(s: Settings, z: CfZone, want: Record, script: nat -> Answer, c: DnsChange, key: Key)
    requires IdsUnique(z) && Lawful(s) && Qualified(s, z.records) && QualifiedKey(s, KeyOf(want)) && QualifiedKey(s, key)
    requires Diff(s, z.records, Expose, want) == Ok(c)
    requires Run(s, z, Calls(s, z.records, c), script, |Calls(s, z.records, c)|).1
    ensures var now := Run(s, z, Calls(s, z.records, c), script, |Calls(s, z.records, c)|).0.records;
      && Qualified(s, now)
      && Answers(Abs(s, now), key) == Answers(ApplyDns(Abs(s, z.records), c), key)
      && ForeignOf(Abs(s, now)) == ForeignOf(ApplyDns(Abs(s, z.records), c))
  {
    hide Owned, Qualified, QualifiedKey, Lawful, IdsUnique;
    ChangeKeepsForeign(Abs(s, z.records), c);
    ForeignUntouched(s, z, c, script, |Calls(s, z.records, c)|);
    ForeignAbs(s, z.records);
    ForeignAbs(s, Run(s, z, Calls(s, z.records, c), script, |Calls(s, z.records, c)|).0.records);
    if c == NoDnsChange {
      ApplyNone(Abs(s, z.records), c);
      assert Calls(s, z.records, c) == [];
    } else {
      OneAdd(s, z.records, want);
      var call := AddCall(s, z.records, want);
      assert Run(s, z, [call], script, 0) == (z, true);
      if call.Create? {
        CreateRefines(s, z, want, key);
      } else {
        UpdateRefines(s, z, call.target, want, key);
      }
    }
  }

  lemma {:induction false} DropAbsent(all: seq<CfRecord>, id: nat)
    requires forall q :: q in all ==> q.id != id
    ensures DropId(all, id) == all
  {
    if all != [] {
      assert all[0] in all && forall q :: q in all[1..] ==> q in all;
      DropAbsent(all[1..], id);
    }
  }

  lemma {:induction false} DropListed(all: seq<CfRecord>, id: nat)
    ensures forall q :: q in DropId(all, id) ==> q in all
  {
    if all != [] {
      DropListed(all[1..], id);
      assert all == [all[0]] + all[1..];
    }
  }

  lemma DeleteRefines(s: Settings, z: CfZone, target: CfRecord, want: Record, key: Key)
    requires IdsUnique(z) && Qualified(s, z.records) && QualifiedKey(s, KeyOf(want)) && QualifiedKey(s, key)
    requires Ours(s, z.records, want.name, want.rtype) == [target]
    ensures var now := DropId(z.records, target.id);
      Qualified(s, now) && Answers(Abs(s, now), key) == Answers(ApplyDns(Abs(s, z.records), DnsChange([], [ToModel(s, target)])), key)
  {
    hide Owned, Qualified;
    var now, zone, gone := DropId(z.records, target.id), Abs(s, z.records), ToModel(s, target);
    PartListed(s, z.records, want.name, want.rtype, true);
    assert target in Ours(s, z.records, want.name, want.rtype);
    assert KeyOf(gone) == KeyOf(want) by { QualifiedThere(s, z.records, target); }
    ApplyOne(zone, gone);
    OneKeyRemains(zone, gone);
    PartDropped(s, z.records, target.id, key.name, key.rtype);
    DropListed(z.records, target.id);
    StillQualified(s, z.records, now);
    AnswersOf(s, z.records, key);
    AnswersOf(s, now, key);
    if key == KeyOf(want) {
      assert DropId([target], target.id) == [] by { assert [target][1..] == []; }
    } else {
      PartListed(s, z.records, key.name, key.rtype, true);
      forall q | q in Ours(s, z.records, key.name, key.rtype) ensures q.id != target.id {
        if q.id == target.id {
          SameIdSame(z, q, target);
        }
      }
      DropAbsent(Ours(s, z.records, key.name, key.rtype), target.id);
    }
  }

  lemma QualifiedThere(s: Settings, all: seq<CfRecord>, r: CfRecord)
    requires Qualified(s, all) && r in all
    ensures s.qualify(r.name) == r.name
  {
  }

  lemma StillQualified(s: Settings, all: seq<CfRecord>, part: seq<CfRecord>)
    requires Qualified(s, all) && forall q :: q in part ==> q in all
    ensures Qualified(s, part)
  {
  }

  /** An unexpose that ran to its end, which one of several owned records never does, leaves the
      answers and the foreign records the engine's model says too. */
  lemma UnexposeRefines(s: Settings, z: CfZone, want: Record, script: nat -> Answer, c: DnsChange, key: Key)
    requires IdsUnique(z) && Qualified(s, z.records) && QualifiedKey(s, KeyOf(want)) && QualifiedKey(s, key)
    requires Diff(s, z.records, Unexpose, want) == Ok(c)
    requires Run(s, z, Calls(s, z.records, c), script, |Calls(s, z.records, c)|).1
    ensures var now := Run(s, z, Calls(s, z.records, c), script, |Calls(s, z.records, c)|).0.records;
      && Qualified(s, now)
      && Answers(Abs(s, now), key) == Answers(ApplyDns(Abs(s, z.records), c), key)
      && ForeignOf(Abs(s, now)) == ForeignOf(ApplyDns(Abs(s, z.records), c))
  {
    hide Owned, Qualified, QualifiedKey, IdsUnique, Guarded, Sendable;
    var ours := Ours(s, z.records, want.name, want.rtype);
    ChangeKeepsForeign(Abs(s, z.records), c);
    ForeignUntouched(s, z, c, script, |Calls(s, z.records, c)|);
    ForeignAbs(s, z.records);
    ForeignAbs(s, Run(s, z, Calls(s, z.records, c), script, |Calls(s, z.records, c)|).0.records);
    if |ours| >= 2 {
      UnexposeSeveralFails(s, z, want, script, c);
    } else {
      UnexposeCalls(s, z.records, want, c);
      if ours == [] {
        NoCallRun(s, z, [], script);
        ApplyNone(Abs(s, z.records), c);
      } else {
        OneCallRun(s, z, Delete(ours[0]), script);
        assert DeleteCalls(ours) == [Delete(ours[0])];
        assert ours == [ours[0]] && c == DnsChange([], [ToModel(s, ours[0])]);
        DeleteRefines(s, z, ours[0], want, key);
      }
    }
  }

  lemma {:induction false} ForeignAbs(s: Settings, all: seq<CfRecord>)
    ensures ForeignOf(Abs(s, all)) == ToModels(s, Foreign(all))
  {
    if all != [] {
      assert Abs(s, all)[1..] == Abs(s, all[1..]);
      ForeignAbs(s, all[1..]);
      ToModelsAppend(s, if Owned(all[0]) then [] else [all[0]], Foreign(all[1..]));
    }
  }
}
