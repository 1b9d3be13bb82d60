/** Whole runs of the Cloudflare driver (internal/drivers/dns/cloudflare/cloudflare.go): one
    owned record per name and type, idempotence, and sequences of diff and apply. */
module CloudflareRuns {
  import opened Model
  import opened Planner
  import opened Cloudflare

  // ----- one owned record per name and type -----

  ghost predicate AtMostOne(s: Settings, z: CfZone) {
    forall name, rtype :: |Ours(s, z.records, name, rtype)| <= 1
  }

  predicate CreatesAt(s: Settings, call: Call, name: Host, rtype: string) {
    call.Create? && s.qualify(call.rec.name) == s.qualify(name) && call.rec.rtype == rtype
  }

  /** How many records a prefix of the calls creates at a name and type. */
  function Creates(s: Settings, calls: seq<Call>, name: Host, rtype: string): nat {
    if calls == [] then 0
    else Creates(s, calls[..|calls| - 1], name, rtype) + if CreatesAt(s, calls[|calls| - 1], name, rtype) then 1 else 0
  }

  lemma {:induction false} PartAppend(s: Settings, a: seq<CfRecord>, b: seq<CfRecord>, name: Host, rtype: string, ours: bool)
    ensures Part(s, a + b, name, rtype, ours) == Part(s, a, name, rtype, ours) + Part(s, b, name, rtype, ours)
  {
    if a == [] {
      assert a + b == b;
    } else {
      assert (a + b)[1..] == a[1..] + b;
      PartAppend(s, a[1..], b, name, rtype, ours);
    }
  }

  lemma PartOne(s: Settings, r: CfRecord, name: Host, rtype: string)
    ensures Ours(s, [r], name, rtype) == Pick(s, r, name, rtype, true)
  {
    assert Part(s, [r][1..], name, rtype, true) == [];
  }

  lemma {:induction false} PartDropped(s: Settings, all: seq<CfRecord>, id: nat, name: Host, rtype: string)
    ensures Ours(s, DropId(all, id), name, rtype) == DropId(Ours(s, all, name, rtype), id)
  {
    if all != [] {
      PartDropped(s, all[1..], id, name, rtype);
      PartAppend(s, if all[0].id == id then [] else [all[0]], DropId(all[1..], id), name, rtype, true);
      DropAppend(Pick(s, all[0], name, rtype, true), Ours(s, all[1..], name, rtype), id);
      PartOne(s, all[0], name, rtype);
    }
  }

  lemma {:induction false} DropAppend(a: seq<CfRecord>, b: seq<CfRecord>, id: nat)
    ensures DropId(a + b, id) == DropId(a, id) + DropId(b, id)
  {
    if a == [] {
      assert a + b == b;
    } else {
      assert (a + b)[1..] == a[1..] + b;
      DropAppend(a[1..], b, id);
    }
  }

  lemma {:induction false} DropShorter(all: seq<CfRecord>, id: nat)
    ensures |DropId(all, id)| <= |all|
    ensures (forall r :: r in all ==> r.id != id) ==> DropId(all, id) == all
  {
    if all != [] {
      DropShorter(all[1..], id);
    }
  }

  lemma PickReplaced(s: Settings, q: CfRecord, id: nat, r: CfRecord, name: Host, rtype: string)
    requires Owned(r) && (q.id == id ==> Owned(q) && s.qualify(q.name) == s.qualify(r.name) && q.rtype == r.rtype)
    ensures Pick(s, if q.id == id then r else q, name, rtype, true) == ReplaceId(Pick(s, q, name, rtype, true), id, r)
  {
  }

  lemma ReplaceAppend(a: seq<CfRecord>, b: seq<CfRecord>, id: nat, r: CfRecord)
    ensures ReplaceId(a + b, id, r) == ReplaceId(a, id, r) + ReplaceId(b, id, r)
  {
  }

  /** Rewriting an owned record in place moves it to no other name or type. */
  lemma {:induction false} PartReplaced(s: Settings, all: seq<CfRecord>, id: nat, r: CfRecord, name: Host, rtype: string)
    requires Owned(r) && r.id == id
    requires forall q :: q in all && q.id == id ==> Owned(q) && s.qualify(q.name) == s.qualify(r.name) && q.rtype == r.rtype
    ensures Ours(s, ReplaceId(all, id, r), name, rtype) == ReplaceId(Ours(s, all, name, rtype), id, r)
  {
    if all != [] {
      assert all == [all[0]] + all[1..];
      PartReplaced(s, all[1..], id, r, name, rtype);
      assert ReplaceId(all, id, r)[1..] == ReplaceId(all[1..], id, r);
      PickReplaced(s, all[0], id, r, name, rtype);
      ReplaceAppend(Pick(s, all[0], name, rtype, true), Ours(s, all[1..], name, rtype), id, r);
    }
  }

  /** An update's target, wherever it now is, still has the name and type it rewrites to. */
  ghost predicate UpdatesInPlace(s: Settings, now: CfZone, call: Call) {
    call.Update? ==> forall q :: q in now.records && q.id == call.target.id ==>
      Owned(q) && s.qualify(q.name) == s.qualify(call.rec.name) && q.rtype == call.rec.rtype
  }

  lemma CreateAdds(s: Settings, z: CfZone, r: Record, name: Host, rtype: string)
    requires Lawful(s)
    ensures |Ours(s, z.records + [Fresh(s, r, z.next)], name, rtype)|
         == |Ours(s, z.records, name, rtype)| + if CreatesAt(s, Create(r), name, rtype) then 1 else 0
  {
    PartAppend(s, z.records, [Fresh(s, r, z.next)], name, rtype, true);
    FreshIsOwned(s, r, z.next);
  }

  /** What one call does to the count of owned records at a name and type. */
  lemma CountAfter(s: Settings, z: CfZone, call: Call, answer: Answer, name: Host, rtype: string)
    requires Lawful(s)
    requires UpdatesInPlace(s, z, call)
    requires call.Update? ==> Owned(call.target)
    ensures var now := Perform(s, z, call, answer).0;
      |Ours(s, now.records, name, rtype)| <= |Ours(s, z.records, name, rtype)| + if CreatesAt(s, call, name, rtype) then 1 else 0
  {
    match call
    case Refuse =>
    case Delete(t) =>
      PartDropped(s, z.records, t.id, name, rtype);
      DropShorter(Ours(s, z.records, name, rtype), t.id);
    case Create(r) =>
      CreateAdds(s, z, r, name, rtype);
    case Update(t, r) =>
      OwnedStays(s, t, r);
      PartReplaced(s, z.records, t.id, Rewritten(s, t, r), name, rtype);
  }

  /** Every record still carrying the id of a listed one has that one's name and type. */
  ghost predicate Descends(s: Settings, z: CfZone, now: CfZone) {
    forall q, r :: q in now.records && r in z.records && q.id == r.id ==>
      (Owned(q) <==> Owned(r)) && s.qualify(q.name) == s.qualify(r.name) && q.rtype == r.rtype
  }

  lemma DescendsStart(s: Settings, z: CfZone)
    requires IdsUnique(z)
    ensures Descends(s, z, z)
  {
    forall q, r | q in z.records && r in z.records && q.id == r.id ensures q == r {
      SameIdSame(z, q, r);
    }
  }

  ghost predicate CallSound(s: Settings, all: seq<CfRecord>, call: Call) {
    Aimed(all, call) && (call.Update? ==> SitsAt(s, call.target, call.rec.name, call.rec.rtype))
  }

  lemma CallsSound(s: Settings, all: seq<CfRecord>, c: DnsChange)
    ensures forall call :: call in Calls(s, all, c) ==> CallSound(s, all, call)
  {
    RemovesAimed(s, all, c.removes);
    forall i | 0 <= i < |c.adds| ensures CallSound(s, all, AddCalls(s, all, c.adds)[i]) {
      AddCallsAt(s, all, c.adds, i);
      AddAimed(s, all, c.adds[i]);
    }
  }

  lemma DescendsNext(s: Settings, z: CfZone, now: CfZone, call: Call, answer: Answer)
    requires Lawful(s)
    requires IdsUnique(z) && now.next >= z.next && Descends(s, z, now) && CallSound(s, z.records, call)
    ensures UpdatesInPlace(s, now, call)
    ensures Perform(s, now, call, answer).0.next >= z.next && Descends(s, z, Perform(s, now, call, answer).0)
  {
    match call
    case Refuse =>
    case Delete(t) =>
      DroppedListed(now.records, t.id);
    case Create(r) =>
    case Update(t, r) =>
      OwnedStays(s, t, r);
      var after := ReplaceId(now.records, t.id, Rewritten(s, t, r));
      forall q, o | q in after && o in z.records && q.id == o.id
        ensures (Owned(q) <==> Owned(o)) && s.qualify(q.name) == s.qualify(o.name) && q.rtype == o.rtype
      {
        var k :| 0 <= k < |after| && after[k] == q;
        assert now.records[k] in now.records;
        if now.records[k].id == t.id { SameIdSame(z, o, t); }
      }
  }

  ghost predicate AllSound(s: Settings, all: seq<CfRecord>, calls: seq<Call>) {
    forall i :: 0 <= i < |calls| ==> CallSound(s, all, calls[i])
  }

  /** Over a run, records keep their name and type. */
  lemma {:induction false} RunDescends(s: Settings, z: CfZone, calls: seq<Call>, script: nat -> Answer, n: nat)
    requires Lawful(s)
    requires IdsUnique(z) && n <= |calls| && AllSound(s, z.records, calls)
    ensures Run(s, z, calls, script, n).0.next >= z.next && Descends(s, z, Run(s, z, calls, script, n).0)
  {
    if n == 0 {
      DescendsStart(s, z);
    } else {
      RunDescends(s, z, calls, script, n - 1);
      DescendsNext(s, z, Run(s, z, calls, script, n - 1).0, calls[n - 1], script(n - 1));
    }
  }

  /** Counting over a run: what was there, plus what was created. */
  lemma {:induction false} CountBound(s: Settings, z: CfZone, calls: seq<Call>, script: nat -> Answer, n: nat, name: Host, rtype: string)
    requires Lawful(s)
    requires IdsUnique(z) && n <= |calls| && AllSound(s, z.records, calls)
    ensures |Ours(s, Run(s, z, calls, script, n).0.records, name, rtype)|
         <= |Ours(s, z.records, name, rtype)| + Creates(s, calls[..n], name, rtype)
  {
    if n > 0 {
      CountBound(s, z, calls, script, n - 1, name, rtype);
      RunDescends(s, z, calls, script, n - 1);
      var before := Run(s, z, calls, script, n - 1).0;
      DescendsNext(s, z, before, calls[n - 1], script(n - 1));
      CountAfter(s, before, calls[n - 1], script(n - 1), name, rtype);
      assert calls[..n][..n - 1] == calls[..n - 1];
    }
  }

  lemma CallsAllSound(s: Settings, all: seq<CfRecord>, c: DnsChange)
    ensures AllSound(s, all, Calls(s, all, c))
  {
    CallsSound(s, all, c);
    assert forall i :: 0 <= i < |Calls(s, all, c)| ==> Calls(s, all, c)[i] in Calls(s, all, c);
  }

  /** No name and type without an owned record is added twice. */
  ghost predicate CreatesOnce(s: Settings, all: seq<CfRecord>, adds: seq<Record>) {
    forall i, j :: 0 <= i < j < |adds| && SameSpot(s, adds[i], adds[j]) ==> Ours(s, all, adds[i].name, adds[i].rtype) != []
  }

  predicate SameSpot(s: Settings, a: Record, b: Record) {
    s.qualify(a.name) == s.qualify(b.name) && a.rtype == b.rtype
  }

  lemma {:induction false} SameSpotSamePart(s: Settings, all: seq<CfRecord>, a: Host, b: Host, rtype: string, ours: bool)
    requires s.qualify(a) == s.qualify(b)
    ensures Part(s, all, a, rtype, ours) == Part(s, all, b, rtype, ours)
  {
    if all != [] {
      SameSpotSamePart(s, all[1..], a, b, rtype, ours);
    }
  }

  lemma {:induction false} NoRemoveCreates(s: Settings, calls: seq<Call>, n: nat, name: Host, rtype: string)
    requires n <= |calls| && forall i :: 0 <= i < n ==> !calls[i].Create?
    ensures Creates(s, calls[..n], name, rtype) == 0
  {
    if n > 0 {
      NoRemoveCreates(s, calls, n - 1, name, rtype);
      assert calls[..n][..n - 1] == calls[..n - 1];
    }
  }

  lemma {:induction false} CreatesAppend(s: Settings, a: seq<Call>, b: seq<Call>, name: Host, rtype: string)
    ensures Creates(s, a + b, name, rtype) == Creates(s, a, name, rtype) + Creates(s, b, name, rtype)
  {
    if b == [] {
      assert a + b == a;
    } else {
      assert (a + b)[..|a + b| - 1] == a + b[..|b| - 1];
      CreatesAppend(s, a, b[..|b| - 1], name, rtype);
    }
  }

  /** A create means there was no owned record there. */
  lemma {:induction false} AddsCreateOnce(s: Settings, all: seq<CfRecord>, adds: seq<Record>, name: Host, rtype: string)
    requires CreatesOnce(s, all, adds)
    ensures Creates(s, AddCalls(s, all, adds), name, rtype) <= 1
    ensures Creates(s, AddCalls(s, all, adds), name, rtype) > 0 ==>
      Ours(s, all, name, rtype) == [] && exists i :: 0 <= i < |adds| && s.qualify(adds[i].name) == s.qualify(name) && adds[i].rtype == rtype
  {
    if adds != [] {
      var init, last := adds[..|adds| - 1], adds[|adds| - 1];
      AddsCreateOnce(s, all, init, name, rtype);
      var calls := AddCalls(s, all, adds);
      assert calls[..|calls| - 1] == AddCalls(s, all, init);
      assert calls[|calls| - 1] == AddCall(s, all, last);
      if CreatesAt(s, AddCall(s, all, last), name, rtype) {
        SameSpotSamePart(s, all, last.name, name, rtype, true);
        if i :| 0 <= i < |init| && s.qualify(init[i].name) == s.qualify(name) && init[i].rtype == rtype {
          assert SameSpot(s, adds[i], last);
          SameSpotSamePart(s, all, adds[i].name, name, rtype, true);
        }
      }
    }
  }

  lemma {:induction false} CreatesShorter(s: Settings, calls: seq<Call>, n: nat, name: Host, rtype: string)
    requires n <= |calls|
    ensures Creates(s, calls[..n], name, rtype) <= Creates(s, calls, name, rtype)
    decreases |calls|
  {
    if n < |calls| {
      assert calls[..|calls| - 1][..n] == calls[..n];
      CreatesShorter(s, calls[..|calls| - 1], n, name, rtype);
    } else {
      assert calls[..n] == calls;
    }
  }

  lemma FewCreates(s: Settings, all: seq<CfRecord>, c: DnsChange, n: nat, name: Host, rtype: string)
    requires n <= |Calls(s, all, c)| && CreatesOnce(s, all, c.adds)
    ensures Creates(s, Calls(s, all, c)[..n], name, rtype) <= if Ours(s, all, name, rtype) == [] then 1 else 0
  {
    var rs := RemoveCalls(s, all, c.removes);
    RemovesAimed(s, all, c.removes);
    assert forall i :: 0 <= i < |rs| ==> rs[i] in rs;
    NoRemoveCreates(s, rs, |rs|, name, rtype);
    assert rs[..|rs|] == rs;
    CreatesAppend(s, rs, AddCalls(s, all, c.adds), name, rtype);
    AddsCreateOnce(s, all, c.adds, name, rtype);
    CreatesShorter(s, Calls(s, all, c), n, name, rtype);
  }

  /** One owned record per name and type is kept after every call of an apply that adds no
      unowned spot twice. */
  lemma AtMostOneKept(s: Settings, z: CfZone, c: DnsChange, script: nat -> Answer, n: nat)
    requires Lawful(s)
    requires IdsUnique(z) && n <= |Calls(s, z.records, c)| && AtMostOne(s, z) && CreatesOnce(s, z.records, c.adds)
    ensures AtMostOne(s, Run(s, z, Calls(s, z.records, c), script, n).0)
  {
    forall name, rtype ensures |Ours(s, Run(s, z, Calls(s, z.records, c), script, n).0.records, name, rtype)| <= 1 {
      CallsAllSound(s, z.records, c);
      CountBound(s, z, Calls(s, z.records, c), script, n, name, rtype);
      FewCreates(s, z.records, c, n, name, rtype);
    }
  }

  // ----- adding an unowned spot twice duplicates it -----

  lemma {:induction false} RunShorter(s: Settings, z: CfZone, calls: seq<Call>, script: nat -> Answer, m: nat, n: nat)
    requires m <= n <= |calls| && Run(s, z, calls, script, n).1
    ensures Run(s, z, calls, script, m).1
  {
    if m < n {
      RunShorter(s, z, calls, script, m, n - 1);
    }
  }

  /** A successful create adds one, and an update none. */
  lemma CountKept(s: Settings, z: CfZone, call: Call, answer: Answer, name: Host, rtype: string)
    requires Lawful(s)
    requires UpdatesInPlace(s, z, call) && !call.Delete? && Perform(s, z, call, answer).1
    ensures |Ours(s, Perform(s, z, call, answer).0.records, name, rtype)|
         == |Ours(s, z.records, name, rtype)| + if CreatesAt(s, call, name, rtype) then 1 else 0
  {
    match call
    case Create(r) => CreateAdds(s, z, r, name, rtype);
    case Update(t, r) =>
      OwnedStays(s, t, r);
      PartReplaced(s, z.records, t.id, Rewritten(s, t, r), name, rtype);
    case _ =>
  }

  lemma StepKept(s: Settings, z: CfZone, now: CfZone, call: Call, answer: Answer, name: Host, rtype: string)
    requires Lawful(s)
    requires IdsUnique(z) && now.next >= z.next && Descends(s, z, now) && CallSound(s, z.records, call)
    requires !call.Delete? && Perform(s, now, call, answer).1
    ensures |Ours(s, Perform(s, now, call, answer).0.records, name, rtype)|
         == |Ours(s, now.records, name, rtype)| + if CreatesAt(s, call, name, rtype) then 1 else 0
  {
    DescendsNext(s, z, now, call, answer);
    CountKept(s, now, call, answer, name, rtype);
  }

  /** Records created by calls that all succeeded are all there, the first `k` calls creating
      none and no delete following them. */
  lemma {:induction false} CreatedAreThere(s: Settings, z: CfZone, calls: seq<Call>, script: nat -> Answer, k: nat, n: nat,
                                           name: Host, rtype: string)
    requires Lawful(s)
    requires IdsUnique(z) && k <= n <= |calls| && AllSound(s, z.records, calls) && Run(s, z, calls, script, n).1
    requires (forall i :: 0 <= i < k ==> !calls[i].Create?) && forall i :: k <= i < n ==> !calls[i].Delete?
    ensures |Ours(s, Run(s, z, calls, script, n).0.records, name, rtype)| >= Creates(s, calls[..n], name, rtype)
  {
    if n == k {
      NoRemoveCreates(s, calls, n, name, rtype);
    } else {
      CreatedAreThere(s, z, calls, script, k, n - 1, name, rtype);
      RunDescends(s, z, calls, script, n - 1);
      StepKept(s, z, Run(s, z, calls, script, n - 1).0, calls[n - 1], script(n - 1), name, rtype);
      assert calls[..n][..n - 1] == calls[..n - 1];
    }
  }

  lemma AddsNeverDelete(s: Settings, all: seq<CfRecord>, adds: seq<Record>, i: nat)
    requires i < |adds|
    ensures !AddCalls(s, all, adds)[i].Delete?
  {
    AddCallsAt(s, all, adds, i);
    AddAimed(s, all, adds[i]);
  }

  /** Deletes come first, and deletes only. */
  lemma DeletesFirst(s: Settings, all: seq<CfRecord>, c: DnsChange)
    ensures var k, calls := |RemoveCalls(s, all, c.removes)|, Calls(s, all, c);
      k <= |calls| && (forall i :: 0 <= i < k ==> !calls[i].Create?) && forall i :: k <= i < |calls| ==> !calls[i].Delete?
  {
    var rs, cs := RemoveCalls(s, all, c.removes), AddCalls(s, all, c.adds);
    RemovesAimed(s, all, c.removes);
    assert forall i :: 0 <= i < |rs| ==> rs[i] in rs;
    forall i | 0 <= i < |cs| ensures !cs[i].Delete? {
      AddsNeverDelete(s, all, c.adds, i);
    }
  }

  lemma {:induction false} TwoCreates(s: Settings, calls: seq<Call>, i: nat, j: nat, a: Call, b: Call, name: Host, rtype: string)
    requires i < j < |calls| && calls[i] == a && calls[j] == b && CreatesAt(s, a, name, rtype) && CreatesAt(s, b, name, rtype)
    ensures Creates(s, calls, name, rtype) >= 2
  {
    if j < |calls| - 1 {
      TwoCreates(s, calls[..|calls| - 1], i, j, a, b, name, rtype);
    } else {
      OneCreate(s, calls[..j], i, name, rtype);
    }
  }

  lemma {:induction false} OneCreate(s: Settings, calls: seq<Call>, i: nat, name: Host, rtype: string)
    requires i < |calls| && CreatesAt(s, calls[i], name, rtype)
    ensures Creates(s, calls, name, rtype) >= 1
  {
    if i < |calls| - 1 {
      OneCreate(s, calls[..|calls| - 1], i, name, rtype);
    }
  }

  /** A call that succeeded was no refusal. */
  lemma SucceededNotRefused(s: Settings, z: CfZone, calls: seq<Call>, script: nat -> Answer, n: nat, i: nat)
    requires i < n <= |calls| && Run(s, z, calls, script, n).1
    ensures !calls[i].Refuse?
  {
    hide Owned, Sendable;
    RunShorter(s, z, calls, script, i + 1, n);
  }

  lemma UnownedCreates(s: Settings, all: seq<CfRecord>, add: Record, at: Record)
    requires SameSpot(s, add, at) && Ours(s, all, at.name, at.rtype) == []
    ensures AddCall(s, all, add).Refuse? || CreatesAt(s, AddCall(s, all, add), at.name, at.rtype)
  {
    SameSpotSamePart(s, all, add.name, at.name, at.rtype, true);
  }

  predicate CreatesOrRefuses(s: Settings, call: Call, name: Host, rtype: string) {
    call.Refuse? || CreatesAt(s, call, name, rtype)
  }

  lemma AddsCreate(s: Settings, all: seq<CfRecord>, adds: seq<Record>, i: nat, at: Record)
    requires i < |adds| && SameSpot(s, adds[i], at) && Ours(s, all, at.name, at.rtype) == []
    ensures CreatesOrRefuses(s, AddCalls(s, all, adds)[i], at.name, at.rtype)
  {
    AddCallsAt(s, all, adds, i);
    UnownedCreates(s, all, adds[i], at);
  }

  lemma BothCreate(s: Settings, z: CfZone, calls: seq<Call>, script: nat -> Answer, p: nat, q: nat, name: Host, rtype: string)
    requires p < q < |calls| && Run(s, z, calls, script, |calls|).1
    requires CreatesOrRefuses(s, calls[p], name, rtype) && CreatesOrRefuses(s, calls[q], name, rtype)
    ensures Creates(s, calls, name, rtype) >= 2
  {
    SucceededNotRefused(s, z, calls, script, |calls|, p);
    SucceededNotRefused(s, z, calls, script, |calls|, q);
    TwoCreates(s, calls, p, q, calls[p], calls[q], name, rtype);
  }

  lemma AppendAt<T>(a: seq<T>, b: seq<T>, i: nat)
    requires i < |b|
    ensures (a + b)[|a| + i] == b[i]
  {
  }

  /** Both of two adds at one unowned spot create a record, if the apply runs to its end. */
  lemma RepeatedAddCreates(s: Settings, z: CfZone, c: DnsChange, script: nat -> Answer, i: nat, j: nat)
    requires Run(s, z, Calls(s, z.records, c), script, |Calls(s, z.records, c)|).1
    requires i < j < |c.adds| && SameSpot(s, c.adds[j], c.adds[i]) && Ours(s, z.records, c.adds[i].name, c.adds[i].rtype) == []
    ensures Creates(s, Calls(s, z.records, c), c.adds[i].name, c.adds[i].rtype) >= 2
  {
    var at := c.adds[i];
    AddsCreate(s, z.records, c.adds, i, at);
    AddsCreate(s, z.records, c.adds, j, at);
    BothCreateAfter(s, z, RemoveCalls(s, z.records, c.removes), AddCalls(s, z.records, c.adds), script, i, j, at.name, at.rtype);
  }

  lemma BothCreateAfter(s: Settings, z: CfZone, rs: seq<Call>, cs: seq<Call>, script: nat -> Answer, i: nat, j: nat,
                        name: Host, rtype: string)
    requires i < j < |cs| && Run(s, z, rs + cs, script, |rs + cs|).1
    requires CreatesOrRefuses(s, cs[i], name, rtype) && CreatesOrRefuses(s, cs[j], name, rtype)
    ensures Creates(s, rs + cs, name, rtype) >= 2
  {
    AppendAt(rs, cs, i);
    AppendAt(rs, cs, j);
    BothCreate(s, z, rs + cs, script, |rs| + i, |rs| + j, name, rtype);
  }

  /** An apply that runs to its end keeps one owned record per name and type exactly when it
      adds no unowned spot twice. */
  lemma AtMostOneKeptIff(s: Settings, z: CfZone, c: DnsChange, script: nat -> Answer)
    requires Lawful(s)
    requires IdsUnique(z) && AtMostOne(s, z)
    requires Run(s, z, Calls(s, z.records, c), script, |Calls(s, z.records, c)|).1
    ensures AtMostOne(s, Run(s, z, Calls(s, z.records, c), script, |Calls(s, z.records, c)|).0) <==> CreatesOnce(s, z.records, c.adds)
  {
    var calls := Calls(s, z.records, c);
    if CreatesOnce(s, z.records, c.adds) {
      AtMostOneKept(s, z, c, script, |calls|);
    } else {
      var i, j :| 0 <= i < j < |c.adds| && SameSpot(s, c.adds[i], c.adds[j]) && Ours(s, z.records, c.adds[i].name, c.adds[i].rtype) == [];
      RepeatedAddCreates(s, z, c, script, i, j);
      assert calls[..|calls|] == calls;
      CallsAllSound(s, z.records, c);
      DeletesFirst(s, z.records, c);
      CreatedAreThere(s, z, calls, script, |RemoveCalls(s, z.records, c.removes)|, |calls|, c.adds[i].name, c.adds[i].rtype);
    }
  }

  // ----- a successful expose or unexpose leaves nothing to do -----

  lemma OneAdd(s: Settings, all: seq<CfRecord>, want: Record)
    ensures Calls(s, all, DnsChange([want], [])) == [AddCall(s, all, want)]
  {
  }

  lemma NoCallRun(s: Settings, z: CfZone, calls: seq<Call>, script: nat -> Answer)
    ensures Run(s, z, calls, script, 0) == (z, true)
  {
  }

  lemma OneCallRun(s: Settings, z: CfZone, call: Call, script: nat -> Answer)
    ensures Run(s, z, [call], script, 1) == Perform(s, z, call, script(0))
  {
    hide Perform;
    assert Run(s, z, [call], script, 0) == (z, true);
  }

  /** The call an add makes leaves one owned record at the spot, with the value asked for. */
  lemma AddLeavesOne(s: Settings, z: CfZone, want: Record, answer: Answer)
    requires Lawful(s) && IdsUnique(z) && |Ours(s, z.records, want.name, want.rtype)| <= 1
    requires Perform(s, z, AddCall(s, z.records, want), answer).1
    ensures var ours := Ours(s, Perform(s, z, AddCall(s, z.records, want), answer).0.records, want.name, want.rtype);
      |ours| == 1 && ours[0].content == want.value
  {
    hide Theirs, Sendable, Owned;
    var call := AddCall(s, z.records, want);
    if call.Create? {
      FreshIsOwned(s, want, z.next);
      PartAppend(s, z.records, [Fresh(s, want, z.next)], want.name, want.rtype, true);
      PartOne(s, Fresh(s, want, z.next), want.name, want.rtype);
    } else {
      AddAimed(s, z.records, want);
      UpdateLeavesOne(s, z, want, call.target);
    }
  }

  lemma UpdateLeavesOne(s: Settings, z: CfZone, want: Record, target: CfRecord)
    requires Lawful(s) && IdsUnique(z) && Ours(s, z.records, want.name, want.rtype) == [target]
    ensures var ours := Ours(s, ReplaceId(z.records, target.id, Rewritten(s, target, want)), want.name, want.rtype);
      |ours| == 1 && ours[0].content == want.value
  {
    hide Owned, Trim;
    PartListed(s, z.records, want.name, want.rtype, true);
    assert target in Ours(s, z.records, want.name, want.rtype);
    OwnedStays(s, target, want);
    forall q | q in z.records && q.id == target.id ensures q == target {
      SameIdSame(z, q, target);
    }
    PartReplaced(s, z.records, target.id, Rewritten(s, target, want), want.name, want.rtype);
  }

  lemma ExposeSettles(s: Settings, z: CfZone, want: Record, script: nat -> Answer, c: DnsChange)
    requires Lawful(s)
    requires IdsUnique(z) && Diff(s, z.records, Expose, want) == Ok(c)
    requires Run(s, z, Calls(s, z.records, c), script, |Calls(s, z.records, c)|).1
    ensures Diff(s, Run(s, z, Calls(s, z.records, c), script, |Calls(s, z.records, c)|).0.records, Expose, want) == Ok(NoDnsChange)
  {
    hide Run, Guarded, Theirs, AddCall, Perform;
    if c != NoDnsChange {
      OneAdd(s, z.records, want);
      OneCallRun(s, z, AddCall(s, z.records, want), script);
      AddLeavesOne(s, z, want, script(0));
    } else {
      assert Calls(s, z.records, c) == [];
      NoCallRun(s, z, [], script);
    }
  }

  lemma HasIdDropped(all: seq<CfRecord>, id: nat, x: nat)
    ensures HasId(DropId(all, id), x) ==> HasId(all, x) && x != id
  {
    DroppedListed(all, id);
    if i :| 0 <= i < |DropId(all, id)| && DropId(all, id)[i].id == x {
      assert DropId(all, id)[i] in all;
    }
  }

  lemma DeleteStep(s: Settings, z: CfZone, call: Call, answer: Answer, x: nat)
    requires call.Delete? && Perform(s, z, call, answer).1
    ensures !HasId(Perform(s, z, call, answer).0.records, call.target.id)
    ensures !HasId(z.records, x) ==> !HasId(Perform(s, z, call, answer).0.records, x)
  {
    HasIdDropped(z.records, call.target.id, call.target.id);
    HasIdDropped(z.records, call.target.id, x);
  }

  /** Nothing a delete took comes back while only deletes follow. */
  lemma {:induction false} DeletedStaysGone(s: Settings, z: CfZone, calls: seq<Call>, script: nat -> Answer, n: nat)
    requires 0 < n <= |calls| && (forall i :: 0 <= i < |calls| ==> calls[i].Delete?)
    requires Run(s, z, calls, script, n).1
    ensures !HasId(Run(s, z, calls, script, n).0.records, calls[0].target.id)
  {
    if n > 1 {
      DeletedStaysGone(s, z, calls, script, n - 1);
    }
    DeleteStep(s, Run(s, z, calls, script, n - 1).0, calls[n - 1], script(n - 1), calls[0].target.id);
  }

  /** Deletes that repeat an id do not all succeed. */
  lemma RepeatedDeleteFails(s: Settings, z: CfZone, calls: seq<Call>, script: nat -> Answer, m: nat)
    requires 0 < m < |calls| && (forall i :: 0 <= i < |calls| ==> calls[i].Delete?) && calls[m] == calls[0]
    ensures !Run(s, z, calls, script, |calls|).1
  {
    if Run(s, z, calls, script, |calls|).1 {
      RunShorter(s, z, calls, script, m, |calls|);
      RunShorter(s, z, calls, script, m + 1, |calls|);
      DeletedStaysGone(s, z, calls, script, m);
    }
  }

  /** The delete calls of an unexpose with several owned records: one full round per record. */
  lemma SeveralDeletes(s: Settings, all: seq<CfRecord>, want: Record)
    requires |Ours(s, all, want.name, want.rtype)| >= 2
    ensures var ours := Ours(s, all, want.name, want.rtype);
      var calls := Calls(s, all, DnsChange([], ToModels(s, ours)));
      && |calls| > |ours| && calls[0] == calls[|ours|] == Delete(ours[0])
      && forall call :: call in calls ==> call.Delete?
  {
    var ours := Ours(s, all, want.name, want.rtype);
    var removes := ToModels(s, ours);
    RemovesAimed(s, all, removes);
    PartListed(s, all, want.name, want.rtype, true);
    assert ours[0] in ours && ours[1] in ours;
    FirstRemoves(s, all, removes, 2);
    SameSpotSamePart(s, all, removes[0].name, want.name, want.rtype, true);
    SameSpotSamePart(s, all, removes[1].name, want.name, want.rtype, true);
    assert Calls(s, all, DnsChange([], removes)) == RemoveCalls(s, all, removes);
    assert removes[..2][..1] == removes[..1] && removes[..1][..0] == [];
    assert RemoveCalls(s, all, removes[..1]) == DeleteCalls(ours);
    assert RemoveCalls(s, all, removes[..2]) == DeleteCalls(ours) + DeleteCalls(ours);
  }

  lemma {:induction false} FirstRemoves(s: Settings, all: seq<CfRecord>, removes: seq<Record>, n: nat)
    requires n <= |removes|
    ensures RemoveCalls(s, all, removes[..n]) <= RemoveCalls(s, all, removes)
    decreases |removes|
  {
    if n < |removes| {
      assert removes[..|removes| - 1][..n] == removes[..n];
      FirstRemoves(s, all, removes[..|removes| - 1], n);
    } else {
      assert removes[..n] == removes;
    }
  }

  /** An unexpose the server obliges runs to its end exactly when there was at most one owned
      record: with more, each is deleted once per record, and the second delete of an id is
      turned down. */
  lemma UnexposeCompletesIff(s: Settings, z: CfZone, want: Record, c: DnsChange)
    requires IdsUnique(z) && Diff(s, z.records, Unexpose, want) == Ok(c)
    ensures Run(s, z, Calls(s, z.records, c), (k: nat) => Served, |Calls(s, z.records, c)|).1
       <==> |Ours(s, z.records, want.name, want.rtype)| <= 1
  {
    var script := (k: nat) => Served;
    if |Ours(s, z.records, want.name, want.rtype)| <= 1 {
      UnexposeOne(s, z, want, script, c);
    } else {
      UnexposeSeveralFails(s, z, want, script, c);
    }
  }

  lemma UnexposeSeveralFails(s: Settings, z: CfZone, want: Record, script: nat -> Answer, c: DnsChange)
    requires IdsUnique(z) && Diff(s, z.records, Unexpose, want) == Ok(c) && |Ours(s, z.records, want.name, want.rtype)| >= 2
    ensures !Run(s, z, Calls(s, z.records, c), script, |Calls(s, z.records, c)|).1
  {
    var calls := Calls(s, z.records, c);
    SeveralDeletes(s, z.records, want);
    assert forall i :: 0 <= i < |calls| ==> calls[i] in calls;
    RepeatedDeleteFails(s, z, calls, script, |Ours(s, z.records, want.name, want.rtype)|);
  }

  lemma UnexposeCalls(s: Settings, all: seq<CfRecord>, want: Record, c: DnsChange)
    requires Diff(s, all, Unexpose, want) == Ok(c) && |Ours(s, all, want.name, want.rtype)| <= 1
    ensures Calls(s, all, c) == DeleteCalls(Ours(s, all, want.name, want.rtype))
    ensures forall r :: r in Ours(s, all, want.name, want.rtype) ==> r in all && Owned(r)
  {
    var ours := Ours(s, all, want.name, want.rtype);
    PartListed(s, all, want.name, want.rtype, true);
    if ours != [] {
      assert ours[0] in ours;
      SameSpotSamePart(s, all, c.removes[0].name, want.name, want.rtype, true);
      assert c.removes[..0] == [];
      assert RemoveCalls(s, all, c.removes) == RemoveCalls(s, all, []) + DeleteCalls(ours);
    }
  }

  /** The calls of an unexpose of at most one record, and what they leave. */
  lemma UnexposeOne(s: Settings, z: CfZone, want: Record, script: nat -> Answer, c: DnsChange)
    requires IdsUnique(z) && Diff(s, z.records, Unexpose, want) == Ok(c) && |Ours(s, z.records, want.name, want.rtype)| <= 1
    ensures var calls := Calls(s, z.records, c);
      && (calls == [] || (script(0) == Served ==> Run(s, z, calls, script, |calls|).1))
      && (Run(s, z, calls, script, |calls|).1 ==> Ours(s, Run(s, z, calls, script, |calls|).0.records, want.name, want.rtype) == [])
  {
    UnexposeCalls(s, z.records, want, c);
    var ours := Ours(s, z.records, want.name, want.rtype);
    if ours != [] {
      DeleteOne(s, z, ours[0], script, want.name, want.rtype);
      assert DeleteCalls(ours) == [Delete(ours[0])];
    }
  }

  lemma DeleteOne(s: Settings, z: CfZone, r: CfRecord, script: nat -> Answer, name: Host, rtype: string)
    requires r in z.records && Owned(r) && Ours(s, z.records, name, rtype) == [r]
    ensures script(0) == Served ==> Run(s, z, [Delete(r)], script, 1).1
    ensures Run(s, z, [Delete(r)], script, 1).1 ==> Ours(s, Run(s, z, [Delete(r)], script, 1).0.records, name, rtype) == []
  {
    assert Run(s, z, [Delete(r)], script, 0) == (z, true);
    PartDropped(s, z.records, r.id, name, rtype);
    assert DropId([r][1..], r.id) == [];
    var i :| 0 <= i < |z.records| && z.records[i] == r;
    assert HasId(z.records, r.id);
  }

  lemma UnexposeSettles(s: Settings, z: CfZone, want: Record, script: nat -> Answer, c: DnsChange)
    requires IdsUnique(z) && Diff(s, z.records, Unexpose, want) == Ok(c)
    requires Run(s, z, Calls(s, z.records, c), script, |Calls(s, z.records, c)|).1
    ensures Diff(s, Run(s, z, Calls(s, z.records, c), script, |Calls(s, z.records, c)|).0.records, Unexpose, want) == Ok(NoDnsChange)
  {
    if |Ours(s, z.records, want.name, want.rtype)| >= 2 {
      UnexposeSeveralFails(s, z, want, script, c);
    } else {
      UnexposeOne(s, z, want, script, c);
      assert ToModels(s, []) == [];
    }
  }

  // ----- sequences of operations -----

  /** One operation: diff against the live zone, apply what it says. */
  function Operate(s: Settings, z: CfZone, verb: Verb, want: Record, script: nat -> Answer): CfZone {
    match Diff(s, z.records, verb, want)
    case Err => z
    case Ok(c) => Run(s, z, Calls(s, z.records, c), script, |Calls(s, z.records, c)|).0
  }

  function Session(s: Settings, z: CfZone, ops: seq<(Verb, Record)>, scripts: nat -> nat -> Answer): CfZone {
    if ops == [] then z
    else
      var n := |ops| - 1;
      Operate(s, Session(s, z, ops[..n], scripts), ops[n].0, ops[n].1, scripts(n))
  }

  lemma OperateSafe(s: Settings, z: CfZone, verb: Verb, want: Record, script: nat -> Answer)
    requires Lawful(s)
    requires IdsUnique(z) && AtMostOne(s, z)
    ensures var now := Operate(s, z, verb, want, script);
      IdsUnique(now) && AtMostOne(s, now) && Foreign(now.records) == Foreign(z.records)
  {
    match Diff(s, z.records, verb, want)
    case Err =>
    case Ok(c) =>
      ForeignUntouched(s, z, c, script, |Calls(s, z.records, c)|);
      AtMostOneKept(s, z, c, script, |Calls(s, z.records, c)|);
  }

  /** However many operations run and however the server answers, foreign records stay as they
      were and no name and type gets a second owned record. */
  lemma {:induction false} SessionSafe(s: Settings, z: CfZone, ops: seq<(Verb, Record)>, scripts: nat -> nat -> Answer)
    requires Lawful(s)
    requires IdsUnique(z) && AtMostOne(s, z)
    ensures var now := Session(s, z, ops, scripts);
      IdsUnique(now) && AtMostOne(s, now) && Foreign(now.records) == Foreign(z.records)
  {
    if ops != [] {
      var n := |ops| - 1;
      SessionSafe(s, z, ops[..n], scripts);
      OperateSafe(s, Session(s, z, ops[..n], scripts), ops[n].0, ops[n].1, scripts(n));
    }
  }

  /** Whatever came before, a last operation whose apply runs to its end is settled. */
  lemma SessionSettles(s: Settings, z: CfZone, before: seq<(Verb, Record)>, verb: Verb, want: Record, scripts: nat -> nat -> Answer, c: DnsChange)
    requires Lawful(s) && IdsUnique(z) && AtMostOne(s, z)
    requires Diff(s, Session(s, z, before, scripts).records, verb, want) == Ok(c)
    requires var now := Session(s, z, before, scripts);
      Run(s, now, Calls(s, now.records, c), scripts(|before|), |Calls(s, now.records, c)|).1
    ensures Diff(s, Session(s, z, before + [(verb, want)], scripts).records, verb, want) == Ok(NoDnsChange)
  {
    hide Run, Calls, Diff;
    var now := Session(s, z, before, scripts);
    SessionSafe(s, z, before, scripts);
    assert (before + [(verb, want)])[..|before|] == before;
    if verb == Rename {
      RenameIsRefused(s, now, want);
    } else if verb == Expose {
      ExposeSettles(s, now, want, scripts(|before|), c);
    } else {
      UnexposeSettles(s, now, want, scripts(|before|), c);
    }
  }

  lemma RenameIsRefused(s: Settings, z: CfZone, want: Record)
    ensures Diff(s, z.records, Rename, want) == Err
  {
  }
}
