/** The surgical Cloudflare driver (internal/drivers/dns/cloudflare/cloudflare.go): record by
    record API calls behind an ownership marker. The server answers each mutating call as it
    likes; names and types are normalised. */
module Cloudflare {
  import opened Model
  import opened Planner

  const MARKER := "managed-by:crenel"

  /** `id` is the API's record id. */
  datatype CfRecord = CfRecord(id: nat, rtype: string, name: Host, content: string, ttl: int, proxied: bool, comment: string)

  /** `qualify` completes a name under the zone (see SettingsFor); `valid` is what the API
      accepts as content of a record type. */
  datatype Settings = Settings(
    zone: string, qualify: Host -> Host, scope: Scope, proxied: bool, ttl: int, valid: (string, string) -> bool)

  /** The zone on the server; ids from `next` on are unused. */
  datatype CfZone = CfZone(records: seq<CfRecord>, next: nat)

  // ----- ownership -----

  predicate IsSpace(c: char) {
    c in " \t\n\r"
  }

  function TrimLeft(s: string): string {
    if s != "" && IsSpace(s[0]) then TrimLeft(s[1..]) else s
  }

  function TrimRight(s: string): string {
    if s != "" && IsSpace(s[|s| - 1]) then TrimRight(s[..|s| - 1]) else s
  }

  function Trim(s: string): string {
    TrimRight(TrimLeft(s))
  }

  /** The comment is the marker, alone or followed by a space. */
  predicate Owned(r: CfRecord) {
    var c := Trim(r.comment);
    c == MARKER || MARKER + " " <= c
  }

  function MarkerFor(name: Host): string {
    MARKER + " host=" + name
  }

  lemma {:induction false} TrimRightKeeps(p: string, s: string)
    requires p != "" && !IsSpace(p[|p| - 1])
    ensures p <= TrimRight(p + s)
  {
    if s == "" {
      assert p + s == p;
    } else if IsSpace(s[|s| - 1]) {
      assert (p + s)[..|p + s| - 1] == p + s[..|s| - 1];
      TrimRightKeeps(p, s[..|s| - 1]);
    }
  }

  /** What the driver stamps it recognises, whatever the host name; and a comment that merely
      starts with the same letters is somebody else's. */
  lemma MarkerIsExact(r: CfRecord, name: Host, c: char, rest: string)
    ensures r.comment == MarkerFor(name) ==> Owned(r)
    ensures r.comment == MARKER + [c] + rest && !IsSpace(c) ==> !Owned(r)
  {
    var head := MARKER + " host=";
    TrimRightKeeps(head, name);
    assert MARKER + " " <= head;
    var other := MARKER + [c];
    if !IsSpace(c) {
      TrimRightKeeps(other, rest);
      assert other[|MARKER|] == c;
    }
  }

  // ----- partition -----

  /** A name as a fully-qualified name under the zone. */
  function Fqdn(zone: string, name: Host): Host {
    if zone == "" || name == zone || HasSuffix(name, "." + zone) then name else name + "." + zone
  }

  function SettingsFor(zone: string, scope: Scope, proxied: bool, ttl: int, valid: (string, string) -> bool): Settings {
    Settings(zone, name => Fqdn(zone, name), scope, proxied, ttl, valid)
  }

  /** What the proofs need of it: a qualified name is left alone. */
  ghost predicate Lawful(s: Settings) {
    forall name :: s.qualify(s.qualify(name)) == s.qualify(name)
  }

  lemma SettingsAreLawful(zone: string, scope: Scope, proxied: bool, ttl: int, valid: (string, string) -> bool)
    ensures Lawful(SettingsFor(zone, scope, proxied, ttl, valid))
  {
    forall name ensures Fqdn(zone, Fqdn(zone, name)) == Fqdn(zone, name) {
      assert name + "." + zone == name + ("." + zone);
    }
  }

  predicate SitsAt(s: Settings, r: CfRecord, name: Host, rtype: string) {
    s.qualify(r.name) == s.qualify(name) && r.rtype == rtype
  }

  function Pick(s: Settings, r: CfRecord, name: Host, rtype: string, ours: bool): seq<CfRecord> {
    if SitsAt(s, r, name, rtype) && Owned(r) == ours then [r] else []
  }

  /** The records at a name and type, of one ownership. */
  function Part(s: Settings, all: seq<CfRecord>, name: Host, rtype: string, ours: bool): seq<CfRecord> {
    if all == [] then [] else Pick(s, all[0], name, rtype, ours) + Part(s, all[1..], name, rtype, ours)
  }

  function Ours(s: Settings, all: seq<CfRecord>, name: Host, rtype: string): seq<CfRecord> {
    Part(s, all, name, rtype, true)
  }

  function Theirs(s: Settings, all: seq<CfRecord>, name: Host, rtype: string): seq<CfRecord> {
    Part(s, all, name, rtype, false)
  }

  /** Every record crenel does not own. */
  function Foreign(all: seq<CfRecord>): seq<CfRecord> {
    if all == [] then [] else (if Owned(all[0]) then [] else [all[0]]) + Foreign(all[1..])
  }

  // ----- what an apply asks of the API -----

  /** One mutating call, or the refusal that ends an apply before its next call. */
  datatype Call = Delete(target: CfRecord) | Create(rec: Record) | Update(target: CfRecord, rec: Record) | Refuse

  function DeleteCalls(ours: seq<CfRecord>): seq<Call> {
    seq(|ours|, i requires 0 <= i < |ours| => Delete(ours[i]))
  }

  function RemoveCalls(s: Settings, all: seq<CfRecord>, removes: seq<Record>): seq<Call> {
    if removes == [] then []
    else
      var last := removes[|removes| - 1];
      RemoveCalls(s, all, removes[..|removes| - 1]) + DeleteCalls(Ours(s, all, last.name, last.rtype))
  }

  function AddCall(s: Settings, all: seq<CfRecord>, add: Record): Call {
    var ours := Ours(s, all, add.name, add.rtype);
    if ours == [] then (if Theirs(s, all, add.name, add.rtype) != [] then Refuse else Create(add))
    else if |ours| == 1 then Update(ours[0], add)
    else Refuse
  }

  function AddCalls(s: Settings, all: seq<CfRecord>, adds: seq<Record>): (calls: seq<Call>)
    ensures |calls| == |adds|
  {
    if adds == [] then [] else AddCalls(s, all, adds[..|adds| - 1]) + [AddCall(s, all, adds[|adds| - 1])]
  }

  lemma {:induction false} AddCallsAt(s: Settings, all: seq<CfRecord>, adds: seq<Record>, i: nat)
    requires i < |adds|
    ensures AddCalls(s, all, adds)[i] == AddCall(s, all, adds[i])
  {
    if i < |adds| - 1 {
      AddCallsAt(s, all, adds[..|adds| - 1], i);
    }
  }

  /** Removes precede adds; every mutation is derived from the one listing taken at the start. */
  function Calls(s: Settings, all: seq<CfRecord>, c: DnsChange): seq<Call> {
    RemoveCalls(s, all, c.removes) + AddCalls(s, all, c.adds)
  }

  // ----- what the API makes of a call -----

  /** The server carries a call out, turns it down, or carries it out and the reply is lost. */
  datatype Answer = Served | TurnedDown | Lost

  function TtlFor(ttl: int, proxied: bool): int {
    if proxied || ttl <= 0 then 1 else ttl
  }

  function Fresh(s: Settings, r: Record, id: nat): CfRecord {
    CfRecord(id, r.rtype, s.qualify(r.name), r.value, TtlFor(s.ttl, s.proxied), s.proxied, MarkerFor(r.name))
  }

  /** An update keeps the id, the proxied flag and the marker of the record it rewrites. */
  function Rewritten(s: Settings, target: CfRecord, r: Record): CfRecord {
    CfRecord(target.id, r.rtype, s.qualify(r.name), r.value, TtlFor(target.ttl, target.proxied), target.proxied,
             if target.comment == "" then MarkerFor(r.name) else target.comment)
  }

  predicate HasId(all: seq<CfRecord>, id: nat) {
    exists i :: 0 <= i < |all| && all[i].id == id
  }

  function DropId(all: seq<CfRecord>, id: nat): seq<CfRecord> {
    if all == [] then [] else (if all[0].id == id then [] else [all[0]]) + DropId(all[1..], id)
  }

  function ReplaceId(all: seq<CfRecord>, id: nat, r: CfRecord): seq<CfRecord> {
    seq(|all|, i requires 0 <= i < |all| => if all[i].id == id then r else all[i])
  }

  /** The driver's own checks, before anything is sent. */
  predicate Sendable(s: Settings, call: Call) {
    match call
    case Delete(target) => Owned(target)
    case Create(rec) => s.valid(rec.rtype, rec.value)
    case Update(target, rec) => Owned(target) && s.valid(rec.rtype, rec.value)
    case Refuse => false
  }

  /** The zone once the server has carried a call out; unknown ids are turned down. */
  function CarriedOut(s: Settings, z: CfZone, call: Call): Option<CfZone> {
    match call
    case Delete(target) => if HasId(z.records, target.id) then Some(z.(records := DropId(z.records, target.id))) else None
    case Create(rec) => Some(CfZone(z.records + [Fresh(s, rec, z.next)], z.next + 1))
    case Update(target, rec) =>
      if HasId(z.records, target.id) then Some(z.(records := ReplaceId(z.records, target.id, Rewritten(s, target, rec)))) else None
    case Refuse => None
  }

  /** The zone after a call, and whether the driver saw it succeed. */
  function Perform(s: Settings, z: CfZone, call: Call, answer: Answer): (CfZone, bool) {
    if !Sendable(s, call) || answer == TurnedDown then (z, false)
    else
      match CarriedOut(s, z, call)
      case None => (z, false)
      case Some(z') => (z', answer == Served)
  }

  /** The zone after the first `n` calls; the apply stops at the first that does not succeed. */
  function Run(s: Settings, z: CfZone, calls: seq<Call>, script: nat -> Answer, n: nat): (CfZone, bool)
    requires n <= |calls|
  {
    if n == 0 then (z, true)
    else
      var (before, ok) := Run(s, z, calls, script, n - 1);
      if ok then Perform(s, before, calls[n - 1], script(n - 1)) else (before, false)
  }

  // ----- diff -----

  /** Exact host names under the zone, or bare labels to be qualified. */
  predicate Guarded(s: Settings, name: Host) {
    '*' !in name && ((s.zone != "" && (name == s.zone || HasSuffix(name, "." + s.zone))) || '.' !in name)
  }

  function ToModel(s: Settings, r: CfRecord): Record {
    Record(r.name, r.rtype, r.content, s.scope, r.ttl, r.proxied)
  }

  function ToModels(s: Settings, rs: seq<CfRecord>): seq<Record> {
    seq(|rs|, i requires 0 <= i < |rs| => ToModel(s, rs[i]))
  }

  /** The change for the single record an operation wants. */
  function Diff(s: Settings, all: seq<CfRecord>, verb: Verb, want: Record): Result<DnsChange> {
    var ours := Ours(s, all, want.name, want.rtype);
    if !Guarded(s, want.name) then Err
    else
      match verb
      case Expose =>
        if ours == [] then (if Theirs(s, all, want.name, want.rtype) != [] then Err else Ok(DnsChange([want], [])))
        else if |ours| == 1 then Ok(if ours[0].content == want.value then NoDnsChange else DnsChange([want], []))
        else Err
      case Unexpose => Ok(DnsChange([], ToModels(s, ours)))
      case Rename => Err
  }

  // ----- no call touches a foreign record -----

  ghost predicate IdsUnique(z: CfZone) {
    && (forall r :: r in z.records ==> r.id < z.next)
    && DistinctIds(z.records)
  }

  lemma {:induction false} PartListed(s: Settings, all: seq<CfRecord>, name: Host, rtype: string, ours: bool)
    ensures forall r :: r in Part(s, all, name, rtype, ours) <==> r in all && SitsAt(s, r, name, rtype) && Owned(r) == ours
  {
    if all != [] {
      PartListed(s, all[1..], name, rtype, ours);
      assert all == [all[0]] + all[1..];
    }
  }

  /** A call aimed at a record is aimed at an owned record of the listing. */
  ghost predicate Aimed(all: seq<CfRecord>, call: Call) {
    (call.Delete? || call.Update?) ==> call.target in all && Owned(call.target)
  }

  lemma {:induction false} RemovesAimed(s: Settings, all: seq<CfRecord>, removes: seq<Record>)
    ensures forall call :: call in RemoveCalls(s, all, removes) ==> call.Delete? && Aimed(all, call)
  {
    if removes != [] {
      var last := removes[|removes| - 1];
      RemovesAimed(s, all, removes[..|removes| - 1]);
      PartListed(s, all, last.name, last.rtype, true);
      var ours := Ours(s, all, last.name, last.rtype);
      forall i | 0 <= i < |ours| ensures Aimed(all, DeleteCalls(ours)[i]) {
        assert ours[i] in ours;
      }
    }
  }

  lemma AddAimed(s: Settings, all: seq<CfRecord>, add: Record)
    ensures Aimed(all, AddCall(s, all, add)) && !AddCall(s, all, add).Delete?
    ensures AddCall(s, all, add).Update? ==> SitsAt(s, AddCall(s, all, add).target, add.name, add.rtype)
  {
    PartListed(s, all, add.name, add.rtype, true);
    var ours := Ours(s, all, add.name, add.rtype);
    if |ours| == 1 { assert ours[0] in ours; }
  }

  lemma CallsAimed(s: Settings, all: seq<CfRecord>, c: DnsChange)
    ensures forall call :: call in Calls(s, all, c) ==> Aimed(all, call)
  {
    RemovesAimed(s, all, c.removes);
    forall i | 0 <= i < |c.adds| ensures Aimed(all, AddCalls(s, all, c.adds)[i]) {
      AddCallsAt(s, all, c.adds, i);
      AddAimed(s, all, c.adds[i]);
    }
  }

  lemma {:induction false} ForeignAppend(a: seq<CfRecord>, b: seq<CfRecord>)
    ensures Foreign(a + b) == Foreign(a) + Foreign(b)
  {
    if a == [] {
      assert a + b == b;
    } else {
      assert (a + b)[1..] == a[1..] + b;
      ForeignAppend(a[1..], b);
    }
  }

  lemma {:induction false} ForeignListed(all: seq<CfRecord>)
    ensures forall r :: r in Foreign(all) <==> r in all && !Owned(r)
  {
    if all != [] {
      ForeignListed(all[1..]);
      assert all == [all[0]] + all[1..];
    }
  }

  lemma {:induction false} ForeignDropped(all: seq<CfRecord>, id: nat)
    requires forall r :: r in all && r.id == id ==> Owned(r)
    ensures Foreign(DropId(all, id)) == Foreign(all)
  {
    if all != [] {
      assert all == [all[0]] + all[1..];
      ForeignDropped(all[1..], id);
      ForeignAppend(if all[0].id == id then [] else [all[0]], DropId(all[1..], id));
    }
  }

  lemma {:induction false} ForeignReplaced(all: seq<CfRecord>, id: nat, r: CfRecord)
    requires Owned(r) && forall q :: q in all && q.id == id ==> Owned(q)
    ensures Foreign(ReplaceId(all, id, r)) == Foreign(all)
  {
    if all != [] {
      assert all == [all[0]] + all[1..];
      ForeignReplaced(all[1..], id, r);
      assert ReplaceId(all, id, r)[1..] == ReplaceId(all[1..], id, r);
    }
  }

  lemma {:induction false} DroppedListed(all: seq<CfRecord>, id: nat)
    ensures forall r :: r in DropId(all, id) <==> r in all && r.id != id
  {
    if all != [] {
      DroppedListed(all[1..], id);
      assert all == [all[0]] + all[1..];
    }
  }

  ghost predicate DistinctIds(all: seq<CfRecord>) {
    forall i, j :: 0 <= i < j < |all| ==> all[i].id != all[j].id
  }

  lemma {:induction false} DroppedDistinct(all: seq<CfRecord>, id: nat)
    requires DistinctIds(all)
    ensures DistinctIds(DropId(all, id))
  {
    if all != [] {
      var rest := DropId(all[1..], id);
      DroppedDistinct(all[1..], id);
      DroppedListed(all[1..], id);
      forall j | 0 <= j < |rest| ensures rest[j].id != all[0].id {
        assert rest[j] in rest;
        var k :| 0 <= k < |all[1..]| && all[1..][k] == rest[j];
        assert all[k + 1].id != all[0].id;
      }
    }
  }

  lemma OwnedStays(s: Settings, target: CfRecord, r: Record)
    requires Owned(target)
    ensures Owned(Rewritten(s, target, r))
  {
    assert Trim("") == "";
  }

  lemma FreshIsOwned(s: Settings, r: Record, id: nat)
    ensures Owned(Fresh(s, r, id))
  {
    MarkerIsExact(Fresh(s, r, id), r.name, 'x', "");
  }

  lemma DeleteKeeps(z: CfZone, id: nat)
    requires IdsUnique(z) && forall r :: r in z.records && r.id == id ==> Owned(r)
    ensures IdsUnique(z.(records := DropId(z.records, id))) && Foreign(DropId(z.records, id)) == Foreign(z.records)
  {
    ForeignDropped(z.records, id);
    DroppedListed(z.records, id);
    DroppedDistinct(z.records, id);
  }

  lemma CreateKeeps(s: Settings, z: CfZone, r: Record)
    requires IdsUnique(z)
    ensures var now := CfZone(z.records + [Fresh(s, r, z.next)], z.next + 1); IdsUnique(now) && Foreign(now.records) == Foreign(z.records)
  {
    FreshIsOwned(s, r, z.next);
    ForeignAppend(z.records, [Fresh(s, r, z.next)]);
    CreateKeepsIds(s, z, r);
  }

  lemma UpdateKeeps(s: Settings, z: CfZone, t: CfRecord, r: Record)
    requires IdsUnique(z) && Owned(t) && forall q :: q in z.records && q.id == t.id ==> Owned(q)
    ensures var now := z.(records := ReplaceId(z.records, t.id, Rewritten(s, t, r)));
      IdsUnique(now) && Foreign(now.records) == Foreign(z.records)
  {
    OwnedStays(s, t, r);
    ForeignReplaced(z.records, t.id, Rewritten(s, t, r));
    ReplaceKeepsIds(z, t.id, Rewritten(s, t, r));
  }

  /** One call, aimed at an owned record or at none, leaves foreign records and ids in order. */
  lemma CallKeeps(s: Settings, z: CfZone, call: Call, answer: Answer)
    requires IdsUnique(z)
    requires (call.Delete? || call.Update?) ==> Owned(call.target) && forall r :: r in z.records && r.id == call.target.id ==> Owned(r)
    ensures IdsUnique(Perform(s, z, call, answer).0) && Perform(s, z, call, answer).0.next >= z.next
    ensures Foreign(Perform(s, z, call, answer).0.records) == Foreign(z.records)
  {
    match call
    case Refuse =>
    case Delete(t) => DeleteKeeps(z, t.id);
    case Create(r) => CreateKeeps(s, z, r);
    case Update(t, r) => UpdateKeeps(s, z, t, r);
  }

  lemma CreateKeepsIds(s: Settings, z: CfZone, r: Record)
    requires IdsUnique(z)
    ensures IdsUnique(CfZone(z.records + [Fresh(s, r, z.next)], z.next + 1))
  {
    assert forall i :: 0 <= i < |z.records| ==> z.records[i] in z.records;
  }

  lemma ReplaceKeepsIds(z: CfZone, id: nat, r: CfRecord)
    requires IdsUnique(z) && r.id == id
    ensures IdsUnique(z.(records := ReplaceId(z.records, id, r)))
  {
    assert forall i :: 0 <= i < |z.records| ==> z.records[i] in z.records;
  }

  ghost predicate AllAimed(all: seq<CfRecord>, calls: seq<Call>) {
    forall i :: 0 <= i < |calls| ==> Aimed(all, calls[i])
  }

  lemma {:induction false} AimedRunKeeps(s: Settings, z: CfZone, calls: seq<Call>, script: nat -> Answer, n: nat)
    requires IdsUnique(z) && n <= |calls| && AllAimed(z.records, calls)
    ensures var now := Run(s, z, calls, script, n).0;
      IdsUnique(now) && now.next >= z.next && Foreign(now.records) == Foreign(z.records)
  {
    if n > 0 {
      AimedRunKeeps(s, z, calls, script, n - 1);
      var before := Run(s, z, calls, script, n - 1).0;
      AimedStaysOwned(z, before, calls[n - 1]);
      CallKeeps(s, before, calls[n - 1], script(n - 1));
    }
  }

  /** Non-interference: over any zone and any change, after every API call, whatever the
      server answered and wherever the apply stops, every record without the marker is
      exactly as it was, in the same order. */
  lemma ForeignUntouched(s: Settings, z: CfZone, c: DnsChange, script: nat -> Answer, n: nat)
    requires IdsUnique(z) && n <= |Calls(s, z.records, c)|
    ensures var now := Run(s, z, Calls(s, z.records, c), script, n).0;
      IdsUnique(now) && now.next >= z.next && Foreign(now.records) == Foreign(z.records)
  {
    var calls := Calls(s, z.records, c);
    CallsAimed(s, z.records, c);
    assert forall i :: 0 <= i < |calls| ==> calls[i] in calls;
    AimedRunKeeps(s, z, calls, script, n);
  }

  lemma SameIdSame(z: CfZone, a: CfRecord, b: CfRecord)
    requires IdsUnique(z) && a in z.records && b in z.records && a.id == b.id
    ensures a == b
  {
    var i, j :| 0 <= i < |z.records| && 0 <= j < |z.records| && z.records[i] == a && z.records[j] == b;
  }

  /** The id of an owned record of the listing never becomes a foreign record's. */
  lemma AimedStaysOwned(z: CfZone, now: CfZone, call: Call)
    requires IdsUnique(z) && Foreign(now.records) == Foreign(z.records) && Aimed(z.records, call)
    ensures (call.Delete? || call.Update?) ==> Owned(call.target) && forall r :: r in now.records && r.id == call.target.id ==> Owned(r)
  {
    if call.Delete? || call.Update? {
      forall r | r in now.records && r.id == call.target.id ensures Owned(r) {
        ForeignListed(now.records);
        ForeignListed(z.records);
        if !Owned(r) {
          assert r in Foreign(z.records);
          SameIdSame(z, r, call.target);
        }
      }
    }
  }
}
