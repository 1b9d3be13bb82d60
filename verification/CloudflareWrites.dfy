/** What the Cloudflare driver writes, field by field (internal/drivers/dns/cloudflare/cloudflare.go):
    what every record is that an apply, wherever it stops, leaves on the server, which ones it has
    taken away, and what a diff asks for. */
module CloudflareWrites {
  import opened Model
  import opened Planner
  import opened Terms
  import opened Cloudflare

  predicate IsBlank(s: string) {
    forall i :: 0 <= i < |s| ==> s[i] in {' ', '\t', '\n', '\r'}
  }

  /** Blanks aside, the record's comment is the marker, or the marker, a blank and more. */
  ghost predicate Carries(r: CfRecord) {
    exists front: string, more: string, back: string :: IsBlank(front) && IsBlank(back) &&
      (more == "" || more[0] == ' ') && r.comment == front + ("managed-by:crenel" + more) + back
  }

  lemma {:induction false} FrontTrimmed(front: string, s: string)
    requires IsBlank(front)
    ensures TrimLeft(front + s) == TrimLeft(s)
  {
    if front == "" {
      assert front + s == s;
    } else {
      assert (front + s)[1..] == front[1..] + s;
      FrontTrimmed(front[1..], s);
    }
  }

  lemma {:induction false} BackTrimmed(s: string, back: string)
    requires IsBlank(back)
    ensures TrimRight(s + back) == TrimRight(s)
  {
    if back == "" {
      assert s + back == s;
    } else {
      assert (s + back)[..|s + back| - 1] == s + back[..|back| - 1];
      BackTrimmed(s, back[..|back| - 1]);
    }
  }

  lemma {:induction false} TrimmedFront(s: string) returns (front: string)
    ensures s == front + TrimLeft(s) && IsBlank(front)
  {
    front := "";
    if s != "" && IsSpace(s[0]) {
      var rest := TrimmedFront(s[1..]);
      front := [s[0]] + rest;
    }
  }

  lemma {:induction false} TrimmedBack(s: string) returns (back: string)
    ensures s == TrimRight(s) + back && IsBlank(back)
  {
    back := "";
    if s != "" && IsSpace(s[|s| - 1]) {
      var rest := TrimmedBack(s[..|s| - 1]);
      back := rest + [s[|s| - 1]];
    }
  }

  lemma OwnedIff(r: CfRecord)
    ensures Owned(r) <==> Carries(r)
  {
    hide TrimLeft, TrimRight, IsBlank;
    var marker := "managed-by:crenel";
    if Owned(r) {
      var front := TrimmedFront(r.comment);
      var c := TrimLeft(r.comment);
      var back := TrimmedBack(c);
      var core := TrimRight(c);
      assert r.comment == front + core + back;
      assert core == marker + core[|marker|..];
      assert core != marker ==> core[|marker|] == ' ';
    }
    if Carries(r) {
      var front: string, more: string, back: string :| IsBlank(front) && IsBlank(back) &&
        (more == "" || more[0] == ' ') && r.comment == front + ("managed-by:crenel" + more) + back;
      MarkerTrims(front, more, back);
    }
  }

  lemma MarkerTrims(front: string, more: string, back: string)
    requires IsBlank(front) && IsBlank(back) && (more == "" || more[0] == ' ')
    ensures var c := Trim(front + ("managed-by:crenel" + more) + back); c == MARKER || MARKER + " " <= c
  {
    var core := "managed-by:crenel" + more;
    assert front + core + back == front + (core + back);
    FrontTrimmed(front, core + back);
    assert (core + back)[0] == 'm';
    BackTrimmed(core, back);
    TrimRightKeeps("managed-by:crenel", more);
    var c := TrimRight(core);
    MarkerAhead(core, c);
  }

  lemma {:induction false} RightIsPrefix(s: string)
    ensures TrimRight(s) <= s
  {
    if s != "" && IsSpace(s[|s| - 1]) {
      RightIsPrefix(s[..|s| - 1]);
    }
  }

  lemma MarkerAhead(core: string, c: string)
    requires "managed-by:crenel" <= c && c == TrimRight(core) && |core| >= |"managed-by:crenel"|
    requires |core| > |"managed-by:crenel"| ==> core[|"managed-by:crenel"|] == ' '
    ensures c == MARKER || MARKER + " " <= c
  {
    RightIsPrefix(core);
    if c != MARKER {
      assert c[|MARKER|] == ' ';
      assert c[..|MARKER| + 1] == MARKER + " ";
    }
  }

  predicate AtSpot(s: Settings, r: CfRecord, q: Record) {
    s.qualify(r.name) == s.qualify(q.name) && r.rtype == q.rtype
  }

  /** A proxied record's lifetime is automatic, as is one not given. */
  function Lifetime(ttl: int, proxied: bool): int {
    if proxied then 1 else if ttl > 0 then ttl else 1
  }

  /** New on the server: the added record under its qualified name, by the driver's settings, marked;
      nothing was at its spot. */
  ghost predicate CreatedFor(s: Settings, z: CfZone, r: CfRecord, add: Record) {
    && r == CfRecord(r.id, add.rtype, s.qualify(add.name), add.value, Lifetime(s.ttl, s.proxied), s.proxied,
                     "managed-by:crenel host=" + add.name)
    && r.id >= z.next && s.valid(add.rtype, add.value) && forall q :: q in z.records ==> !AtSpot(s, q, add)
  }

  /** An owned record that got a new value: it was the one at its spot, and keeps its id, its
      comment and its proxied flag, and its lifetime as far as the flag allows. */
  ghost predicate UpdatedFrom(s: Settings, z: CfZone, t: CfRecord, r: CfRecord, add: Record) {
    && t in z.records && Carries(t) && AtSpot(s, t, add) && s.valid(add.rtype, add.value)
    && (forall q :: q in z.records && Carries(q) && AtSpot(s, q, add) ==> q == t)
    && r == CfRecord(t.id, add.rtype, s.qualify(add.name), add.value, Lifetime(t.ttl, t.proxied), t.proxied, t.comment)
  }

  ghost predicate Accounted(s: Settings, z: CfZone, adds: seq<Record>, r: CfRecord) {
    || r in z.records
    || (exists add :: add in adds && CreatedFor(s, z, r, add))
    || (exists add, t :: add in adds && UpdatedFrom(s, z, t, r, add))
  }

  /** A call's own part in that. */
  ghost predicate CallAccounted(s: Settings, z: CfZone, adds: seq<Record>, call: Call) {
    match call
    case Create(rec) => rec in adds && forall q :: q in z.records ==> !AtSpot(s, q, rec)
    case Update(t, rec) =>
      rec in adds && t in z.records && Carries(t) && AtSpot(s, t, rec) && forall q :: q in z.records && Carries(q) && AtSpot(s, q, rec) ==> q == t
    case _ => true
  }

  lemma AddCallAccounted(s: Settings, z: CfZone, adds: seq<Record>, add: Record)
    requires add in adds
    ensures CallAccounted(s, z, adds, AddCall(s, z.records, add))
  {
    PartListed(s, z.records, add.name, add.rtype, true);
    PartListed(s, z.records, add.name, add.rtype, false);
    var ours, theirs := Ours(s, z.records, add.name, add.rtype), Theirs(s, z.records, add.name, add.rtype);
    forall r ensures Owned(r) <==> Carries(r) {
      OwnedIff(r);
    }
    if |ours| == 1 {
      assert ours[0] in ours;
      forall q | q in z.records && Carries(q) && AtSpot(s, q, add) ensures q == ours[0] {
        assert q in ours;
      }
    } else if ours == [] && theirs == [] {
      forall q | q in z.records ensures !AtSpot(s, q, add) {
        assert q !in ours && q !in theirs;
      }
    }
  }

  lemma CallsAccounted(s: Settings, z: CfZone, c: DnsChange, n: nat)
    requires n < |Calls(s, z.records, c)|
    ensures CallAccounted(s, z, c.adds, Calls(s, z.records, c)[n])
  {
    var removes := RemoveCalls(s, z.records, c.removes);
    RemovesAimed(s, z.records, c.removes);
    if n < |removes| {
      assert Calls(s, z.records, c)[n] == removes[n] && removes[n] in removes;
    } else {
      AddCallsAt(s, z.records, c.adds, n - |removes|);
      AddCallAccounted(s, z, c.adds, c.adds[n - |removes|]);
    }
  }

  lemma CommentStays(t: CfRecord)
    requires Owned(t)
    ensures t.comment != ""
  {
    assert Trim("") == "";
  }

  lemma StepAccounted(s: Settings, z: CfZone, adds: seq<Record>, now: CfZone, call: Call, answer: Answer, r: CfRecord)
    requires now.next >= z.next && CallAccounted(s, z, adds, call)
    requires r in Perform(s, now, call, answer).0.records && r !in now.records
    ensures Accounted(s, z, adds, r)
  {
    match call
    case Refuse =>
    case Delete(t) => DroppedListed(now.records, t.id);
    case Create(rec) => assert CreatedFor(s, z, r, rec);
    case Update(t, rec) =>
      CommentStays(t);
      OwnedIff(t);
      assert UpdatedFrom(s, z, t, r, rec);
  }

  /** After every call of an apply, whatever the server answered, each record is one that was there
      as it is, or the added record new on the server, or an owned one with the added value. */
  lemma {:induction false} ApplyWrites(s: Settings, z: CfZone, c: DnsChange, script: nat -> Answer, n: nat, r: CfRecord)
    requires IdsUnique(z) && n <= |Calls(s, z.records, c)| && r in Run(s, z, Calls(s, z.records, c), script, n).0.records
    ensures Accounted(s, z, c.adds, r)
  {
    hide Calls, Perform, CreatedFor, UpdatedFrom, CallAccounted;
    if n > 0 {
      var calls := Calls(s, z.records, c);
      var before := Run(s, z, calls, script, n - 1).0;
      if r in before.records {
        ApplyWrites(s, z, c, script, n - 1, r);
      } else {
        ForeignUntouched(s, z, c, script, n - 1);
        CallsAccounted(s, z, c, n - 1);
        StepAccounted(s, z, c.adds, before, calls[n - 1], script(n - 1), r);
      }
    }
  }

  /** The call that takes a record away deletes or rewrites it. */
  lemma StepTakes(s: Settings, now: CfZone, call: Call, answer: Answer, r: CfRecord)
    requires r in now.records && r !in Perform(s, now, call, answer).0.records
    ensures (call.Delete? || call.Update?) && call.target.id == r.id
  {
    match call
    case Refuse =>
    case Delete(t) => DroppedListed(now.records, t.id);
    case Create(rec) =>
    case Update(t, rec) =>
      var i :| 0 <= i < |now.records| && now.records[i] == r;
      assert ReplaceId(now.records, t.id, Rewritten(s, t, rec))[i] == if r.id == t.id then Rewritten(s, t, rec) else r;
  }

  lemma {:induction false} RemoveCallsFor(s: Settings, all: seq<CfRecord>, removes: seq<Record>, call: Call)
    requires call in RemoveCalls(s, all, removes)
    ensures call.Delete? && call.target in all && Owned(call.target) && exists rem :: rem in removes && AtSpot(s, call.target, rem)
  {
    var init, last := removes[..|removes| - 1], removes[|removes| - 1];
    assert removes == init + [last];
    if call in RemoveCalls(s, all, init) {
      RemoveCallsFor(s, all, init, call);
    } else {
      var ours := Ours(s, all, last.name, last.rtype);
      var i :| 0 <= i < |ours| && DeleteCalls(ours)[i] == call;
      PartListed(s, all, last.name, last.rtype, true);
      assert ours[i] in ours && last in removes && AtSpot(s, ours[i], last);
    }
  }

  /** A record that is gone was crenel's and stood where the change removes or adds. */
  lemma {:induction false} ApplyTakes(s: Settings, z: CfZone, c: DnsChange, script: nat -> Answer, n: nat, r: CfRecord)
    requires IdsUnique(z) && n <= |Calls(s, z.records, c)|
    requires r in z.records && r !in Run(s, z, Calls(s, z.records, c), script, n).0.records
    ensures Carries(r) && exists q :: (q in c.removes || q in c.adds) && AtSpot(s, r, q)
  {
    hide Perform, Carries, CallAccounted;
    var calls := Calls(s, z.records, c);
    var before := Run(s, z, calls, script, n - 1).0;
    if r !in before.records {
      ApplyTakes(s, z, c, script, n - 1, r);
    } else {
      var call := calls[n - 1];
      StepTakes(s, before, call, script(n - 1), r);
      TakingCall(s, z, c, n - 1);
      SameIdSame(z, call.target, r);
      OwnedIff(r);
    }
  }

  lemma TakingCall(s: Settings, z: CfZone, c: DnsChange, n: nat)
    requires n < |Calls(s, z.records, c)|
    ensures var call := Calls(s, z.records, c)[n];
      call.Delete? || call.Update? ==>
        call.target in z.records && Owned(call.target) && exists q :: (q in c.removes || q in c.adds) && AtSpot(s, call.target, q)
  {
    var removes, call := RemoveCalls(s, z.records, c.removes), Calls(s, z.records, c)[n];
    CallsAimed(s, z.records, c);
    assert call in Calls(s, z.records, c);
    if n < |removes| {
      assert call == removes[n] && removes[n] in removes;
      RemoveCallsFor(s, z.records, c.removes, call);
    } else {
      AddCallsAt(s, z.records, c.adds, n - |removes|);
      var add := c.adds[n - |removes|];
      AddAimed(s, z.records, add);
      assert add in c.adds && (call.Update? ==> AtSpot(s, call.target, add));
    }
  }

  // ----- when an apply runs to its end -----

  /** What the driver agrees to send: deletions and updates of crenel's records alone, and only
      contents the API takes; it never sends a refusal. */
  ghost predicate MaySend(s: Settings, call: Call) {
    match call
    case Delete(t) => Carries(t)
    case Create(rec) => s.valid(rec.rtype, rec.value)
    case Update(t, rec) => Carries(t) && s.valid(rec.rtype, rec.value)
    case Refuse => false
  }

  ghost predicate StillThere(z: CfZone, call: Call) {
    call.Delete? || call.Update? ==> exists q :: q in z.records && q.id == call.target.id
  }

  lemma PerformSucceedsIff(s: Settings, z: CfZone, call: Call, answer: Answer)
    ensures Perform(s, z, call, answer).1 <==> answer == Served && MaySend(s, call) && StillThere(z, call)
    ensures answer == TurnedDown || !MaySend(s, call) ==> Perform(s, z, call, answer).0 == z
  {
    if call.Delete? || call.Update? {
      OwnedIff(call.target);
      if HasId(z.records, call.target.id) {
        var i :| 0 <= i < |z.records| && z.records[i].id == call.target.id;
        assert z.records[i] in z.records;
      }
    }
  }

  /** The server carries call `k` out and confirms it, it may be sent, and what it aims at is there. */
  ghost predicate GoesThrough(s: Settings, z: CfZone, calls: seq<Call>, script: nat -> Answer, k: nat)
    requires k < |calls|
  {
    script(k) == Served && MaySend(s, calls[k]) && StillThere(Run(s, z, calls, script, k).0, calls[k])
  }

  /** An apply comes through its first calls exactly when each goes through. */
  lemma {:induction false} RunSucceedsIff(s: Settings, z: CfZone, calls: seq<Call>, script: nat -> Answer, n: nat)
    requires n <= |calls|
    ensures Run(s, z, calls, script, n).1 <==> forall k :: 0 <= k < n ==> GoesThrough(s, z, calls, script, k)
  {
    hide GoesThrough;
    if n > 0 {
      RunSucceedsIff(s, z, calls, script, n - 1);
      NextSucceedsIff(s, z, calls, script, n);
    }
  }

  lemma NextSucceedsIff(s: Settings, z: CfZone, calls: seq<Call>, script: nat -> Answer, n: nat)
    requires 1 <= n <= |calls|
    ensures Run(s, z, calls, script, n).1 <==> Run(s, z, calls, script, n - 1).1 && GoesThrough(s, z, calls, script, n - 1)
  {
    hide Perform, MaySend, StillThere;
    PerformSucceedsIff(s, Run(s, z, calls, script, n - 1).0, calls[n - 1], script(n - 1));
  }

  // ----- the diff -----

  /** A name in the zone, or one label to be completed with it; never a wildcard. */
  ghost predicate MayName(s: Settings, name: Host) {
    '*' !in name && ((s.zone != "" && NamedIn(name, s.zone)) || '.' !in name)
  }

  /** A diff is given exactly when the name may be named and, exposing, the spot holds at most one
      of crenel's records and, if none, no other. Exposing asks for the wanted record unless crenel's
      answers it already; unexposing, for the removal of all of crenel's there, as they are. */
  lemma DiffAsks(s: Settings, all: seq<CfRecord>, verb: Verb, want: Record)
    requires verb != Rename
    ensures var ours := Ours(s, all, want.name, want.rtype);
      && (forall r :: r in ours <==> r in all && Carries(r) && AtSpot(s, r, want))
      && (Diff(s, all, verb, want).Ok? <==>
            MayName(s, want.name) &&
            (verb == Expose ==> |ours| <= 1 && (ours == [] ==> forall r :: r in all ==> !AtSpot(s, r, want))))
      && (Diff(s, all, verb, want).Ok? && verb == Expose ==>
            Diff(s, all, verb, want).value == if |ours| == 1 && ours[0].content == want.value then DnsChange([], []) else DnsChange([want], []))
      && (Diff(s, all, verb, want).Ok? && verb == Unexpose ==>
            var c := Diff(s, all, verb, want).value;
            c.DnsChange? && c.adds == [] && |c.removes| == |ours| &&
            forall i :: 0 <= i < |ours| ==>
              c.removes[i] == Record(ours[i].name, ours[i].rtype, ours[i].content, s.scope, ours[i].ttl, ours[i].proxied))
  {
    PartListed(s, all, want.name, want.rtype, true);
    PartListed(s, all, want.name, want.rtype, false);
    SuffixIff(want.name, "." + s.zone);
    forall r ensures Owned(r) <==> Carries(r) {
      OwnedIff(r);
    }
    var theirs := Theirs(s, all, want.name, want.rtype);
    if theirs != [] { assert theirs[0] in theirs; }
    if r :| r in all && AtSpot(s, r, want) && Ours(s, all, want.name, want.rtype) == [] {
      assert r !in Ours(s, all, want.name, want.rtype);
      assert r in theirs;
    }
  }

  /** The driver completes a name that is not in its zone with it. */
  lemma QualifiedIsIn(zone: string, name: Host)
    ensures NamedIn(Fqdn(zone, name), zone)
    ensures Fqdn(zone, name) == if NamedIn(name, zone) then name else name + ("." + zone)
  {
    SuffixIff(name, "." + zone);
    assert name + "." + zone == name + ("." + zone);
  }
}
