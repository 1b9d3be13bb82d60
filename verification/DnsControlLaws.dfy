/** The guarded whole-zone push is lossless (internal/drivers/dns/dnscontrol). */
module DnsControlLaws {
  import opened Model
  import opened Planner
  import opened DnsControl

  // ----- keys -----

  lemma HasKeyAppend(a: seq<Record>, b: seq<Record>, key: Key)
    ensures HasKey(a + b, key) <==> HasKey(a, key) || HasKey(b, key)
  {
    if HasKey(a, key) {
      var r :| r in a && KeyOf(r) == key;
      assert r in a + b;
    } else if HasKey(b, key) {
      var r :| r in b && KeyOf(r) == key;
      assert r in a + b;
    }
  }

  lemma {:induction false} CountAppend(a: seq<Record>, b: seq<Record>, key: Key)
    ensures CountKey(a + b, key) == CountKey(a, key) + CountKey(b, key)
  {
    if b == [] {
      assert a + b == a;
    } else {
      assert (a + b)[..|a + b| - 1] == a + b[..|b| - 1];
      CountAppend(a, b[..|b| - 1], key);
    }
  }

  lemma {:induction false} CountIsPresence(recs: seq<Record>, key: Key)
    ensures CountKey(recs, key) > 0 <==> HasKey(recs, key)
    ensures CountKey(recs, key) == 0 ==> AddedRecord(recs, key).None? && FirstRecord(recs, key).None?
    ensures CountKey(recs, key) > 0 ==> AddedRecord(recs, key).Some? && FirstRecord(recs, key).Some?
    ensures CountKey(recs, key) == 1 ==> FirstRecord(recs, key) == AddedRecord(recs, key)
  {
    if recs != [] {
      var init, last := recs[..|recs| - 1], recs[|recs| - 1];
      CountIsPresence(init, key);
      assert recs == init + [last];
      HasKeyAppend(init, [last], key);
      assert last in [last];
    }
  }

  lemma {:induction false} FirstAppend(a: seq<Record>, b: seq<Record>, key: Key)
    ensures FirstRecord(a + b, key) == if FirstRecord(a, key).Some? then FirstRecord(a, key) else FirstRecord(b, key)
  {
    if b == [] {
      assert a + b == a;
    } else {
      assert (a + b)[..|a + b| - 1] == a + b[..|b| - 1];
      FirstAppend(a, b[..|b| - 1], key);
    }
  }

  lemma {:induction false} FirstIsListed(recs: seq<Record>, key: Key)
    ensures FirstRecord(recs, key).Some? ==> FirstRecord(recs, key).value in recs && KeyOf(FirstRecord(recs, key).value) == key
  {
    if recs != [] {
      FirstIsListed(recs[..|recs| - 1], key);
      assert recs == recs[..|recs| - 1] + [recs[|recs| - 1]];
    }
  }

  // ----- the target is the live zone with the change made -----

  lemma OneKey(r: Record, key: Key)
    ensures FirstRecord([r], key) == if KeyOf(r) == key then Some(r) else None
    ensures CountKey([r], key) == if KeyOf(r) == key then 1 else 0
  {
    assert [r][..0] == [];
  }

  lemma {:induction false} KeptAt(live: seq<Record>, c: DnsChange, key: Key)
    ensures CountKey(Kept(live, c), key) == if HasKey(c.removes, key) then 0 else CountKey(live, key)
    ensures FirstRecord(Kept(live, c), key)
         == if HasKey(c.removes, key) || FirstRecord(live, key).None? then None
            else if AddedRecord(c.adds, key).Some? then AddedRecord(c.adds, key)
            else FirstRecord(live, key)
  {
    if live != [] {
      var init, r := live[..|live| - 1], live[|live| - 1];
      KeptAt(init, c, key);
      var tail := if HasKey(c.removes, KeyOf(r)) then []
                  else match AddedRecord(c.adds, KeyOf(r)) case Some(repl) => [repl] case None => [r];
      AddedRecordIsListed(c.adds, KeyOf(r));
      CountAppend(Kept(init, c), tail, key);
      FirstAppend(Kept(init, c), tail, key);
      if tail != [] { OneKey(tail[0], key); }
    }
  }

  lemma {:induction false} AppendedAt(kept: seq<Record>, adds: seq<Record>, key: Key)
    ensures CountKey(Appended(kept, adds), key) == if !HasKey(kept, key) && HasKey(adds, key) then 1 else 0
    ensures FirstRecord(Appended(kept, adds), key) == if HasKey(kept, key) then None else FirstRecord(adds, key)
  {
    hide KeyOf;
    if adds == [] {
    } else {
      var init, r := adds[..|adds| - 1], adds[|adds| - 1];
      AppendedAt(kept, init, key);
      var tail := if HasKey(kept, KeyOf(r)) || HasKey(init, KeyOf(r)) then [] else [r];
      CountAppend(Appended(kept, init), tail, key);
      FirstAppend(Appended(kept, init), tail, key);
      OneKey(r, key);
      CountIsPresence(init, key);
      assert adds == init + [r];
      HasKeyAppend(init, [r], key);
      assert r in [r];
    }
  }

  /** The target as a map by key: removed keys are gone unless added again, added keys answer
      as added, every other key as live; and no key is there twice that was not already. */
  lemma TargetAt(live: seq<Record>, c: DnsChange, key: Key)
    ensures FirstRecord(Target(live, c), key)
         == if HasKey(c.adds, key) then
              (if HasKey(live, key) && !HasKey(c.removes, key) then AddedRecord(c.adds, key) else FirstRecord(c.adds, key))
            else if HasKey(c.removes, key) then None
            else FirstRecord(live, key)
    ensures CountKey(live, key) <= 1 ==> CountKey(Target(live, c), key) <= 1
  {
    var kept := Kept(live, c);
    KeptAt(live, c, key);
    AppendedAt(kept, c.adds, key);
    CountAppend(kept, Appended(kept, c.adds), key);
    FirstAppend(kept, Appended(kept, c.adds), key);
    CountIsPresence(kept, key);
    CountIsPresence(live, key);
    CountIsPresence(c.adds, key);
  }

  // ----- rendering loses nothing -----

  lemma {:induction false} DeclaredAt(recs: seq<Record>, zone: string, key: Key)
    requires !(key.name == zone && (key.rtype == "NS" || key.rtype == "SOA"))
    ensures CountKey(Declared(recs, zone), key) == CountKey(recs, key)
    ensures FirstRecord(Declared(recs, zone), key) == FirstRecord(recs, key)
  {
    if recs != [] {
      var init, r := recs[..|recs| - 1], recs[|recs| - 1];
      DeclaredAt(init, zone, key);
      var tail := if IsApex(r, zone) then [] else [r];
      CountAppend(Declared(init, zone), tail, key);
      FirstAppend(Declared(init, zone), tail, key);
      OneKey(r, key);
    }
  }

  lemma {:induction false} DeclaredListed(recs: seq<Record>, zone: string)
    ensures forall r :: r in Declared(recs, zone) <==> r in recs && !IsApex(r, zone)
  {
    if recs != [] {
      DeclaredListed(recs[..|recs| - 1], zone);
      assert recs == recs[..|recs| - 1] + [recs[|recs| - 1]];
    }
  }

  lemma {:induction false} InsertAt(r: Record, sorted: seq<Record>, key: Key)
    ensures CountKey(InsertByName(r, sorted), key) == CountKey(sorted, key) + if KeyOf(r) == key then 1 else 0
    ensures multiset(InsertByName(r, sorted)) == multiset{r} + multiset(sorted)
  {
    OneKey(r, key);
    if sorted == [] || NameLeq(r.name, sorted[0].name) {
      CountAppend([r], sorted, key);
    } else {
      InsertAt(r, sorted[1..], key);
      assert sorted == [sorted[0]] + sorted[1..];
      CountAppend([sorted[0]], sorted[1..], key);
      CountAppend([sorted[0]], InsertByName(r, sorted[1..]), key);
    }
  }

  lemma {:induction false} SortAt(recs: seq<Record>, key: Key)
    ensures CountKey(SortByName(recs), key) == CountKey(recs, key)
    ensures multiset(SortByName(recs)) == multiset(recs)
  {
    if recs != [] {
      SortAt(recs[1..], key);
      InsertAt(recs[0], SortByName(recs[1..]), key);
      assert recs == [recs[0]] + recs[1..];
      CountAppend([recs[0]], recs[1..], key);
      OneKey(recs[0], key);
    }
  }

  /** What a record looks like once pushed: everything kept, an unpinned TTL automatic. */
  function Settled(r: Record): Record {
    r.(ttl := if r.ttl > 1 then r.ttl else 1)
  }

  /** Only Cloudflare can hold a proxied flag, and only on these types. */
  predicate FlagFits(s: Settings, r: Record) {
    r.proxied ==> s.cloudflare && Proxyable(r.rtype)
  }

  /** A record lands as itself exactly when dnscontrol expands its label back to its name and its
      proxied flag is one the provider can hold. */
  lemma LandsIff(s: Settings, r: Record)
    ensures Made(s, Line(s, r)) == Settled(r) <==> Survives(s, r)
  {
  }

  predicate Survives(s: Settings, r: Record) {
    s.expand(RelName(r.name, s.zone)) == r.name && FlagFits(s, r)
  }

  ghost predicate AllSurvive(s: Settings, recs: seq<Record>) {
    forall r :: r in recs && !IsApex(r, s.zone) ==> Survives(s, r)
  }

  function SettledAll(recs: seq<Record>): seq<Record> {
    seq(|recs|, i requires 0 <= i < |recs| => Settled(recs[i]))
  }

  lemma {:induction false} SettledAt(recs: seq<Record>, key: Key)
    ensures CountKey(SettledAll(recs), key) == CountKey(recs, key)
    ensures FirstRecord(SettledAll(recs), key)
         == match FirstRecord(recs, key) case None => None case Some(r) => Some(Settled(r))
  {
    if recs != [] {
      assert SettledAll(recs)[..|recs| - 1] == SettledAll(recs[..|recs| - 1]);
      SettledAt(recs[..|recs| - 1], key);
    }
  }

  lemma RowsLandIff(s: Settings, rows: seq<Record>)
    ensures MadeAll(s, Lines(s, rows)) == SettledAll(rows) <==> forall r :: r in rows ==> Survives(s, r)
  {
    var made, settled := MadeAll(s, Lines(s, rows)), SettledAll(rows);
    forall i | 0 <= i < |rows| ensures made[i] == settled[i] <==> Survives(s, rows[i]) {
      LandsIff(s, rows[i]);
    }
    if made == settled {
      forall r | r in rows ensures Survives(s, r) {
        var i :| 0 <= i < |rows| && rows[i] == r;
        assert made[i] == settled[i];
      }
    }
  }

  lemma RowsListed(recs: seq<Record>, zone: string)
    ensures forall r :: r in SortByName(Declared(recs, zone)) <==> r in recs && !IsApex(r, zone)
  {
    var rows := SortByName(Declared(recs, zone));
    DeclaredListed(recs, zone);
    forall r ensures r in rows <==> r in Declared(recs, zone) {
      SortAt(Declared(recs, zone), KeyOf(r));
      assert r in multiset(rows) <==> r in multiset(Declared(recs, zone));
    }
  }

  /** A push makes exactly the declared records, settled, if and only if every one survives. */
  lemma MadeIsSettledIff(s: Settings, recs: seq<Record>)
    ensures MadeAll(s, Render(s, recs)) == SettledAll(SortByName(Declared(recs, s.zone))) <==> AllSurvive(s, recs)
  {
    RowsLandIff(s, SortByName(Declared(recs, s.zone)));
    RowsListed(recs, s.zone);
  }

  /** Sorting keeps the one record at a key. */
  lemma OneAtKey(a: seq<Record>, b: seq<Record>, key: Key)
    requires multiset(a) == multiset(b) && CountKey(a, key) <= 1 && CountKey(b, key) == CountKey(a, key)
    ensures FirstRecord(a, key) == FirstRecord(b, key)
  {
    CountIsPresence(a, key);
    CountIsPresence(b, key);
    FirstIsListed(a, key);
    FirstIsListed(b, key);
    if FirstRecord(a, key).Some? {
      var r := FirstRecord(a, key).value;
      assert r in multiset(a);
      assert r in b;
      OnlyOne(b, r, FirstRecord(b, key).value, key);
    }
  }

  lemma {:induction false} OnlyOne(recs: seq<Record>, x: Record, y: Record, key: Key)
    requires CountKey(recs, key) == 1 && x in recs && y in recs && KeyOf(x) == key && KeyOf(y) == key
    ensures x == y
  {
    var init, last := recs[..|recs| - 1], recs[|recs| - 1];
    assert recs == init + [last];
    CountIsPresence(init, key);
    if KeyOf(last) != key {
      OnlyOne(init, x, y, key);
    }
  }

  ghost predicate DataKey(s: Settings, key: Key) {
    !(key.name == s.zone && (key.rtype == "NS" || key.rtype == "SOA"))
  }

  lemma {:induction false} ApexHasNoData(live: seq<Record>, s: Settings, key: Key)
    requires DataKey(s, key)
    ensures CountKey(ApexOf(live, s.zone), key) == 0 && FirstRecord(ApexOf(live, s.zone), key).None?
  {
    if live != [] {
      var init, r := live[..|live| - 1], live[|live| - 1];
      ApexHasNoData(init, s, key);
      var tail := if IsApex(r, s.zone) then [r] else [];
      CountAppend(ApexOf(init, s.zone), tail, key);
      FirstAppend(ApexOf(init, s.zone), tail, key);
      OneKey(r, key);
    }
  }

  /** Rendering and pushing a zone whose names survive, with one record per data key, is the
      identity on data records, TTLs and proxied flags included. */
  lemma PushKeeps(s: Settings, live: seq<Record>, recs: seq<Record>, key: Key)
    requires AllSurvive(s, recs) && DataKey(s, key) && CountKey(recs, key) <= 1
    ensures var out := Pushed(s, live, Render(s, recs));
      && CountKey(out, key) == CountKey(recs, key)
      && FirstRecord(out, key) == match FirstRecord(recs, key) case None => None case Some(r) => Some(Settled(r))
  {
    var d := Declared(recs, s.zone);
    MadeIsSettledIff(s, recs);
    DeclaredAt(recs, s.zone, key);
    SortAt(d, key);
    OneAtKey(d, SortByName(d), key);
    SettledAt(SortByName(d), key);
    ApexHasNoData(live, s, key);
    CountAppend(ApexOf(live, s.zone), SettledAll(SortByName(d)), key);
    FirstAppend(ApexOf(live, s.zone), SettledAll(SortByName(d)), key);
  }

  // ----- what the guard buys -----

  /** Past the guard, every data key is there at most once. */
  lemma GuardedIsSingle(s: Settings, live: seq<Record>, managed: seq<Record>, key: Key)
    requires GuardPasses(s, live, managed) && DataKey(s, key)
    ensures CountKey(live, key) <= 1
  {
    CountIsPresence(live, key);
    if HasKey(live, key) {
      var r :| r in live && KeyOf(r) == key;
      assert !Unfaithful(live, r, s.zone);
    }
  }

  /** The guarded whole-zone push is lossless wherever the target's records survive: past the
      guard the zone after the push is, data key by data key, the live zone with the change made. */
  lemma SurvivorsAreKept(s: Settings, live: seq<Record>, managed: seq<Record>, c: DnsChange, out: seq<Record>, key: Key)
    requires Apply(s, live, managed, c) == Ok(out) && DataKey(s, key)
    requires AllSurvive(s, Target(live, c))
    ensures CountKey(out, key) <= 1
    ensures FirstRecord(out, key)
         == match Wanted(live, c, key) case None => None case Some(r) => Some(Settled(r))
  {
    GuardedIsSingle(s, live, OwnedBy(managed, c), key);
    TargetAt(live, c, key);
    PushKeeps(s, live, Target(live, c), key);
  }

  /** What the change asks for at a key. */
  function Wanted(live: seq<Record>, c: DnsChange, key: Key): Option<Record> {
    if HasKey(c.adds, key) then
      (if HasKey(live, key) && !HasKey(c.removes, key) then AddedRecord(c.adds, key) else FirstRecord(c.adds, key))
    else if HasKey(c.removes, key) then None
    else FirstRecord(live, key)
  }

  /** What crenel hands the push: live records under names read from the provider, additions at
      or under the zone, no "@" label written out, and flags the provider can hold. */
  ghost predicate Ordinary(s: Settings, live: seq<Record>, c: DnsChange) {
    && (forall r :: r in live ==> (exists column: string :: r.name == Fqdn(column, s.zone)) && IsOrdinary(s, r))
    && (forall r :: r in c.adds ==> (r.name == s.zone || Under(r.name, s.zone)) && IsOrdinary(s, r))
  }

  predicate IsOrdinary(s: Settings, r: Record) {
    r.name != "@." + s.zone && FlagFits(s, r)
  }

  lemma OrdinarySurvives(s: Settings, live: seq<Record>, c: DnsChange)
    requires AppendsZone(s) && Ordinary(s, live, c)
    ensures AllSurvive(s, Target(live, c))
  {
    KeptListed(live, c);
    AppendedListed(Kept(live, c), c.adds);
    forall r | r in Target(live, c) ensures Survives(s, r) {
      if r in live {
        var column: string :| r.name == Fqdn(column, s.zone);
        ReadLiesUnder(column, s.zone);
      }
      ExpandedBackIff(s, r.name);
    }
  }

  /** The guarded whole-zone push is lossless: when the guard passes, the zone after the push is,
      data key by data key, the live zone with the change made, with no key twice; so a record
      outside the change is neither dropped nor altered, its pinned TTL and proxied flag
      included. */
  lemma PushIsLossless(s: Settings, live: seq<Record>, managed: seq<Record>, c: DnsChange, out: seq<Record>, key: Key)
    requires Apply(s, live, managed, c) == Ok(out) && DataKey(s, key)
    requires AppendsZone(s) && Ordinary(s, live, c)
    ensures CountKey(out, key) <= 1
    ensures FirstRecord(out, key)
         == match Wanted(live, c, key) case None => None case Some(r) => Some(Settled(r))
  {
    OrdinarySurvives(s, live, c);
    SurvivorsAreKept(s, live, managed, c, out, key);
  }

  lemma OneGuarded(s: Settings, r: Record)
    requires s.dedicated && r.rtype in RENDERABLE && '"' !in r.value
    ensures GuardPasses(s, [r], [])
  {
    OneKey(r, KeyOf(r));
  }

  lemma OneRendered(s: Settings, r: Record)
    requires r.name != s.zone
    ensures Render(s, [r]) == [Line(s, r)] && ApexOf([r], s.zone) == []
  {
    hide Line, NameLeq;
    var live := [r];
    assert live[..0] == [] && live[1..] == [];
    assert Declared(live, s.zone) == Declared([], s.zone) + [r] == [r];
    assert SortByName(live) == InsertByName(r, []) == [r];
    assert ApexOf(live, s.zone) == ApexOf([], s.zone) + [] == [];
  }

  /** If dnscontrol expanded labels as crenel reads names, a name whose label is itself a name
      under the zone would be moved to that label by a push, and the guard does not ask. */
  lemma ReadingRuleMoves(s: Settings, r: Record)
    requires forall rel :: s.expand(rel) == Fqdn(rel, s.zone)
    requires r.name != s.zone && Under(r.name, s.zone) && Under(RelName(r.name, s.zone), s.zone)
    requires s.dedicated && r.rtype in RENDERABLE && '"' !in r.value
    ensures GuardPasses(s, [r], [])
    ensures Pushed(s, [r], Render(s, [r])) == [Settled(r).(name := RelName(r.name, s.zone), proxied := s.cloudflare && r.proxied && Proxyable(r.rtype))]
    ensures RelName(r.name, s.zone) != r.name
  {
    hide GuardPasses, Render, ApexOf, HasSuffix;
    UnderSplits(r.name, s.zone);
    UnderSplits(RelName(r.name, s.zone), s.zone);
    OneGuarded(s, r);
    OneRendered(s, r);
    var none: seq<Record> := [];
    assert none + MadeAll(s, [Line(s, r)]) == [Made(s, Line(s, r))];
  }

  // ----- a successful operation leaves nothing to do -----

  lemma {:induction false} KeptListed(live: seq<Record>, c: DnsChange)
    ensures forall r :: r in Kept(live, c) ==> (r in live && !HasKey(c.removes, KeyOf(r))) || r in c.adds
  {
    if live != [] {
      var init, r := live[..|live| - 1], live[|live| - 1];
      KeptListed(init, c);
      AddedRecordIsListed(c.adds, KeyOf(r));
      assert live == init + [r];
    }
  }

  lemma {:induction false} AppendedListed(kept: seq<Record>, adds: seq<Record>)
    ensures forall r :: r in Appended(kept, adds) ==> r in adds
  {
    if adds != [] {
      AppendedListed(kept, adds[..|adds| - 1]);
      assert adds == adds[..|adds| - 1] + [adds[|adds| - 1]];
    }
  }

  lemma {:induction false} ApexListed(live: seq<Record>, zone: string)
    ensures forall r :: r in ApexOf(live, zone) <==> r in live && IsApex(r, zone)
  {
    if live != [] {
      ApexListed(live[..|live| - 1], zone);
      assert live == live[..|live| - 1] + [live[|live| - 1]];
    }
  }

  /** What is in the zone after a push: a live apex record, or a target record settled. */
  lemma PushedListed(s: Settings, live: seq<Record>, c: DnsChange, r: Record)
    requires AllSurvive(s, Target(live, c)) && r in Pushed(s, live, Render(s, Target(live, c)))
    ensures (r in live && IsApex(r, s.zone))
         || exists t :: r == Settled(t) && !IsApex(t, s.zone) && (t in live || t in c.adds)
  {
    var t := Target(live, c);
    var rows := SortByName(Declared(t, s.zone));
    ApexListed(live, s.zone);
    MadeIsSettledIff(s, t);
    if r !in ApexOf(live, s.zone) {
      var i :| 0 <= i < |rows| && SettledAll(rows)[i] == r;
      SortAt(Declared(t, s.zone), KeyOf(r));
      assert rows[i] in multiset(rows);
      assert rows[i] in multiset(Declared(t, s.zone));
      DeclaredListed(t, s.zone);
      KeptListed(live, c);
      AppendedListed(Kept(live, c), c.adds);
      assert rows[i] in t;
    }
  }

  /** The operation's record can itself be rendered. */
  predicate Renderable(s: Settings, want: Record) {
    want.rtype in RENDERABLE && '"' !in want.value && !IsApex(want, s.zone)
  }

  lemma StillFaithful(s: Settings, live: seq<Record>, managed: seq<Record>, c: DnsChange, out: seq<Record>)
    requires Apply(s, live, managed, c) == Ok(out) && AllSurvive(s, Target(live, c))
    requires forall a :: a in c.adds ==> Renderable(s, a)
    ensures !UnrenderableRefusal(s.zone, out)
  {
    forall r | r in out ensures !Unfaithful(out, r, s.zone) {
      PushedListed(s, live, c, r);
      if r in live && IsApex(r, s.zone) {
        assert !Unfaithful(live, r, s.zone);
      } else {
        var t :| r == Settled(t) && !IsApex(t, s.zone) && (t in live || t in c.adds);
        if t in live { assert !Unfaithful(live, t, s.zone); }
        if DataKey(s, KeyOf(r)) { SurvivorsAreKept(s, live, managed, c, out, KeyOf(r)); }
      }
    }
  }

  lemma StillOwned(s: Settings, live: seq<Record>, want: Record, c: DnsChange, out: seq<Record>)
    requires Apply(s, live, [want], c) == Ok(out) && AllSurvive(s, Target(live, c))
    requires GuardPasses(s, live, [want]) && !s.dedicated
    requires forall a :: a in c.adds ==> KeyOf(a) == KeyOf(want) && a.value == want.value
    ensures !ForeignRefusal(s.zone, [want], out)
  {
    assert [want][..0] == [];
    forall r | r in out && !IsApex(r, s.zone) ensures IsManaged([want], r) {
      PushedListed(s, live, c, r);
      var t :| r == Settled(t) && !IsApex(t, s.zone) && (t in live || t in c.adds);
      if t in live { assert IsManaged([want], t); }
    }
  }

  /** After an expose or unexpose whose push went through, the same diff is empty. */
  lemma DiffSettles(s: Settings, live: seq<Record>, verb: Verb, want: Record, c: DnsChange, out: seq<Record>)
    requires Renderable(s, want) && Diff(s, live, verb, want) == Ok(c)
    requires Apply(s, live, [want], c) == Ok(out) && AppendsZone(s) && Ordinary(s, live, c)
    ensures Diff(s, out, verb, want) == Ok(NoDnsChange)
  {
    hide Ordinary, AppendsZone, AllSurvive, HasSuffix, Unfaithful, ForeignRefusal, IsManaged;
    var key := KeyOf(want);
    OrdinarySurvives(s, live, c);
    StillFaithful(s, live, [want], c, out);
    if !s.dedicated {
      StillOwned(s, live, want, c, out);
    }
    PushIsLossless(s, live, [want], c, out, key);
    GuardedIsSingle(s, live, [want], key);
    CountIsPresence(out, key);
    CountIsPresence(live, key);
    WantAt(c, want, key);
  }

  lemma WantAt(c: DnsChange, want: Record, key: Key)
    requires key == KeyOf(want) && (c.adds == [] || (|c.adds| == 1 && KeyOf(c.adds[0]) == key))
    requires c.removes == [] || c.removes == [want]
    ensures HasKey(c.adds, key) <==> c.adds != []
    ensures c.adds != [] ==> FirstRecord(c.adds, key) == AddedRecord(c.adds, key) == Some(c.adds[0])
    ensures HasKey(c.removes, key) <==> c.removes != []
  {
    if c.adds != [] {
      assert c.adds[0] in c.adds && c.adds == [c.adds[0]];
      OneKey(c.adds[0], key);
    }
    if c.removes != [] { assert want in c.removes; }
  }
}
