/** What the dnscontrol driver refuses and what it writes, in the fields of the records alone
    (internal/drivers/dns/dnscontrol): the guard of a push, the diff, the rendered document. */
module DnsControlGuard {
  import opened Model
  import opened Planner
  import opened DnsControl
  import opened DnsControlLaws

  /** The provider's own: name servers and authority at the zone's apex. */
  predicate IsProviders(r: Record, zone: string) {
    r.name == zone && r.rtype in {"NS", "SOA"}
  }

  /** No other record of the list has its scope, type and name. */
  ghost predicate Alone(live: seq<Record>, r: Record) {
    forall i, j :: 0 <= i < j < |live| ==> !(KeyOf(live[i]) == KeyOf(r) && KeyOf(live[j]) == KeyOf(r))
  }

  /** A whole-zone push can reproduce the record: its type has one field and its value no quote, and
      nothing else is at its key; of the provider's own only quoted name servers are in the way. */
  ghost predicate Reproducible(live: seq<Record>, r: Record, zone: string) {
    if r.rtype in {"A", "AAAA", "CNAME", "TXT", "NS", "PTR"} then '"' !in r.value && (IsProviders(r, zone) || Alone(live, r))
    else IsProviders(r, zone)
  }

  /** The last of crenel's records at its key has its value. */
  ghost predicate IsCrenels(managed: seq<Record>, r: Record) {
    exists n :: 0 <= n < |managed| && KeyOf(managed[n]) == KeyOf(r) && managed[n].value == r.value
                && forall k :: n < k < |managed| ==> KeyOf(managed[k]) != KeyOf(r)
  }

  ghost predicate MayPush(s: Settings, live: seq<Record>, managed: seq<Record>) {
    && (forall r :: r in live ==> Reproducible(live, r, s.zone))
    && (s.dedicated || forall r :: r in live ==> IsProviders(r, s.zone) || IsCrenels(managed, r))
  }

  lemma AloneSnoc(init: seq<Record>, last: Record, r: Record)
    ensures Alone(init + [last], r) <==> Alone(init, r) && (KeyOf(last) == KeyOf(r) ==> !HasKey(init, KeyOf(r)))
  {
    hide KeyOf;
    var live := init + [last];
    if !Alone(init, r) {
      var i, j :| 0 <= i < j < |init| && KeyOf(init[i]) == KeyOf(r) && KeyOf(init[j]) == KeyOf(r);
      assert live[i] == init[i] && live[j] == init[j];
    }
    if KeyOf(last) == KeyOf(r) && HasKey(init, KeyOf(r)) {
      var q :| q in init && KeyOf(q) == KeyOf(r);
      var i :| 0 <= i < |init| && init[i] == q;
      assert live[i] == q && live[|init|] == last;
    }
    if !Alone(live, r) {
      var i, j :| 0 <= i < j < |live| && KeyOf(live[i]) == KeyOf(r) && KeyOf(live[j]) == KeyOf(r);
      assert live[i] == init[i] && init[i] in init;
    }
  }

  lemma {:induction false} AloneIff(live: seq<Record>, r: Record)
    ensures CountKey(live, KeyOf(r)) > 1 <==> !Alone(live, r)
  {
    hide KeyOf, Alone;
    if live == [] {
      assert Alone(live, r) by { NoneAlone(live, r); }
    } else {
      var n := |live| - 1;
      AloneIff(live[..n], r);
      AloneSnoc(live[..n], live[n], r);
      CountIsPresence(live[..n], KeyOf(r));
      assert live == live[..n] + [live[n]];
    }
  }

  lemma NoneAlone(live: seq<Record>, r: Record)
    requires live == []
    ensures Alone(live, r)
  {
  }

  lemma {:induction false} CrenelsIff(managed: seq<Record>, r: Record)
    ensures IsManaged(managed, r) <==> IsCrenels(managed, r)
  {
    if managed != [] {
      var n := |managed| - 1;
      CrenelsIff(managed[..n], r);
      if IsCrenels(managed, r) {
        var k :| 0 <= k < |managed| && KeyOf(managed[k]) == KeyOf(r) && managed[k].value == r.value
                 && forall m :: k < m < |managed| ==> KeyOf(managed[m]) != KeyOf(r);
        assert k < n ==> managed[..n][k] == managed[k];
      }
      if IsCrenels(managed[..n], r) && KeyOf(managed[n]) != KeyOf(r) {
        var k :| 0 <= k < n && KeyOf(managed[..n][k]) == KeyOf(r) && managed[..n][k].value == r.value
                 && forall m :: k < m < n ==> KeyOf(managed[..n][m]) != KeyOf(r);
        assert forall m :: k < m < n ==> managed[m] == managed[..n][m];
        assert managed[k] == managed[..n][k];
      }
    }
  }

  lemma ReproducibleIff(live: seq<Record>, r: Record, zone: string)
    ensures Unfaithful(live, r, zone) <==> !Reproducible(live, r, zone)
  {
    hide CountKey, Alone;
    AloneIff(live, r);
  }

  /** The guard lets a push through exactly when every live record can be reproduced and, unless the
      zone is dedicated, is the provider's own or one of crenel's with crenel's value. */
  lemma GuardPassesIff(s: Settings, live: seq<Record>, managed: seq<Record>)
    ensures GuardPasses(s, live, managed) <==> MayPush(s, live, managed)
  {
    hide IsManaged, IsCrenels, Unfaithful, Reproducible;
    forall r
      ensures IsManaged(managed, r) <==> IsCrenels(managed, r)
      ensures Unfaithful(live, r, s.zone) <==> !Reproducible(live, r, s.zone)
      ensures IsApex(r, s.zone) <==> IsProviders(r, s.zone)
    {
      CrenelsIff(managed, r);
      ReproducibleIff(live, r, s.zone);
    }
  }

  /** An apply goes through exactly when the guard admits it, with what the change adds and removes
      counted as crenel's own. */
  lemma ApplyGoesThroughIff(s: Settings, live: seq<Record>, managed: seq<Record>, c: DnsChange)
    ensures Apply(s, live, managed, c).Ok? <==> MayPush(s, live, managed + c.adds + c.removes)
  {
    GuardPassesIff(s, live, managed + c.adds + c.removes);
  }

  ghost predicate LastLive(live: seq<Record>, want: Record, cur: Record) {
    exists n :: 0 <= n < |live| && live[n] == cur && KeyOf(cur) == KeyOf(want) && forall k :: n < k < |live| ==> KeyOf(live[k]) != KeyOf(want)
  }

  lemma {:induction false} LastLiveIff(live: seq<Record>, want: Record, cur: Record)
    ensures AddedRecord(live, KeyOf(want)) == Some(cur) <==> LastLive(live, want, cur)
  {
    if live != [] {
      var n := |live| - 1;
      LastLiveIff(live[..n], want, cur);
      if LastLive(live, want, cur) {
        var k :| 0 <= k < |live| && live[k] == cur && KeyOf(cur) == KeyOf(want) && forall m :: k < m < |live| ==> KeyOf(live[m]) != KeyOf(want);
        assert k < n ==> live[..n][k] == live[k];
      }
      if LastLive(live[..n], want, cur) && KeyOf(live[n]) != KeyOf(want) {
        var k :| 0 <= k < n && live[..n][k] == cur && KeyOf(cur) == KeyOf(want)
                 && forall m :: k < m < n ==> KeyOf(live[..n][m]) != KeyOf(want);
        assert forall m :: k < m < n ==> live[m] == live[..n][m];
        assert live[k] == cur;
      }
    }
  }

  /** A diff is given exactly when the guard would let a push through with the wanted record as
      crenel's. Exposing, it adds that record where none is and, where the last there answers
      otherwise, with that one's lifetime and proxied flag; unexposing, it removes it where any is. */
  lemma DiffAsks(s: Settings, live: seq<Record>, verb: Verb, want: Record)
    requires verb != Rename
    ensures var d := Diff(s, live, verb, want);
      && (d.Ok? <==> MayPush(s, live, [want]))
      && (d.Ok? ==> d.value.DnsChange?)
      && (d.Ok? && (forall r :: r in live ==> KeyOf(r) != KeyOf(want)) ==>
            d.value == if verb == Expose then DnsChange([want], []) else DnsChange([], []))
      && (d.Ok? ==> forall cur :: LastLive(live, want, cur) ==>
            d.value == if verb == Unexpose then DnsChange([], [want])
                       else if cur.value == want.value then DnsChange([], [])
                       else DnsChange([want.(ttl := cur.ttl, proxied := cur.proxied)], []))
  {
    GuardPassesIff(s, live, [want]);
    AddedRecordIsListed(live, KeyOf(want));
    forall cur ensures AddedRecord(live, KeyOf(want)) == Some(cur) <==> LastLive(live, want, cur) {
      LastLiveIff(live, want, cur);
    }
  }

  // ----- the document -----

  /** A record's line: every field, its name relative to the zone, its lifetime only when pinned,
      its proxied flag only where Cloudflare can hold it. */
  predicate WritesLine(s: Settings, r: Record, e: DocEntry) {
    && e.rtype == r.rtype && e.rel == RelName(r.name, s.zone) && e.value == r.value && e.scope == r.scope
    && e.ttl == (if r.ttl <= 1 then None else Some(r.ttl))
    && (e.proxyOn <==> r.proxied && s.cloudflare && r.rtype in {"A", "AAAA", "CNAME"})
  }

  /** Alphabetical order: the first letters that differ decide, and a shorter name comes first. */
  ghost predicate Alphabetical(a: string, b: string) {
    exists k :: 0 <= k <= |a| && k <= |b| && a[..k] == b[..k] && (k == |a| || (k < |b| && a[k] < b[k]))
  }

  lemma {:induction false} AlphabeticalIff(a: string, b: string)
    ensures NameLeq(a, b) <==> Alphabetical(a, b)
  {
    if a == "" {
      assert a[..0] == b[..0];
    } else if b != "" && a[0] == b[0] {
      AlphabeticalIff(a[1..], b[1..]);
      if Alphabetical(a[1..], b[1..]) {
        var k :| 0 <= k <= |a[1..]| && k <= |b[1..]| && a[1..][..k] == b[1..][..k] && (k == |a[1..]| || (k < |b[1..]| && a[1..][k] < b[1..][k]));
        assert a[..k + 1] == [a[0]] + a[1..][..k] && b[..k + 1] == [b[0]] + b[1..][..k];
      }
      if Alphabetical(a, b) {
        var k :| 0 <= k <= |a| && k <= |b| && a[..k] == b[..k] && (k == |a| || (k < |b| && a[k] < b[k]));
        assert k > 0;
        assert a[1..][..k - 1] == a[..k][1..] && b[1..][..k - 1] == b[..k][1..];
      }
    } else if b != "" && a[0] < b[0] {
      assert a[..0] == b[..0];
    } else {
      forall k | 0 < k <= |a| && k <= |b| ensures a[..k] != b[..k] {
        assert a[..k][0] != b[..k][0];
      }
    }
  }

  lemma {:induction false} NameLeqTotal(a: string, b: string, c: string)
    ensures NameLeq(a, b) || NameLeq(b, a)
    ensures NameLeq(a, b) && NameLeq(b, c) ==> NameLeq(a, c)
  {
    if a != "" && b != "" {
      NameLeqTotal(a[1..], b[1..], if c == "" then "" else c[1..]);
    }
  }

  ghost predicate InOrder(rows: seq<Record>) {
    forall i, j :: 0 <= i < j < |rows| ==> NameLeq(rows[i].name, rows[j].name)
  }

  lemma {:induction false} InsertedInOrder(r: Record, rows: seq<Record>)
    requires InOrder(rows)
    ensures InOrder(InsertByName(r, rows))
  {
    if rows == [] {
    } else if NameLeq(r.name, rows[0].name) {
      forall j | 0 <= j < |rows| ensures NameLeq(r.name, rows[j].name) {
        NameLeqTotal(r.name, rows[0].name, rows[j].name);
      }
    } else {
      var rest := InsertByName(r, rows[1..]);
      InsertedInOrder(r, rows[1..]);
      NameLeqTotal(r.name, rows[0].name, "");
      InsertAt(r, rows[1..], KeyOf(r));
      forall j | 0 <= j < |rest| ensures NameLeq(rows[0].name, rest[j].name) {
        assert rest[j] in multiset(rest);
        assert rest[j] == r || rest[j] in rows[1..];
      }
    }
  }

  lemma {:induction false} SortedInOrder(recs: seq<Record>)
    ensures InOrder(SortByName(recs))
  {
    if recs != [] {
      SortedInOrder(recs[1..]);
      InsertedInOrder(recs[0], SortByName(recs[1..]));
    }
  }

  /** The document has a line for each record but the provider's own, no other, in alphabetical
      order of their names. */
  lemma RenderedLines(s: Settings, recs: seq<Record>) returns (rows: seq<Record>)
    ensures forall r :: r in rows <==> r in recs && !IsProviders(r, s.zone)
    ensures |rows| == |Render(s, recs)| && forall i :: 0 <= i < |rows| ==> WritesLine(s, rows[i], Render(s, recs)[i])
    ensures forall i, j :: 0 <= i < j < |rows| ==> Alphabetical(rows[i].name, rows[j].name)
  {
    rows := SortByName(Declared(recs, s.zone));
    RowsListed(recs, s.zone);
    SortedInOrder(Declared(recs, s.zone));
    forall i, j | 0 <= i < j < |rows| ensures Alphabetical(rows[i].name, rows[j].name) {
      AlphabeticalIff(rows[i].name, rows[j].name);
    }
  }

  // ----- the push -----

  /** The record a line stands for: under the name dnscontrol expands its label to, with the
      automatic lifetime where none is pinned. */
  predicate StandsFor(s: Settings, e: DocEntry, r: Record) {
    && r.name == s.expand(e.rel) && r.rtype == e.rtype && r.value == e.value && r.scope == e.scope
    && r.ttl == (if e.ttl.Some? then e.ttl.value else 1) && r.proxied == e.proxyOn
  }

  /** A push leaves the zone with exactly the provider's own records as they were and what the lines
      of the document stand for. */
  lemma PushLeaves(s: Settings, live: seq<Record>, doc: seq<DocEntry>, r: Record)
    ensures r in Pushed(s, live, doc) <==> (r in live && IsProviders(r, s.zone)) || exists e :: e in doc && StandsFor(s, e, r)
  {
    ApexListed(live, s.zone);
    var made := MadeAll(s, doc);
    if r in made {
      var i :| 0 <= i < |made| && made[i] == r;
      assert doc[i] in doc && StandsFor(s, doc[i], r);
    }
    if e :| e in doc && StandsFor(s, e, r) {
      var i :| 0 <= i < |doc| && doc[i] == e;
      assert made[i] == r;
    }
  }
}
