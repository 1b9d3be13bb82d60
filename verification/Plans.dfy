/** What the plan of an operation holds (internal/core/engine.go, chain_write.go): which edges
    and providers it asks, what of each, and when there is a plan at all. */
module Plans {
  import opened Model
  import opened Zones
  import T = Topology
  import opened Planner
  import opened Steps
  import opened Orders
  import opened Renaming
  import opened Terms

  // ----- edges -----

  /** The operation appoints the edge, which serves the service or forwards it. */
  ghost predicate Joins(cfg: Config, op: Op, i: nat)
    requires i < |cfg.edges|
  {
    (op.edges == [] || cfg.edges[i].name in op.edges) && (Offers(cfg.edges[i], op.service) || Forwards(cfg, i, op.service))
  }

  lemma JoinsIff(cfg: Config, op: Op, i: nat)
    requires T.UniqueNames(cfg.edges) && i < |cfg.edges|
    ensures TakesPart(cfg, op, i) <==> Joins(cfg, op, i)
    ensures TakesPart(cfg, op, i) ==> (RoleOf(cfg, i, op.service) == T.RoleTerminal <==> Offers(cfg.edges[i], op.service))
  {
    RoleIff(cfg, i, op.service);
  }

  /** What an operation asks of an edge that joins in: nothing where the host is as wanted; one
      route, served or forwarded, where it is missing; the removal of the host, and of no other,
      where it is present. */
  ghost predicate AsksEdge(cfg: Config, op: Op, i: nat, live: LiveEdge, c: EdgeChange)
    requires i < |cfg.edges|
  {
    if op.verb == Expose && !HasRoute(live, op.host) then
      && c.removes == [] && |c.adds| == 1 && c.adds[0].host == op.host
      && (Offers(cfg.edges[i], op.service) ==> IsServing(cfg, i, op.service, op.mode, op.auth, c.adds[0]))
      && (!Offers(cfg.edges[i], op.service) ==> IsForwarding(cfg.edges[i], c.adds[0]))
    else if op.verb == Unexpose && HasRoute(live, op.host) then c == EdgeChange([], [op.host])
    else c == EdgeChange([], [])
  }

  lemma PlannedEdgeAsks(cfg: Config, op: Op, i: nat, live: LiveEdge)
    requires T.UniqueNames(cfg.edges) && i < |cfg.edges| && TakesPart(cfg, op, i) && PlanEdge(cfg, op, i, live).Ok?
    ensures AsksEdge(cfg, op, i, live, PlanEdge(cfg, op, i, live).value)
  {
    JoinsIff(cfg, op, i);
    HasRouteIff(live, op.host);
    SuffixIff(cfg.edges[i].downstreamAddress, ":443");
  }

  /** The edges a plan asks are exactly those that join in, each once, and it asks each exactly
      that. */
  lemma PlanAsksEdges(cfg: Config, w: World, op: Op, cs: ChangeSet)
    requires Fits(cfg, w) && T.UniqueNames(cfg.edges) && Plan(cfg, w, op) == Ok(cs)
    ensures forall j, k :: 0 <= j < k < |cs.edges| ==> cs.edges[j].edge < cs.edges[k].edge
    ensures forall j :: 0 <= j < |cs.edges| ==> cs.edges[j].edge < |cfg.edges| && Joins(cfg, op, cs.edges[j].edge)
    ensures forall j :: 0 <= j < |cs.edges| ==>
      AsksEdge(cfg, op, cs.edges[j].edge, w.edges[cs.edges[j].edge], cs.edges[j].change)
    ensures forall i :: 0 <= i < |cfg.edges| && Joins(cfg, op, i) ==> exists j :: 0 <= j < |cs.edges| && cs.edges[j].edge == i
    ensures op.verb == Expose ==> cs.edges != []
  {
    PlanEdgesListed(cfg, w, op, |cfg.edges|);
    PlanEdgesIncreasing(cfg, w, op, |cfg.edges|);
    forall j | 0 <= j < |cs.edges|
      ensures cs.edges[j].edge < |cfg.edges| && Joins(cfg, op, cs.edges[j].edge)
      ensures AsksEdge(cfg, op, cs.edges[j].edge, w.edges[cs.edges[j].edge], cs.edges[j].change)
    {
      var p := cs.edges[j];
      assert p in cs.edges && EntryPlanned(cfg, w, op, p);
      JoinsIff(cfg, op, p.edge);
      PlannedEdgeAsks(cfg, op, p.edge, w.edges[p.edge]);
    }
    forall i | 0 <= i < |cfg.edges| && Joins(cfg, op, i) ensures exists j :: 0 <= j < |cs.edges| && cs.edges[j].edge == i {
      JoinsIff(cfg, op, i);
      assert Listed(cs.edges, i);
    }
  }

  // ----- DNS providers -----

  /** The operation appoints the provider's scope, its zone has the host, and it would not make
      an internal-only service public. */
  ghost predicate Announces(cfg: Config, op: Op, dp: DnsProvider) {
    && (op.scopes == [] || dp.scope in op.scopes) && NamedIn(op.host, dp.zone)
    && (dp.scope == Public ==> op.service !in cfg.internal)
  }

  /** The one record a host is to have at a provider: its address, of the address's type. */
  function Wanted(dp: DnsProvider, host: Host): Record {
    Record(host, AddressType(dp), dp.target, dp.scope, 0, false)
  }

  /** Reported at the record's scope, type and name. */
  predicate Reports(zone: Zone, r: Record, q: Record) {
    Entry(q, true) in zone && q.scope == r.scope && q.rtype == r.rtype && q.name == r.name
  }

  ghost predicate LastNamed(zone: Zone, name: Host, value: string) {
    exists n :: 0 <= n < |zone| && IsNamed(zone[n], name) && zone[n].rec.value == value
                && forall k :: n < k < |zone| ==> !IsNamed(zone[k], name)
  }

  predicate IsNamed(e: Entry, name: Host) {
    e.ours && e.rec.name == name
  }

  /** What an operation asks of an announcing provider. Exposing: the wanted record where nothing
      answers, at Cloudflare also where its one record answers otherwise. Unexposing: AdGuard's
      rewrite where it answers as wanted, all of crenel's records there at Cloudflare. */
  ghost predicate AsksProvider(verb: Verb, dp: DnsProvider, host: Host, zone: Zone, c: DnsChange) {
    var want := Wanted(dp, host);
    match (dp.kind, verb)
    case (AdGuard, Expose) =>
      && (LastNamed(zone, host, dp.target) ==> c == DnsChange([], []))
      && (!LastNamed(zone, host, dp.target) ==> c == RewriteChange([want], []) && forall e :: e in zone ==> !IsNamed(e, host))
    case (AdGuard, Unexpose) =>
      c == if LastNamed(zone, host, dp.target) then RewriteChange([], [want]) else DnsChange([], [])
    case (Cloudflare, Expose) =>
      if exists q :: Reports(zone, want, q) && q.value == dp.target then c == DnsChange([], []) else c == DnsChange([want], [])
    case (Cloudflare, Unexpose) =>
      c.DnsChange? && c.adds == [] && forall q :: q in c.removes <==> Reports(zone, want, q)
    case _ => false
  }

  lemma {:induction false} LastNamedIff(zone: Zone, name: Host, value: string)
    ensures LastNamed(zone, name, value) <==> LastByName(zone, name).Some? && LastByName(zone, name).value.value == value
  {
    if zone != [] {
      var n := |zone| - 1;
      LastNamedIff(zone[..n], name, value);
      if LastNamed(zone, name, value) {
        var k :| 0 <= k < |zone| && IsNamed(zone[k], name) && zone[k].rec.value == value
                 && forall m :: k < m < |zone| ==> !IsNamed(zone[m], name);
        assert k == n || IsNamed(zone[..n][k], name);
      }
      if !IsNamed(zone[n], name) && LastNamed(zone[..n], name, value) {
        var k :| 0 <= k < n && IsNamed(zone[..n][k], name) && zone[..n][k].rec.value == value
                 && forall m :: k < m < n ==> !IsNamed(zone[..n][m], name);
        assert forall m :: k < m < n ==> zone[m] == zone[..n][m];
        assert IsNamed(zone[k], name);
      }
    }
  }

  lemma OursReported(dp: DnsProvider, host: Host, zone: Zone, q: Record)
    ensures q in OursAt(zone, KeyOf(Desired(dp, host))) <==> Reports(zone, Wanted(dp, host), q)
  {
    OursAtMembers(zone, KeyOf(Desired(dp, host)), q);
  }

  lemma PlannedProviderAsks(cfg: Config, op: Op, dp: DnsProvider, zone: Zone, c: DnsChange)
    requires PlanDns(cfg, op, dp, zone) == Ok(c)
    ensures DnsTakesPart(cfg, op, dp) <==> Announces(cfg, op, dp)
    ensures Announces(cfg, op, dp) ==> op.host != "" && '*' !in op.host && AsksProvider(op.verb, dp, op.host, zone, c)
    ensures !Announces(cfg, op, dp) ==> c == DnsChange([], [])
  {
    CoversIff(dp, op.host);
    if dp.kind == AdGuard {
      LastNamedIff(zone, op.host, dp.target);
      LastByNameListed(zone, op.host);
    } else {
      forall q ensures q in OursAt(zone, KeyOf(Desired(dp, op.host))) <==> Reports(zone, Wanted(dp, op.host), q) {
        OursReported(dp, op.host, zone, q);
      }
      var ours := OursAt(zone, KeyOf(Desired(dp, op.host)));
      if ours != [] {
        assert ours[0] in ours;
        assert |ours| == 1 ==> forall q :: q in ours ==> q == ours[0];
      }
    }
  }

  /** A plan has one change for each provider: none where it does not announce, else exactly
      what the operation asks. */
  lemma PlanAsksProviders(cfg: Config, w: World, op: Op, cs: ChangeSet)
    requires Fits(cfg, w) && Plan(cfg, w, op) == Ok(cs)
    ensures |cs.dns| == |cfg.dns| && cs.op == op
    ensures forall i :: 0 <= i < |cfg.dns| && !Announces(cfg, op, cfg.dns[i]) ==> cs.dns[i] == DnsChange([], [])
    ensures forall i :: 0 <= i < |cfg.dns| && Announces(cfg, op, cfg.dns[i]) ==>
      AsksProvider(op.verb, cfg.dns[i], op.host, w.dns[i], cs.dns[i])
  {
    PlanAllDnsListed(cfg, w, op, |cfg.dns|);
    forall i | 0 <= i < |cfg.dns|
      ensures !Announces(cfg, op, cfg.dns[i]) ==> cs.dns[i] == DnsChange([], [])
      ensures Announces(cfg, op, cfg.dns[i]) ==> AsksProvider(op.verb, cfg.dns[i], op.host, w.dns[i], cs.dns[i])
    {
      PlannedProviderAsks(cfg, op, cfg.dns[i], w.dns[i], cs.dns[i]);
    }
  }

  // ----- when there is a plan -----

  /** The edge can do what it would be asked. */
  ghost predicate CanServe(cfg: Config, op: Op, i: nat, live: LiveEdge)
    requires i < |cfg.edges|
  {
    var b := cfg.edges[i];
    if Offers(b, op.service) then
      op.host != "" && cfg.supports(b.name, op.mode, op.auth)
      && (op.verb == Expose && !HasRoute(live, op.host) ==> cfg.origin(b.name, op.service).Some?)
    else op.verb == Expose && !HasRoute(live, op.host) ==> b.downstreamAddress != ""
  }

  /** Nothing at the provider stands in the way: exposing, AdGuard has no rewrite of the host with
      another answer last, and Cloudflare no foreign record in crenel's place, nor several of
      crenel's. */
  ghost predicate CanAnnounce(verb: Verb, dp: DnsProvider, host: Host, zone: Zone) {
    && host != "" && '*' !in host
    && (verb == Expose && dp.kind == AdGuard ==> LastNamed(zone, host, dp.target) || forall e :: e in zone ==> !IsNamed(e, host))
    && (verb == Expose && dp.kind == Cloudflare ==> CanWrite(zone, Wanted(dp, host)))
  }

  ghost predicate CanWrite(zone: Zone, want: Record) {
    var ours := OursAt(zone, Key(want.scope, want.rtype, want.name));
    |ours| <= 1 && (ours == [] ==> forall e :: e in zone && !e.ours ==>
      !(e.rec.scope == want.scope && e.rec.rtype == want.rtype && e.rec.name == want.name))
  }

  lemma PlanEdgeOkIff(cfg: Config, op: Op, i: nat, live: LiveEdge)
    requires T.UniqueNames(cfg.edges) && i < |cfg.edges| && op.verb != Rename && TakesPart(cfg, op, i)
    ensures PlanEdge(cfg, op, i, live).Ok? <==> CanServe(cfg, op, i, live)
  {
    JoinsIff(cfg, op, i);
    HasRouteIff(live, op.host);
  }

  lemma PlanDnsOkIff(cfg: Config, op: Op, dp: DnsProvider, zone: Zone)
    requires op.verb != Rename
    ensures PlanDns(cfg, op, dp, zone).Ok? <==> (Announces(cfg, op, dp) ==> CanAnnounce(op.verb, dp, op.host, zone))
  {
    CoversIff(dp, op.host);
    LastNamedIff(zone, op.host, dp.target);
    LastByNameListed(zone, op.host);
    var key := KeyOf(Desired(dp, op.host));
    if e :| e in zone && !e.ours && KeyOf(e.rec) == key {
      var n :| 0 <= n < |zone| && zone[n] == e;
      assert ForeignAt(zone, key);
    }
    if ForeignAt(zone, key) {
      var n :| 0 <= n < |zone| && !zone[n].ours && KeyOf(zone[n].rec) == key;
      assert zone[n] in zone;
    }
  }

  lemma {:induction false} PlanEdgesOkIff(cfg: Config, w: World, op: Op, n: nat)
    requires Fits(cfg, w) && n <= |cfg.edges|
    ensures PlanEdges(cfg, w, op, n).Ok? <==> forall i :: 0 <= i < n && TakesPart(cfg, op, i) ==> PlanEdge(cfg, op, i, w.edges[i]).Ok?
  {
    hide TakesPart, PlanEdge;
    if n > 0 {
      PlanEdgesOkIff(cfg, w, op, n - 1);
    }
  }

  lemma {:induction false} PlanAllDnsOkIff(cfg: Config, w: World, op: Op, n: nat)
    requires Fits(cfg, w) && n <= |cfg.dns|
    ensures PlanAllDns(cfg, w, op, n).Ok? <==> forall i :: 0 <= i < n ==> PlanDns(cfg, op, cfg.dns[i], w.dns[i]).Ok?
  {
    hide PlanDns;
    if n > 0 {
      PlanAllDnsOkIff(cfg, w, op, n - 1);
    }
  }

  /** The policy can be attached, and an internal-only service is not asked to be made public. */
  predicate Sensible(cfg: Config, op: Op) {
    (op.auth in {"", "none"} || op.mode == HttpProxy) && (Public in op.scopes ==> op.service !in cfg.internal)
  }

  /** An operation is planned exactly when it is sensible, every edge that joins in can do its part
      and, exposing, there is one, and every announcing provider can do its. */
  lemma PlannedIff(cfg: Config, w: World, op: Op)
    requires Fits(cfg, w) && T.UniqueNames(cfg.edges) && op.verb != Rename
    ensures Plan(cfg, w, op).Ok? <==>
      && Sensible(cfg, op)
      && (op.verb == Expose ==> exists i :: 0 <= i < |cfg.edges| && Joins(cfg, op, i))
      && (forall i :: 0 <= i < |cfg.edges| && Joins(cfg, op, i) ==> CanServe(cfg, op, i, w.edges[i]))
      && (forall i :: 0 <= i < |cfg.dns| && Announces(cfg, op, cfg.dns[i]) ==> CanAnnounce(op.verb, cfg.dns[i], op.host, w.dns[i]))
  {
    hide PlanEdge, PlanDns, TakesPart, Joins, CanServe, Announces, CanAnnounce;
    PlanEdgesOkIff(cfg, w, op, |cfg.edges|);
    PlanAllDnsOkIff(cfg, w, op, |cfg.dns|);
    forall i | 0 <= i < |cfg.edges|
      ensures TakesPart(cfg, op, i) <==> Joins(cfg, op, i)
      ensures Joins(cfg, op, i) ==> (PlanEdge(cfg, op, i, w.edges[i]).Ok? <==> CanServe(cfg, op, i, w.edges[i]))
    {
      JoinsIff(cfg, op, i);
      if Joins(cfg, op, i) { PlanEdgeOkIff(cfg, op, i, w.edges[i]); }
    }
    forall i | 0 <= i < |cfg.dns|
      ensures PlanDns(cfg, op, cfg.dns[i], w.dns[i]).Ok? <==>
        (Announces(cfg, op, cfg.dns[i]) ==> CanAnnounce(op.verb, cfg.dns[i], op.host, w.dns[i]))
    {
      PlanDnsOkIff(cfg, op, cfg.dns[i], w.dns[i]);
    }
    if PlanEdges(cfg, w, op, |cfg.edges|).Ok? {
      PlanEdgesListed(cfg, w, op, |cfg.edges|);
      var ps := PlanEdges(cfg, w, op, |cfg.edges|).value;
      if ps != [] {
        assert ps[0] in ps && EntryPlanned(cfg, w, op, ps[0]);
        assert Joins(cfg, op, ps[0].edge);
      }
      if i :| 0 <= i < |cfg.edges| && Joins(cfg, op, i) {
        assert Listed(ps, i);
      }
    }
  }

  // ----- renames -----

  /** A rename asks exactly the edges that have the old host, each once: to move its route, with
      nothing but the name in it changed and no mark of its own, to the new one. It asks no DNS
      provider and appoints every edge and scope. */
  lemma RenameAsks(w: World, oldHost: Host, newHost: Host, cs: ChangeSet)
    requires PlanRename(w, oldHost, newHost) == Ok(cs)
    ensures cs.op == Op(Rename, "", newHost, HttpProxy, "", [], []) && cs.dns == []
    ensures forall j, k :: 0 <= j < k < |cs.edges| ==> cs.edges[j].edge < cs.edges[k].edge
    ensures forall j :: 0 <= j < |cs.edges| ==> cs.edges[j].edge < |w.edges| && exists r ::
      FirstRoute(w.edges[cs.edges[j].edge].routes, oldHost, r) &&
      cs.edges[j].change == EdgeChange([Route(newHost, r.upstream.(serverName := newHost), false, OwnUnset)], [oldHost])
    ensures forall i :: 0 <= i < |w.edges| && HasRoute(w.edges[i], oldHost) ==> exists j :: 0 <= j < |cs.edges| && cs.edges[j].edge == i
  {
    RenameEdgesListed(w, oldHost, newHost, |w.edges|);
    forall j | 0 <= j < |cs.edges|
      ensures cs.edges[j].edge < |w.edges| && exists r ::
        FirstRoute(w.edges[cs.edges[j].edge].routes, oldHost, r) &&
        cs.edges[j].change == EdgeChange([Route(newHost, r.upstream.(serverName := newHost), false, OwnUnset)], [oldHost])
    {
      var p := cs.edges[j];
      assert EntryMoves(w, oldHost, newHost, p);
      FirstRouteIff(w.edges[p.edge].routes, oldHost, Find(w.edges[p.edge].routes, oldHost).value);
    }
    forall i | 0 <= i < |w.edges| && HasRoute(w.edges[i], oldHost) ensures exists j :: 0 <= j < |cs.edges| && cs.edges[j].edge == i {
      HasRouteIff(w.edges[i], oldHost);
      assert Listed(cs.edges, i);
    }
  }
}
