/** What a reconcile plans and what its read-back asks, in terms of the live state alone
    (internal/core/reconcile.go): which routes and records it adds, which it removes, and that it
    removes and adds no others. */
module Corrections {
  import opened Model
  import opened Zones
  import T = Topology
  import opened Planner
  import opened Steps
  import opened Terms
  import opened Plans
  import opened Changes
  import opened Canonical
  import opened Reconcile
  import opened ReconcileDns
  import opened Converge

  // ----- the canonical set -----

  /** A host some edge has, in crenel's domain. */
  ghost predicate Exposed(cfg: Config, w: World, host: Host) {
    InDomain(cfg, host) && exists j :: 0 <= j < |w.edges| && HasRoute(w.edges[j], host)
  }

  /** The edge serves the host's service and has the host. */
  ghost predicate ServesHere(cfg: Config, w: World, host: Host, m: nat)
    requires Fits(cfg, w)
  {
    m < |cfg.edges| && Offers(cfg.edges[m], cfg.serviceOf(host)) && HasRoute(w.edges[m], host)
  }

  /** The edge whose route is canonical for the host: the first that has it and serves it, failing
      any the first that has it. */
  ghost predicate Leads(cfg: Config, w: World, host: Host, m: nat)
    requires Fits(cfg, w)
  {
    && m < |cfg.edges| && HasRoute(w.edges[m], host)
    && if exists k :: ServesHere(cfg, w, host, k) then ServesHere(cfg, w, host, m) && forall k :: 0 <= k < m ==> !ServesHere(cfg, w, host, k)
       else forall k :: 0 <= k < m ==> !HasRoute(w.edges[k], host)
  }

  ghost predicate IsCanonical(cfg: Config, w: World, host: Host, mode: Mode, auth: string)
    requires Fits(cfg, w)
  {
    exists m: nat, r :: Leads(cfg, w, host, m) && FirstRoute(w.edges[m].routes, host, r) && r.upstream.mode == mode && r.upstream.auth == auth
  }

  lemma ServedIff(cfg: Config, w: World, host: Host, m: nat)
    requires Fits(cfg, w)
    ensures ServesHere(cfg, w, host, m) <==> m < |cfg.edges| && HasHost(w.edges[m], host) && ServedBy(cfg, m, host)
  {
    if m < |cfg.edges| {
      HasRouteIff(w.edges[m], host);
      FrontingServes(cfg, m, host);
    }
  }

  lemma CanonIff(cfg: Config, w: World, host: Host)
    requires Fits(cfg, w)
    ensures host in CanonOf(cfg, w) <==> Exposed(cfg, w, host)
    ensures host in CanonOf(cfg, w) ==> forall mode, auth ::
      IsCanonical(cfg, w, host, mode, auth) <==> mode == CanonOf(cfg, w)[host].mode && auth == CanonOf(cfg, w)[host].auth
  {
    hide CanonOf, ServedBy;
    var n := |cfg.edges|;
    CanonAt(cfg, w, host);
    DomainIff(cfg, host);
    FirstEdgeBound(cfg, w, host, true, n);
    FirstEdgeBound(cfg, w, host, false, n);
    forall m: nat | m < n ensures ServesHere(cfg, w, host, m) <==> HasHost(w.edges[m], host) && ServedBy(cfg, m, host)
                          ensures HasRoute(w.edges[m], host) <==> HasHost(w.edges[m], host) {
      ServedIff(cfg, w, host, m);
      HasRouteIff(w.edges[m], host);
    }
    var first := if FirstEdge(cfg, w, host, true, n).Some? then FirstEdge(cfg, w, host, true, n) else FirstEdge(cfg, w, host, false, n);
    if first.Some? {
      var s := first.value;
      assert Leads(cfg, w, host, s);
      assert forall m: nat :: Leads(cfg, w, host, m) ==> m == s;
      var r := Find(w.edges[s].routes, host).value;
      forall q ensures FirstRoute(w.edges[s].routes, host, q) <==> q == r {
        FirstRouteIff(w.edges[s].routes, host, q);
      }
    }
  }

  // ----- records -----

  /** A wildcard of one leading star, and a name with a label in its place. */
  ghost predicate StandsFor(pattern: string, host: Host) {
    exists head: string, rest: string :: head != "" && pattern == "*." + rest && host == head + ("." + rest)
  }

  lemma PatternIff(pattern: string, host: Host)
    ensures PatternCovers(pattern, host) <==> StandsFor(pattern, host)
  {
    if PatternCovers(pattern, host) {
      var n := |host| - |pattern| + 1;
      assert pattern == "*." + pattern[2..] && pattern[1..] == "." + pattern[2..];
      assert host == host[..n] + ("." + pattern[2..]);
    }
    if head: string, rest: string :| head != "" && pattern == "*." + rest && host == head + ("." + rest) {
      assert pattern[1..] == "." + rest;
      assert host[|host| - |pattern[1..]|..] == "." + rest;
    }
  }

  /** A record that counts as an answer: reported, or where only marked records are, any. */
  predicate Counts(dp: DnsProvider, e: Entry) {
    e.ours || dp.kind == Cloudflare
  }

  /** The first counting wildcard for a host answers the target. */
  ghost predicate WildcardAnswers(dp: DnsProvider, zone: Zone, host: Host) {
    exists n :: 0 <= n < |zone| && CountsFor(dp, zone[n], host) && zone[n].rec.value == dp.target
                && forall k :: 0 <= k < n ==> !CountsFor(dp, zone[k], host)
  }

  ghost predicate CountsFor(dp: DnsProvider, e: Entry, host: Host) {
    Counts(dp, e) && StandsFor(e.rec.name, host)
  }

  lemma {:induction false} WildcardAnswersIff(dp: DnsProvider, zone: Zone, host: Host)
    ensures CoveringWildcard(dp, zone, host) == Some(dp.target) <==> WildcardAnswers(dp, zone, host)
  {
    if zone != [] {
      WildcardAnswersIff(dp, zone[1..], host);
      PatternIff(zone[0].rec.name, host);
      assert IsCoveringEntry(dp, zone[0], host) <==> CountsFor(dp, zone[0], host);
      if WildcardAnswers(dp, zone, host) {
        var n :| 0 <= n < |zone| && CountsFor(dp, zone[n], host) && zone[n].rec.value == dp.target
                 && forall k :: 0 <= k < n ==> !CountsFor(dp, zone[k], host);
        if n > 0 {
          assert zone[1..][n - 1] == zone[n];
          assert forall k :: 0 <= k < n - 1 ==> zone[1..][k] == zone[k + 1];
        }
      }
      if WildcardAnswers(dp, zone[1..], host) && !CountsFor(dp, zone[0], host) {
        var n :| 0 <= n < |zone| - 1 && CountsFor(dp, zone[1..][n], host) && zone[1..][n].rec.value == dp.target
                 && forall k :: 0 <= k < n ==> !CountsFor(dp, zone[1..][k], host);
        assert forall k :: 1 <= k < n + 1 ==> zone[k] == zone[1..][k - 1];
        assert CountsFor(dp, zone[n + 1], host);
      }
    }
  }

  /** A provider owes a host a record: it reports none and neither an exact record nor the first
      wildcard for it answers the target; or it is a provider that proves ownership and its last own
      record answers something else. */
  ghost predicate OwesRecord(dp: DnsProvider, zone: Zone, host: Host) {
    var last := LastAt(zone, Key(dp.scope, AddressType(dp), host));
    if last.Some? then dp.kind == Cloudflare && last.value.value != dp.target
    else !(exists e :: e in zone && Counts(dp, e) && e.rec.(ttl := 0, proxied := false) == Wanted(dp, host)) && !WildcardAnswers(dp, zone, host)
  }

  lemma OwesIff(dp: DnsProvider, zone: Zone, host: Host)
    ensures Corrects(dp, zone, Desired(dp, host)) <==> OwesRecord(dp, zone, host)
  {
    WildcardAnswersIff(dp, zone, host);
    var rec := Desired(dp, host);
    forall e | e in zone && InCoverage(dp, e)
      ensures KeyOf(e.rec) == KeyOf(rec) && e.rec.value == rec.value <==> e.rec.(ttl := 0, proxied := false) == Wanted(dp, host)
    {
    }
  }

  /** The provider is to announce the host: its zone has it, and it would not make an internal-only
      service public. */
  ghost predicate IsFor(cfg: Config, dp: DnsProvider, host: Host) {
    NamedIn(host, dp.zone) && !(dp.scope == Public && cfg.serviceOf(host) in cfg.internal)
  }

  /** A reported record of a plain name in crenel's domain that no edge has. */
  ghost predicate IsLeftOver(cfg: Config, w: World, zone: Zone, r: Record) {
    && Entry(r, true) in zone && '*' !in r.name && InDomain(cfg, r.name)
    && (r.name == "" || forall j :: 0 <= j < |w.edges| ==> !HasRoute(w.edges[j], r.name))
  }

  /** A reconcile adds to a provider exactly the records owed to exposed hosts it is for, and
      removes exactly the left-over ones. In particular it makes no internal-only service public
      and takes no record whose service no edge serves, whose name is a wildcard or whose host is
      still exposed. */
  lemma ReconcileRecords(cfg: Config, w: World, order: seq<Host>, p: Passes, i: nat)
    requires Fits(cfg, w) && Lists(order, CanonOf(cfg, w)) && PlanReconcile(cfg, w, order) == Ok(p) && i < |cfg.dns|
    ensures |p.dns| == |cfg.dns|
    ensures forall r :: r in p.dns[i].adds <==>
      r == Wanted(cfg.dns[i], r.name) && Exposed(cfg, w, r.name) && IsFor(cfg, cfg.dns[i], r.name) && OwesRecord(cfg.dns[i], w.dns[i], r.name)
    ensures forall r :: r in p.dns[i].adds ==> r.name != ""
    ensures forall r :: r in p.dns[i].removes <==> IsLeftOver(cfg, w, w.dns[i], r)
    ensures p.dns[i].adds + p.dns[i].removes != [] ==> (p.dns[i].RewriteChange? <==> cfg.dns[i].kind == AdGuard)
  {
    hide CanonOf, Corrects, OwesRecord, InDomain, DnsAdds, StaleRecords;
    var dp, zone, canon := cfg.dns[i], w.dns[i], CanonOf(cfg, w);
    PlanAt(cfg, w, order);
    DnsAddsListed(cfg, dp, zone, order);
    StaleListed(cfg, canon, zone);
    forall h
      ensures h in canon <==> Exposed(cfg, w, h)
      ensures Demanded(cfg, dp, h) <==> IsFor(cfg, dp, h)
      ensures Corrects(dp, zone, Desired(dp, h)) <==> OwesRecord(dp, zone, h)
      ensures Managed(cfg, h) <==> InDomain(cfg, h)
    {
      CanonIff(cfg, w, h);
      CoversIff(dp, h);
      OwesIff(dp, zone, h);
      DomainIff(cfg, h);
    }
    forall r ensures r in p.dns[i].adds <==>
      r == Wanted(dp, r.name) && Exposed(cfg, w, r.name) && IsFor(cfg, dp, r.name) && OwesRecord(dp, zone, r.name)
    {
      OwedIsAdded(cfg, dp, zone, order, r);
    }
    forall r ensures r in p.dns[i].removes <==> IsLeftOver(cfg, w, zone, r) {
      assert IsStale(cfg, canon, Entry(r, true)) && Entry(r, true) in zone <==> IsLeftOver(cfg, w, zone, r);
    }
  }

  lemma OwedIsAdded(cfg: Config, dp: DnsProvider, zone: Zone, order: seq<Host>, r: Record)
    requires DnsAdds(cfg, dp, zone, order).Ok?
    ensures r in DnsAdds(cfg, dp, zone, order).value <==>
      r == Desired(dp, r.name) && r.name in order && Demanded(cfg, dp, r.name) && Corrects(dp, zone, r)
  {
    hide Corrects;
    var adds := DnsAdds(cfg, dp, zone, order).value;
    DnsAddsListed(cfg, dp, zone, order);
    DnsAddsAt(cfg, dp, zone, order, KeyOf(r));
    AddedRecordIsListed(adds, KeyOf(r));
  }

  // ----- routes -----

  /** The first wildcard route for a host forwards into the chain: it dials the downstream's host,
      or any where no address is configured. */
  ghost predicate RidesWildcard(cfg: Config, b: T.Binding, live: LiveEdge, host: Host) {
    exists n :: 0 <= n < |live.routes| && StandsFor(live.routes[n].host, host) && IntoChain(cfg, b, live.routes[n])
                && forall k :: 0 <= k < n ==> !StandsFor(live.routes[k].host, host)
  }

  predicate IntoChain(cfg: Config, b: T.Binding, r: Route) {
    b.downstream != "" && r.upstream.mode != MeshGrant
    && (b.downstreamAddress != "" ==> cfg.dialHost(r.upstream.address) == cfg.dialHost(b.downstreamAddress))
  }

  ghost predicate FirstWildcard(routes: seq<Route>, host: Host, r: Route) {
    exists n :: 0 <= n < |routes| && routes[n] == r && StandsFor(r.host, host) && forall k :: 0 <= k < n ==> !StandsFor(routes[k].host, host)
  }

  lemma {:induction false} CoveringRouteIff(routes: seq<Route>, host: Host, r: Route)
    ensures CoveringRoute(routes, host) == Some(r) <==> FirstWildcard(routes, host, r)
  {
    if routes != [] {
      CoveringRouteIff(routes[1..], host, r);
      PatternIff(routes[0].host, host);
      if FirstWildcard(routes, host, r) {
        var n :| 0 <= n < |routes| && routes[n] == r && StandsFor(r.host, host) && forall k :: 0 <= k < n ==> !StandsFor(routes[k].host, host);
        if n > 0 {
          assert routes[1..][n - 1] == r;
          assert forall k :: 0 <= k < n - 1 ==> routes[1..][k] == routes[k + 1];
        }
      }
      if FirstWildcard(routes[1..], host, r) && !StandsFor(routes[0].host, host) {
        var n :| 0 <= n < |routes| - 1 && routes[1..][n] == r && StandsFor(r.host, host)
                 && forall k :: 0 <= k < n ==> !StandsFor(routes[1..][k].host, host);
        assert forall k :: 1 <= k < n + 1 ==> routes[k] == routes[1..][k - 1];
        assert routes[n + 1] == r;
      }
    }
  }

  lemma RidesIff(cfg: Config, b: T.Binding, live: LiveEdge, host: Host)
    ensures CarriedByWildcard(cfg, b, live, host) <==> RidesWildcard(cfg, b, live, host)
  {
    forall r ensures CoveringRoute(live.routes, host) == Some(r) <==> FirstWildcard(live.routes, host, r) {
      CoveringRouteIff(live.routes, host, r);
    }
    if CarriedByWildcard(cfg, b, live, host) {
      assert FirstWildcard(live.routes, host, CoveringRoute(live.routes, host).value);
    }
    if RidesWildcard(cfg, b, live, host) {
      var n :| 0 <= n < |live.routes| && StandsFor(live.routes[n].host, host) && IntoChain(cfg, b, live.routes[n])
               && forall k :: 0 <= k < n ==> !StandsFor(live.routes[k].host, host);
      assert FirstWildcard(live.routes, host, live.routes[n]);
    }
  }

  /** The edge has the host in another mode than the canonical one. */
  ghost predicate InOtherMode(cfg: Config, w: World, i: nat, host: Host)
    requires Fits(cfg, w) && i < |cfg.edges|
  {
    exists r, mode, auth :: FirstRoute(w.edges[i].routes, host, r) && IsCanonical(cfg, w, host, mode, auth) && r.upstream.mode != mode
  }

  /** The edge has a part in the host's exposure. */
  ghost predicate HasPart(cfg: Config, i: nat, host: Host)
    requires i < |cfg.edges|
  {
    Offers(cfg.edges[i], cfg.serviceOf(host)) || Forwards(cfg, i, cfg.serviceOf(host))
  }

  /** An edge with a part in an exposed host lacks its route: it has one in another mode, or none,
      and no wildcard forward does for it. */
  ghost predicate LacksRoute(cfg: Config, w: World, i: nat, host: Host)
    requires Fits(cfg, w) && i < |cfg.edges|
  {
    Exposed(cfg, w, host) && HasPart(cfg, i, host) &&
    if HasRoute(w.edges[i], host) then InOtherMode(cfg, w, i, host)
    else Offers(cfg.edges[i], cfg.serviceOf(host)) || !RidesWildcard(cfg, cfg.edges[i], w.edges[i], host)
  }

  /** The route an edge is to have: served in the canonical mode under the canonical policy, or
      forwarded. */
  ghost predicate IsCorrect(cfg: Config, w: World, i: nat, r: Route)
    requires Fits(cfg, w) && i < |cfg.edges|
  {
    if Offers(cfg.edges[i], cfg.serviceOf(r.host)) then
      exists mode, auth :: IsCanonical(cfg, w, r.host, mode, auth) && IsServing(cfg, i, cfg.serviceOf(r.host), mode, auth, r)
    else IsForwarding(cfg.edges[i], r)
  }

  lemma LacksIff(cfg: Config, w: World, i: nat, host: Host)
    requires Fits(cfg, w) && T.UniqueNames(cfg.edges) && i < |cfg.edges| && host in CanonOf(cfg, w)
    ensures var c := Correction(cfg, i, w.edges[i], host, CanonOf(cfg, w)[host]);
      && (c != Ok(NoEdgeChange) <==> LacksRoute(cfg, w, i, host))
      && (c.Ok? && c.value != NoEdgeChange ==>
            && |c.value.adds| == 1 && c.value.adds[0].host == host && IsCorrect(cfg, w, i, c.value.adds[0])
            && c.value.removes == if HasRoute(w.edges[i], host) then [host] else [])
  {
    hide CanonOf, RoleOf, RidesWildcard, CarriedByWildcard, HasSuffix, EndsIn, Exposed;
    var live, canon := w.edges[i], CanonOf(cfg, w)[host];
    RoleIff(cfg, i, cfg.serviceOf(host));
    CanonIff(cfg, w, host);
    RidesIff(cfg, cfg.edges[i], live, host);
    HasRouteIff(live, host);
    SuffixIff(cfg.edges[i].downstreamAddress, ":443");
    assert IsCanonical(cfg, w, host, canon.mode, canon.auth);
    forall r ensures FirstRoute(live.routes, host, r) <==> Find(live.routes, host) == Some(r) {
      FirstRouteIff(live.routes, host, r);
    }
    if HasHost(live, host) && Find(live.routes, host).value.upstream.mode != canon.mode {
      assert FirstRoute(live.routes, host, Find(live.routes, host).value);
      assert InOtherMode(cfg, w, i, host);
    }
  }

  /** A reconcile adds to an edge exactly one correct route for each host whose route it lacks, and
      removes exactly those of them it has in another mode. */
  lemma ReconcileRoutes(cfg: Config, w: World, order: seq<Host>, p: Passes, i: nat)
    requires Fits(cfg, w) && T.UniqueNames(cfg.edges) && Lists(order, CanonOf(cfg, w)) && PlanReconcile(cfg, w, order) == Ok(p)
    requires i < |cfg.edges|
    ensures |p.edges| == |cfg.edges|
    ensures forall r :: r in p.edges[i].adds ==> LacksRoute(cfg, w, i, r.host) && IsCorrect(cfg, w, i, r)
    ensures forall h :: LacksRoute(cfg, w, i, h) ==> exists r :: r in p.edges[i].adds && r.host == h
    ensures forall h :: h in p.edges[i].removes <==> LacksRoute(cfg, w, i, h) && HasRoute(w.edges[i], h)
  {
    hide CanonOf, LacksRoute, IsCorrect, Correction, CanonicalRoute;
    var live, canon := w.edges[i], CanonOf(cfg, w);
    PlanAt(cfg, w, order);
    PassWrites(cfg, canon, order, i, live);
    forall r | r in p.edges[i].adds ensures LacksRoute(cfg, w, i, r.host) && IsCorrect(cfg, w, i, r) {
      LacksIff(cfg, w, i, r.host);
      CorrectionHost(cfg, i, live, r.host, canon[r.host]);
    }
    forall h
      ensures LacksRoute(cfg, w, i, h) ==> exists r :: r in p.edges[i].adds && r.host == h
      ensures h in p.edges[i].removes <==> LacksRoute(cfg, w, i, h) && HasRoute(w.edges[i], h)
    {
      EdgePassAt(cfg, canon, order, i, live, h);
      LackedIsAdded(cfg, w, order, p, i, h);
    }
  }

  lemma LackedIsAdded(cfg: Config, w: World, order: seq<Host>, p: Passes, i: nat, h: Host)
    requires Fits(cfg, w) && T.UniqueNames(cfg.edges) && Lists(order, CanonOf(cfg, w)) && i < |cfg.edges| && i < |p.edges|
    requires EdgePass(cfg, CanonOf(cfg, w), order, i, w.edges[i]) == Ok(p.edges[i])
    ensures LacksRoute(cfg, w, i, h) ==> exists r :: r in p.edges[i].adds && r.host == h
    ensures h in p.edges[i].removes <==> LacksRoute(cfg, w, i, h) && HasRoute(w.edges[i], h)
  {
    hide CanonOf, IsCorrect, Correction, EdgePass, RidesWildcard, InOtherMode, HasPart, InDomain;
    var live, canon, c := w.edges[i], CanonOf(cfg, w), p.edges[i];
    EdgePassAt(cfg, canon, order, i, live, h);
    CanonIff(cfg, w, h);
    AddedIsListed(c.adds, h);
    if h in canon {
      LacksIff(cfg, w, i, h);
      var ec := Correction(cfg, i, live, h, canon[h]).value;
      if ec != NoEdgeChange {
        assert ec.adds[..0] == [] && Added(ec.adds, h) == Some(ec.adds[0]);
      }
    }
  }

  // ----- when there is a plan -----

  /** The edge can hold the route it lacks. */
  ghost predicate CanHold(cfg: Config, w: World, i: nat, host: Host)
    requires Fits(cfg, w) && i < |cfg.edges|
  {
    var b, service := cfg.edges[i], cfg.serviceOf(host);
    if Offers(b, service) then
      host != "" && cfg.origin(b.name, service).Some? && forall mode, auth :: IsCanonical(cfg, w, host, mode, auth) ==> cfg.supports(b.name, mode, auth)
    else b.downstreamAddress != ""
  }

  lemma CorrectionOkIff(cfg: Config, w: World, i: nat, host: Host)
    requires Fits(cfg, w) && T.UniqueNames(cfg.edges) && i < |cfg.edges| && host in CanonOf(cfg, w)
    ensures Correction(cfg, i, w.edges[i], host, CanonOf(cfg, w)[host]).Ok? <==> (LacksRoute(cfg, w, i, host) ==> CanHold(cfg, w, i, host))
  {
    hide CanonOf, RoleOf, CarriedByWildcard, HasSuffix, LacksRoute;
    RoleIff(cfg, i, cfg.serviceOf(host));
    CanonIff(cfg, w, host);
    LacksIff(cfg, w, i, host);
    assert IsCanonical(cfg, w, host, CanonOf(cfg, w)[host].mode, CanonOf(cfg, w)[host].auth);
  }

  /** A reconcile is planned exactly when every edge can hold the routes it lacks and no provider is
      to announce the empty name. */
  lemma ReconcilePlannedIff(cfg: Config, w: World, order: seq<Host>)
    requires Fits(cfg, w) && T.UniqueNames(cfg.edges) && Lists(order, CanonOf(cfg, w))
    ensures PlanReconcile(cfg, w, order).Ok? <==>
      && (forall i, h :: 0 <= i < |cfg.edges| && LacksRoute(cfg, w, i, h) ==> CanHold(cfg, w, i, h))
      && (forall i, h :: 0 <= i < |cfg.dns| && Exposed(cfg, w, h) && IsFor(cfg, cfg.dns[i], h) ==> h != "")
  {
    hide CanonOf, LacksRoute, CanHold, IsFor, Demanded, Correction, EdgePass, DnsAdds, InDomain;
    var canon := CanonOf(cfg, w);
    DriftIff(cfg, w, canon, order);
    forall h ensures h in canon <==> Exposed(cfg, w, h) {
      CanonIff(cfg, w, h);
    }
    forall i | 0 <= i < |cfg.edges|
      ensures EdgePass(cfg, canon, order, i, w.edges[i]).Ok? <==> forall h :: LacksRoute(cfg, w, i, h) ==> CanHold(cfg, w, i, h)
    {
      EdgePassOkIff(cfg, canon, order, i, w.edges[i]);
      LacksOnlyExposed(cfg, w, i);
      forall h | h in canon
        ensures Correction(cfg, i, w.edges[i], h, canon[h]).Ok? <==> (LacksRoute(cfg, w, i, h) ==> CanHold(cfg, w, i, h))
      {
        CorrectionOkIff(cfg, w, i, h);
      }
    }
    forall i | 0 <= i < |cfg.dns|
      ensures DnsPass(cfg, canon, order, cfg.dns[i], w.dns[i]).Ok? <==> forall h :: Exposed(cfg, w, h) && IsFor(cfg, cfg.dns[i], h) ==> h != ""
    {
      DnsAddsOkIff(cfg, cfg.dns[i], w.dns[i], order);
      forall h ensures Demanded(cfg, cfg.dns[i], h) <==> IsFor(cfg, cfg.dns[i], h) {
        DemandedIff(cfg, cfg.dns[i], h);
      }
    }
    if forall i :: 0 <= i < |cfg.edges| ==> EdgePass(cfg, canon, order, i, w.edges[i]).Ok? {
      forall i, h | 0 <= i < |cfg.edges| && LacksRoute(cfg, w, i, h) ensures CanHold(cfg, w, i, h) {
        assert EdgePass(cfg, canon, order, i, w.edges[i]).Ok?;
      }
    }
    assert (forall i :: 0 <= i < |cfg.dns| ==> DnsPass(cfg, canon, order, cfg.dns[i], w.dns[i]).Ok?) <==>
      forall i, h :: 0 <= i < |cfg.dns| && Exposed(cfg, w, h) && IsFor(cfg, cfg.dns[i], h) ==> h != "";
  }

  lemma LacksOnlyExposed(cfg: Config, w: World, i: nat)
    requires Fits(cfg, w) && i < |cfg.edges|
    ensures forall h :: LacksRoute(cfg, w, i, h) ==> Exposed(cfg, w, h)
  {
  }

  lemma DemandedIff(cfg: Config, dp: DnsProvider, host: Host)
    ensures Demanded(cfg, dp, host) <==> IsFor(cfg, dp, host)
  {
    CoversIff(dp, host);
  }

  // ----- the read-back -----

  /** An edge with a part in a host shows it in the canonical mode, or forwards it and has no route
      of its own but a wildcard forward that does. */
  ghost predicate HostShows(cfg: Config, w: World, i: nat, live: LiveEdge, host: Host)
    requires Fits(cfg, w) && i < |cfg.edges|
  {
    || (exists r, mode, auth :: FirstRoute(live.routes, host, r) && IsCanonical(cfg, w, host, mode, auth) && r.upstream.mode == mode)
    || (!Offers(cfg.edges[i], cfg.serviceOf(host)) && !HasRoute(live, host) && RidesWildcard(cfg, cfg.edges[i], live, host))
  }

  /** The deny; every exposed host the edge has a part in; and every route written, under exactly
      its policy. */
  ghost predicate EdgeCorrect(cfg: Config, w: World, i: nat, wrote: EdgeChange, live: LiveEdge)
    requires Fits(cfg, w) && i < |cfg.edges|
  {
    && live.deny
    && (forall h :: Exposed(cfg, w, h) && HasPart(cfg, i, h) ==> HostShows(cfg, w, i, live, h))
    && (forall r :: r in wrote.adds ==> exists q :: FirstRoute(live.routes, r.host, q) && q.upstream.auth == r.upstream.auth)
  }

  /** Something is reported at every record added, nothing at any removed. */
  ghost predicate ZoneCorrect(wrote: DnsChange, zone: Zone) {
    && (forall r :: r in wrote.adds ==> exists q :: Reports(zone, r, q))
    && (forall r :: r in wrote.removes ==> !exists q :: Reports(zone, r, q))
  }

  lemma HostShowsIff(cfg: Config, w: World, i: nat, live: LiveEdge, host: Host)
    requires Fits(cfg, w) && T.UniqueNames(cfg.edges) && i < |cfg.edges| && host in CanonOf(cfg, w) && live.deny
    ensures HostConverged(cfg, i, live, host, CanonOf(cfg, w)[host]) <==> (HasPart(cfg, i, host) ==> HostShows(cfg, w, i, live, host))
  {
    hide CanonOf, RoleOf, RidesWildcard, CarriedByWildcard, Exposed;
    var canon := CanonOf(cfg, w)[host];
    RoleIff(cfg, i, cfg.serviceOf(host));
    CanonIff(cfg, w, host);
    RidesIff(cfg, cfg.edges[i], live, host);
    HasRouteIff(live, host);
    assert IsCanonical(cfg, w, host, canon.mode, canon.auth);
    forall r ensures FirstRoute(live.routes, host, r) <==> Find(live.routes, host) == Some(r) {
      FirstRouteIff(live.routes, host, r);
    }
    if HasHost(live, host) {
      assert FirstRoute(live.routes, host, Find(live.routes, host).value);
    }
  }

  lemma EdgeCorrectIff(cfg: Config, w: World, i: nat, wrote: EdgeChange, live: LiveEdge)
    requires Fits(cfg, w) && T.UniqueNames(cfg.edges) && i < |cfg.edges|
    ensures EdgeAccepted(cfg, CanonOf(cfg, w), i, live, wrote) <==> EdgeCorrect(cfg, w, i, wrote, live)
  {
    hide CanonOf, HostConverged, HostShows, HasPart, InDomain;
    forall h ensures h in CanonOf(cfg, w) <==> Exposed(cfg, w, h) {
      CanonIff(cfg, w, h);
    }
    if live.deny {
      forall h | h in CanonOf(cfg, w)
        ensures HostConverged(cfg, i, live, h, CanonOf(cfg, w)[h]) <==> (HasPart(cfg, i, h) ==> HostShows(cfg, w, i, live, h))
      {
        HostShowsIff(cfg, w, i, live, h);
      }
    }
    forall r | r in wrote.adds
      ensures HasHost(live, r.host) && Find(live.routes, r.host).value.upstream.auth == r.upstream.auth <==>
        exists q :: FirstRoute(live.routes, r.host, q) && q.upstream.auth == r.upstream.auth
    {
      forall q ensures FirstRoute(live.routes, r.host, q) <==> Find(live.routes, r.host) == Some(q) {
        FirstRouteIff(live.routes, r.host, q);
      }
    }
  }

  lemma ReportsIff(zone: Zone, r: Record)
    ensures Answered(zone, KeyOf(r)) <==> exists q :: Reports(zone, r, q)
  {
    if e :| e in zone && Hits(e, KeyOf(r)) {
      assert e == Entry(e.rec, true) && Reports(zone, r, e.rec);
    }
    if q :| Reports(zone, r, q) {
      assert Hits(Entry(q, true), KeyOf(r));
    }
  }

  /** The read-back of a reconcile accepts a world exactly when every edge and every zone in it is
      correct, judged by the canonical set of the world before the run. */
  lemma AcceptedIff(cfg: Config, w: World, p: Passes, w': World)
    requires Fits(cfg, w) && T.UniqueNames(cfg.edges) && PassesFit(cfg, w', p)
    ensures WorldAccepted(cfg, CanonOf(cfg, w), p, w') <==>
      && (forall i :: 0 <= i < |cfg.edges| ==> EdgeCorrect(cfg, w, i, p.edges[i], w'.edges[i]))
      && (forall i :: 0 <= i < |cfg.dns| ==> ZoneCorrect(p.dns[i], w'.dns[i]))
  {
    hide CanonOf, EdgeAccepted, EdgeCorrect;
    forall i | 0 <= i < |cfg.edges|
      ensures EdgeAccepted(cfg, CanonOf(cfg, w), i, w'.edges[i], p.edges[i]) <==> EdgeCorrect(cfg, w, i, p.edges[i], w'.edges[i])
    {
      EdgeCorrectIff(cfg, w, i, p.edges[i], w'.edges[i]);
    }
    forall i | 0 <= i < |cfg.dns| ensures DnsAccepted(w'.dns[i], p.dns[i]) <==> ZoneCorrect(p.dns[i], w'.dns[i]) {
      forall r ensures Answered(w'.dns[i], KeyOf(r)) <==> exists q :: Reports(w'.dns[i], r, q) {
        ReportsIff(w'.dns[i], r);
      }
    }
  }
}
