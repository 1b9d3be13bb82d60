/** The words the laws are stated in, each in terms of the configuration and the live state
    alone, and that the engine's own tests (internal/core, internal/model) decide them. */
module Terms {
  import opened Model
  import T = Topology
  import opened Planner
  import opened Zones
  import opened Canonical
    import opened Verify

  // ----- names -----

  ghost predicate EndsIn(s: string, suffix: string) {
    exists p: string :: s == p + suffix
  }

  lemma SuffixIff(s: string, suffix: string)
    ensures HasSuffix(s, suffix) <==> EndsIn(s, suffix)
  {
    if HasSuffix(s, suffix) {
      assert s == s[..|s| - |suffix|] + suffix;
    }
  }

  /** The zone's apex, or a name with some label before it; an unconfined zone has every name. */
  ghost predicate NamedIn(host: Host, zone: string) {
    zone == "" || host == zone || EndsIn(host, "." + zone)
  }

  lemma CoversIff(dp: DnsProvider, host: Host)
    ensures Covers(dp, host) <==> NamedIn(host, dp.zone)
  {
    SuffixIff(host, "." + dp.zone);
  }

  // ----- routes -----

  ghost predicate HasRoute(live: LiveEdge, host: Host) {
    exists r :: r in live.routes && r.host == host
  }

  lemma HasRouteIff(live: LiveEdge, host: Host)
    ensures HasHost(live, host) <==> HasRoute(live, host)
  {
    FindIsListed(live.routes, host);
  }

  /** The first route listed for a host. */
  ghost predicate FirstRoute(routes: seq<Route>, host: Host, r: Route) {
    exists n :: 0 <= n < |routes| && routes[n] == r && r.host == host && forall k :: 0 <= k < n ==> routes[k].host != host
  }

  lemma {:induction false} FirstRouteIff(routes: seq<Route>, host: Host, r: Route)
    ensures Find(routes, host) == Some(r) <==> FirstRoute(routes, host, r)
  {
    if routes != [] {
      FirstRouteIff(routes[1..], host, r);
      if FirstRoute(routes[1..], host, r) && routes[0].host != host {
        var n :| 0 <= n < |routes| - 1 && routes[1..][n] == r && r.host == host && forall k :: 0 <= k < n ==> routes[1..][k].host != host;
        assert routes[n + 1] == r;
        assert forall k :: 1 <= k < n + 1 ==> routes[k] == routes[1..][k - 1];
      }
      if FirstRoute(routes, host, r) {
        var n :| 0 <= n < |routes| && routes[n] == r && r.host == host && forall k :: 0 <= k < n ==> routes[k].host != host;
        if n > 0 {
          assert routes[1..][n - 1] == r;
          assert forall k :: 0 <= k < n - 1 ==> routes[1..][k] == routes[k + 1];
        }
      }
    }
  }

  /** The same access policy; "" and the explicit opt-out are the same. */
  predicate SamePolicy(a: string, b: string) {
    a == b || (a in {"", "none"} && b in {"", "none"})
  }

  lemma PolicyIff(a: string, b: string)
    ensures AuthPresence(a) == AuthPresence(b) <==> SamePolicy(a, b)
  {
  }

  // ----- edges -----

  predicate Offers(b: T.Binding, service: string) {
    b.origins.Some? ==> service in b.origins.value
  }

  /** Some edge serves the host's service: crenel's domain. */
  ghost predicate InDomain(cfg: Config, host: Host) {
    exists i :: 0 <= i < |cfg.edges| && Offers(cfg.edges[i], cfg.serviceOf(host))
  }

  lemma DomainIff(cfg: Config, host: Host)
    ensures Managed(cfg, host) <==> InDomain(cfg, host)
  {
    if i :| 0 <= i < |cfg.edges| && Offers(cfg.edges[i], cfg.serviceOf(host)) {
      assert T.Fronts(cfg.edges[i], cfg.serviceOf(host));
    }
    if i :| 0 <= i < |cfg.edges| && T.Fronts(cfg.edges[i], cfg.serviceOf(host)) {
      assert Offers(cfg.edges[i], cfg.serviceOf(host));
    }
  }

  /** A front that does not serve the service itself forwards it: it is not internal-only, and
      some edge down the chain serves it. */
  ghost predicate Forwards(cfg: Config, i: nat, service: string)
    requires i < |cfg.edges|
  {
    !Offers(cfg.edges[i], service) && service !in cfg.internal && T.ReachesServing(cfg.edges, cfg.edges[i], service)
  }

  lemma RoleIff(cfg: Config, i: nat, service: string)
    requires T.UniqueNames(cfg.edges) && i < |cfg.edges|
    ensures RoleOf(cfg, i, service) == T.RoleTerminal <==> Offers(cfg.edges[i], service)
    ensures RoleOf(cfg, i, service) == T.RoleForward <==> Forwards(cfg, i, service)
  {
    T.RoleExact(cfg.edges, cfg.internal, cfg.edges[i], service);
  }

  /** A route an edge's own driver renders: the service's backend there, in the mode and under
      the policy asked for, which the edge can render. */
  predicate IsServing(cfg: Config, i: nat, service: string, mode: Mode, auth: string, r: Route)
    requires i < |cfg.edges|
  {
    && cfg.supports(cfg.edges[i].name, mode, auth)
    && cfg.origin(cfg.edges[i].name, service) == Some(r.upstream.address)
    && r.upstream == Upstream(false, mode, r.upstream.address, mode == TcpPassthrough, r.host, false, auth)
  }

  /** A route that forwards into the chain: plain http to the downstream's address, without a
      policy, over TLS when the scheme says so or, where it says neither, on port 443. */
  ghost predicate IsForwarding(b: T.Binding, r: Route) {
    && b.downstreamAddress != ""
    && r.upstream.(tls := false) == Upstream(true, HttpProxy, b.downstreamAddress, false, r.host, false, "")
    && (r.upstream.tls <==> b.downstreamScheme == "https" || (b.downstreamScheme != "http" && EndsIn(b.downstreamAddress, ":443")))
  }

  // ----- what shows that an operation is done -----

  /** On a planned edge: the deny; the host reachable, gone, or moved; every route written, but for
      mesh grants, under its policy; and every route that was to dial TLS dialling it. */
  ghost predicate EdgeShows(op: Op, c: EdgeChange, live: LiveEdge) {
    && live.deny
    && (op.verb == Expose ==> HasRoute(live, op.host))
    && (op.verb == Unexpose ==> !HasRoute(live, op.host))
    && (op.verb == Rename ==> (forall r :: r in c.adds ==> HasRoute(live, r.host)) && forall h :: h in c.removes ==> !HasRoute(live, h))
    && WrittenShow(c.adds, live)
  }

  ghost predicate WrittenShow(adds: seq<Route>, live: LiveEdge) {
    && (forall r :: r in adds && r.upstream.mode != MeshGrant ==>
          exists q :: FirstRoute(live.routes, r.host, q) && SamePolicy(q.upstream.auth, r.upstream.auth))
    && (forall r :: r in adds && r.upstream.tls ==> exists q :: FirstRoute(live.routes, r.host, q) && q.upstream.tls)
  }

  /** The type of a provider's own address. */
  function AddressType(dp: DnsProvider): string {
    if dp.kind == Cloudflare then "A" else dp.typeOf(dp.target)
  }

  /** At a provider whose scope is appointed and whose zone has the host: exposed, the last
      reported record there answers the target; unexposed, none is reported. */
  ghost predicate ProviderShows(op: Op, dp: DnsProvider, zone: Zone) {
    (op.scopes == [] || dp.scope in op.scopes) && NamedIn(op.host, dp.zone) ==>
      match op.verb
      case Expose => exists q :: LastAt(zone, Key(dp.scope, AddressType(dp), op.host)) == Some(q) && q.value == dp.target
      case Unexpose => forall e :: e in zone && e.ours ==>
        !(e.rec.name == op.host && e.rec.rtype == AddressType(dp) && e.rec.scope == dp.scope)
      case Rename => false
  }

  lemma WrittenIff(adds: seq<Route>, live: LiveEdge)
    ensures AuthVerified(live, adds) && TlsVerified(live, adds) <==> WrittenShow(adds, live)
  {
    forall r | r in adds
      ensures HasHost(live, r.host) ==> FirstRoute(live.routes, r.host, Find(live.routes, r.host).value)
      ensures forall q :: FirstRoute(live.routes, r.host, q) ==> Find(live.routes, r.host) == Some(q)
    {
      forall q ensures FirstRoute(live.routes, r.host, q) <==> Find(live.routes, r.host) == Some(q) {
        FirstRouteIff(live.routes, r.host, q);
      }
    }
    if AuthVerified(live, adds) && TlsVerified(live, adds) {
      forall r | r in adds && r.upstream.mode != MeshGrant
        ensures exists q :: FirstRoute(live.routes, r.host, q) && SamePolicy(q.upstream.auth, r.upstream.auth)
      {
        var q := Find(live.routes, r.host).value;
        assert FirstRoute(live.routes, r.host, q);
        PolicyIff(q.upstream.auth, r.upstream.auth);
      }
    }
    if WrittenShow(adds, live) {
      forall r | r in adds && r.upstream.mode != MeshGrant
        ensures HasHost(live, r.host) && AuthPresence(Find(live.routes, r.host).value.upstream.auth) == AuthPresence(r.upstream.auth)
      {
        var q :| FirstRoute(live.routes, r.host, q) && SamePolicy(q.upstream.auth, r.upstream.auth);
        PolicyIff(q.upstream.auth, r.upstream.auth);
      }
    }
  }

  lemma EdgeVerifiedIff(op: Op, c: EdgeChange, live: LiveEdge)
    ensures EdgeVerified(op, c, live) <==> EdgeShows(op, c, live)
  {
    forall h ensures HasHost(live, h) <==> HasRoute(live, h) {
      HasRouteIff(live, h);
    }
    WrittenIff(c.adds, live);
  }

  lemma DnsVerifiedIff(op: Op, dp: DnsProvider, zone: Zone)
    ensures DnsVerified(op, dp, zone) <==> ProviderShows(op, dp, zone)
  {
    CoversIff(dp, op.host);
    LastAtListed(zone, KeyOf(Desired(dp, op.host)));
  }
}
