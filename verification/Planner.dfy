/** Planning one operation against live state (internal/core/engine.go): the fan-out over
    the edges that take part and the DNS providers that cover the host. */
module Planner {
  import opened Model
  import opened Zones
  import T = Topology

  /** The two DNS drivers whose plan is a record-by-record delta against live. */
  datatype DnsKind = AdGuard | Cloudflare

  /** `target` is the address records point at; `typeOf` infers a rewrite's record type from
      its answer (AdGuard). */
  datatype DnsProvider = DnsProvider(
    kind: DnsKind, zone: string, scope: Scope, target: string, typeOf: string -> string)

  /** The engine's wiring. `supports` and `origin` are the edge drivers' capabilities: the
      modes and policies an edge can render, and the backend it resolves a service to. */
  datatype Config = Config(
    edges: seq<T.Binding>, dns: seq<DnsProvider>, internal: set<string>, serviceOf: Host -> string,
    supports: (string, Mode, string) -> bool, origin: (string, string) -> Option<string>,
    dialHost: string -> string)

  datatype World = World(edges: seq<LiveEdge>, dns: seq<Zone>)

  datatype EdgePlan = EdgePlan(edge: nat, change: EdgeChange)

  datatype ChangeSet = ChangeSet(op: Op, edges: seq<EdgePlan>, dns: seq<DnsChange>)

  predicate Fits(cfg: Config, w: World) {
    |w.edges| == |cfg.edges| && |w.dns| == |cfg.dns|
  }

  /** An empty subset appoints everything. */
  predicate EdgeSelected(names: seq<string>, name: string) {
    names == [] || name in names
  }

  predicate ScopeSelected(scopes: seq<Scope>, scope: Scope) {
    scopes == [] || scope in scopes
  }

  predicate HasSuffix(s: string, suffix: string) {
    |suffix| <= |s| && s[|s| - |suffix|..] == suffix
  }

  /** An unconfined provider covers every host; otherwise the apex and all names under it. */
  predicate ZoneCovers(zone: string, host: Host) {
    zone == "" || host == zone || HasSuffix(host, "." + zone)
  }

  predicate Covers(dp: DnsProvider, host: Host) {
    ZoneCovers(dp.zone, host)
  }

  function RoleOf(cfg: Config, i: nat, service: string): T.Role
    requires i < |cfg.edges|
  {
    assert cfg.edges[i].name in T.Names(cfg.edges);
    T.RoleFor(cfg.edges, cfg.internal, cfg.edges[i], service)
  }

  // ----- edges -----

  /** The front re-originates TLS when the scheme says so, else when it dials port 443. */
  predicate DownstreamUsesTls(b: T.Binding) {
    b.downstreamScheme == "https" || (b.downstreamScheme != "http" && HasSuffix(b.downstreamAddress, ":443"))
  }

  /** A forward is always http_proxy and carries no auth. It needs an address to dial. */
  function ForwardRoute(b: T.Binding, host: Host): Result<Route> {
    if b.downstreamAddress == "" then Err
    else Ok(Route(host,
                  Upstream(true, HttpProxy, b.downstreamAddress, false, host, DownstreamUsesTls(b), ""),
                  false, OwnUnset))
  }

  /** The route an edge's own driver renders to serve a host. */
  function TerminalRoute(cfg: Config, b: T.Binding, service: string, host: Host, mode: Mode, auth: string): Result<Route> {
    if !cfg.supports(b.name, mode, auth) then Err
    else
      match cfg.origin(b.name, service)
      case None => Err
      case Some(addr) =>
        Ok(Route(host, Upstream(false, mode, addr, mode == TcpPassthrough, host, false, auth), false, OwnUnset))
  }

  function PlanTerminal(cfg: Config, b: T.Binding, op: Op, live: LiveEdge): Result<EdgeChange> {
    if !cfg.supports(b.name, op.mode, op.auth) || op.verb == Rename || op.host == "" then Err
    else if op.verb == Expose then
      if HasHost(live, op.host) then Ok(NoEdgeChange)
      else
        match TerminalRoute(cfg, b, op.service, op.host, op.mode, op.auth)
        case Err => Err
        case Ok(r) => Ok(EdgeChange([r], []))
    else Ok(if HasHost(live, op.host) then EdgeChange([], [op.host]) else NoEdgeChange)
  }

  function PlanForward(b: T.Binding, op: Op, live: LiveEdge): Result<EdgeChange> {
    match op.verb
    case Expose =>
      if HasHost(live, op.host) then Ok(NoEdgeChange)
      else (match ForwardRoute(b, op.host)
            case Err => Err
            case Ok(r) => Ok(EdgeChange([r], [])))
    case Unexpose => Ok(if HasHost(live, op.host) then EdgeChange([], [op.host]) else NoEdgeChange)
    case Rename => Ok(NoEdgeChange)
  }

  /** Whether edge `i` takes part in the operation at all. */
  predicate TakesPart(cfg: Config, op: Op, i: nat)
    requires i < |cfg.edges|
  {
    EdgeSelected(op.edges, cfg.edges[i].name) && RoleOf(cfg, i, op.service) != T.RoleNone
  }

  function PlanEdge(cfg: Config, op: Op, i: nat, live: LiveEdge): Result<EdgeChange>
    requires i < |cfg.edges|
  {
    if RoleOf(cfg, i, op.service) == T.RoleTerminal then PlanTerminal(cfg, cfg.edges[i], op, live)
    else PlanForward(cfg.edges[i], op, live)
  }

  /** The plans of the first `n` edges, in wiring order. */
  function PlanEdges(cfg: Config, w: World, op: Op, n: nat): Result<seq<EdgePlan>>
    requires Fits(cfg, w) && n <= |cfg.edges|
  {
    if n == 0 then Ok([])
    else
      match PlanEdges(cfg, w, op, n - 1)
      case Err => Err
      case Ok(rest) =>
        if !TakesPart(cfg, op, n - 1) then Ok(rest)
        else
          match PlanEdge(cfg, op, n - 1, w.edges[n - 1])
          case Err => Err
          case Ok(c) => Ok(rest + [EdgePlan(n - 1, c)])
  }

  // ----- DNS -----

  /** The single record a host wants at a provider. */
  function Desired(dp: DnsProvider, host: Host): Record {
    Record(host, if dp.kind == AdGuard then dp.typeOf(dp.target) else "A", dp.target, dp.scope, 0, false)
  }

  predicate ForeignAt(zone: Zone, key: Key) {
    exists i :: 0 <= i < |zone| && !zone[i].ours && KeyOf(zone[i].rec) == key
  }

  /** AdGuard compares by name: a rewrite answering something else is a conflict on expose
      and not ours to remove on unexpose. */
  function AdGuardDiff(verb: Verb, zone: Zone, want: Record): Result<DnsChange> {
    var cur := LastByName(zone, want.name);
    match verb
    case Expose =>
      if cur.None? then Ok(RewriteChange([want], []))
      else if cur.value.value == want.value then Ok(NoDnsChange)
      else Err
    case Unexpose => Ok(if cur.Some? && cur.value.value == want.value then RewriteChange([], [want]) else NoDnsChange)
    case Rename => Err
  }

  /** Cloudflare compares its own records at the key: none creates (unless a foreign record
      is in the way), one updates, several are refused; unexpose removes all of them. */
  function CloudflareDiff(verb: Verb, zone: Zone, want: Record): Result<DnsChange> {
    var ours := OursAt(zone, KeyOf(want));
    match verb
    case Expose =>
      if ours == [] then (if ForeignAt(zone, KeyOf(want)) then Err else Ok(DnsChange([want], [])))
      else if |ours| > 1 then Err
      else Ok(if ours[0].value == want.value then NoDnsChange else DnsChange([want], []))
    case Unexpose => Ok(DnsChange([], ours))
    case Rename => Err
  }

  /** A provider takes part when its scope is appointed, its zone covers the host, and the
      service is not declared internal-only while the provider is public. */
  predicate DnsTakesPart(cfg: Config, op: Op, dp: DnsProvider) {
    ScopeSelected(op.scopes, dp.scope) && Covers(dp, op.host) && !(dp.scope == Public && op.service in cfg.internal)
  }

  function PlanDns(cfg: Config, op: Op, dp: DnsProvider, zone: Zone): Result<DnsChange> {
    if !DnsTakesPart(cfg, op, dp) then Ok(NoDnsChange)
    else if op.host == "" || '*' in op.host then Err
    else if dp.kind == AdGuard then AdGuardDiff(op.verb, zone, Desired(dp, op.host))
    else CloudflareDiff(op.verb, zone, Desired(dp, op.host))
  }

  /** One change per provider, positionally aligned, empty ones included. */
  function PlanAllDns(cfg: Config, w: World, op: Op, n: nat): Result<seq<DnsChange>>
    requires Fits(cfg, w) && n <= |cfg.dns|
  {
    if n == 0 then Ok([])
    else
      match PlanAllDns(cfg, w, op, n - 1)
      case Err => Err
      case Ok(rest) =>
        match PlanDns(cfg, op, cfg.dns[n - 1], w.dns[n - 1])
        case Err => Err
        case Ok(c) => Ok(rest + [c])
  }

  /** The unified change set for an operation. */
  function Plan(cfg: Config, w: World, op: Op): Result<ChangeSet>
    requires Fits(cfg, w)
  {
    if !AuthFits(op.mode, op.auth) then Err
    else if op.service in cfg.internal && Public in op.scopes then Err
    else
      match PlanEdges(cfg, w, op, |cfg.edges|)
      case Err => Err
      case Ok(edges) =>
        if op.verb == Expose && edges == [] then Err
        else
          match PlanAllDns(cfg, w, op, |cfg.dns|)
          case Err => Err
          case Ok(dns) => Ok(ChangeSet(op, edges, dns))
  }

  /** A change in the terms of a provider's driver. */
  function ChangeFor(dp: DnsProvider, adds: seq<Record>, removes: seq<Record>): DnsChange {
    if adds == [] && removes == [] then NoDnsChange
    else if dp.kind == AdGuard then RewriteChange(adds, removes)
    else DnsChange(adds, removes)
  }

  predicate EmptyEdge(c: EdgeChange) {
    c.adds == [] && c.removes == []
  }

  predicate EmptyDns(c: DnsChange) {
    c.adds == [] && c.removes == []
  }

  predicate EmptySet(cs: ChangeSet) {
    && (forall i :: 0 <= i < |cs.edges| ==> EmptyEdge(cs.edges[i].change))
    && (forall i :: 0 <= i < |cs.dns| ==> EmptyDns(cs.dns[i]))
  }

  // ----- plans are deltas against live -----

  /** Once applied, an edge's plan is satisfied: planning again changes nothing. */
  lemma EdgePlanIsDelta(cfg: Config, op: Op, i: nat, live: LiveEdge)
    requires i < |cfg.edges| && PlanEdge(cfg, op, i, live).Ok?
    ensures PlanEdge(cfg, op, i, ApplyEdge(live, PlanEdge(cfg, op, i, live).value)) == Ok(NoEdgeChange)
  {
    var c := PlanEdge(cfg, op, i, live).value;
    FindApplied(live, c, op.host);
    if c.adds != [] {
      assert c.adds[..|c.adds| - 1] == [];
      assert Added(c.adds, op.host) == Some(c.adds[0]);
    }
  }

  /** AdGuard reports every rewrite, with the type its answer has and nothing else set. */
  ghost predicate WellTyped(dp: DnsProvider, zone: Zone) {
    dp.kind == AdGuard ==> forall e :: e in zone ==> IsRewrite(dp, e)
  }

  predicate IsRewrite(dp: DnsProvider, e: Entry) {
    e.ours && e.rec == Record(e.rec.name, dp.typeOf(e.rec.value), e.rec.value, dp.scope, 0, false)
  }

  lemma AdGuardIsDelta(dp: DnsProvider, verb: Verb, zone: Zone, host: Host)
    requires dp.kind == AdGuard && WellTyped(dp, zone)
    requires AdGuardDiff(verb, zone, Desired(dp, host)).Ok?
    ensures var c := AdGuardDiff(verb, zone, Desired(dp, host)).value;
            && AdGuardDiff(verb, ApplyDns(zone, c), Desired(dp, host)) == Ok(NoDnsChange)
            && WellTyped(dp, ApplyDns(zone, c))
  {
    var want := Desired(dp, host);
    var c := AdGuardDiff(verb, zone, want).value;
    var zone' := ApplyDns(zone, c);
    ApplyOne(zone, want);
    forall e | e in zone' ensures IsRewrite(dp, e) {
      AppliedFrom(zone, c, e);
    }
    if c == NoDnsChange {
      ApplyNone(zone, c);
    } else if verb == Expose {
      assert zone'[|zone'| - 1] == Entry(want, true);
    } else {
      LastByNameListed(zone', host);
      if LastByName(zone', host).Some? {
        var left := LastByName(zone', host).value;
        AppliedFrom(zone, c, Entry(left, true));
        assert left.value == want.value ==> SameAnswer(want, left) && Removes(c, Entry(left, true));
      }
    }
  }

  lemma CloudflareExposeIsDelta(zone: Zone, want: Record)
    requires CloudflareDiff(Expose, zone, want).Ok?
    ensures CloudflareDiff(Expose, ApplyDns(zone, CloudflareDiff(Expose, zone, want).value), want) == Ok(NoDnsChange)
  {
    var key := KeyOf(want);
    if CloudflareDiff(Expose, zone, want).value == NoDnsChange {
      ApplyNone(zone, NoDnsChange);
    } else {
      ApplyOne(zone, want);
      OneKeyRemains(zone, want);
      OursAtAppend(Remaining(zone, DnsChange([], [want])), [Entry(want, true)], key);
    }
  }

  /** Dropping one key leaves none of its records, and all of any other's. */
  lemma OneKeyRemains(zone: Zone, want: Record)
    ensures OursAt(Remaining(zone, DnsChange([], [want])), KeyOf(want)) == []
    ensures forall key :: key != KeyOf(want) ==> OursAt(Remaining(zone, DnsChange([], [want])), key) == OursAt(zone, key)
  {
    var c := DnsChange([], [want]);
    assert want in c.removes;
    OursAtRemaining(zone, c, KeyOf(want));
    forall key | key != KeyOf(want) ensures OursAt(Remaining(zone, c), key) == OursAt(zone, key) {
      OursAtRemaining(zone, c, key);
    }
  }

  lemma CloudflareUnexposeIsDelta(zone: Zone, want: Record)
    ensures CloudflareDiff(Unexpose, ApplyDns(zone, CloudflareDiff(Unexpose, zone, want).value), want) == Ok(NoDnsChange)
  {
    var c, key := CloudflareDiff(Unexpose, zone, want).value, KeyOf(want);
    forall e | e in zone && Hits(e, key) ensures Removes(c, e) {
      OursAtMembers(zone, key, e.rec);
    }
    OursAtRemaining(zone, c, key);
  }

  lemma CloudflareIsDelta(verb: Verb, zone: Zone, want: Record)
    requires CloudflareDiff(verb, zone, want).Ok?
    ensures CloudflareDiff(verb, ApplyDns(zone, CloudflareDiff(verb, zone, want).value), want) == Ok(NoDnsChange)
  {
    if verb == Expose {
      CloudflareExposeIsDelta(zone, want);
    } else {
      CloudflareUnexposeIsDelta(zone, want);
    }
  }

  /** Once applied, a DNS provider's plan is satisfied too. */
  lemma DnsPlanIsDelta(cfg: Config, op: Op, dp: DnsProvider, zone: Zone)
    requires WellTyped(dp, zone) && PlanDns(cfg, op, dp, zone).Ok?
    ensures var zone' := ApplyDns(zone, PlanDns(cfg, op, dp, zone).value);
            PlanDns(cfg, op, dp, zone') == Ok(NoDnsChange) && WellTyped(dp, zone')
  {
    if !DnsTakesPart(cfg, op, dp) {
      ApplyNone(zone, NoDnsChange);
    } else if dp.kind == AdGuard {
      AdGuardIsDelta(dp, op.verb, zone, op.host);
    } else {
      CloudflareIsDelta(op.verb, zone, Desired(dp, op.host));
    }
  }
}
