/** Planning a reconcile (internal/core/reconcile.go): the correction each edge and each DNS
    provider needs to agree with the canonical exposed set, the read-back of an edge, and
    that the two agree. Wildcard rules from internal/core/audit.go and chain.go. */
module Reconcile {
  import opened Model
  import T = Topology
  import opened Planner
  import opened Steps
  import opened Changes
  import opened Canonical

  predicate IsWildcard(name: string) {
    '*' in name
  }

  /** `*.zone` covers any name strictly under the zone; other shapes cover nothing. */
  predicate PatternCovers(pattern: string, host: Host) {
    |pattern| >= 2 && pattern[0] == '*' && pattern[1] == '.' && HasSuffix(host, pattern[1..]) && |host| > |pattern| - 1
  }

  // ----- one edge -----

  /** The first wildcard route covering a host, routes of the hosts in `but` left out of account. */
  function CoveringBut(routes: seq<Route>, host: Host, but: set<Host>): Option<Route> {
    if routes == [] then None
    else if IsWildcard(routes[0].host) && PatternCovers(routes[0].host, host) && routes[0].host !in but then Some(routes[0])
    else CoveringBut(routes[1..], host, but)
  }

  /** The first wildcard route covering a host. */
  function CoveringRoute(routes: seq<Route>, host: Host): Option<Route> {
    CoveringBut(routes, host, {})
  }

  /** A front's route forwards into the chain: it dials the downstream host, or any at all
      when no downstream address is configured. */
  predicate ChainForward(cfg: Config, b: T.Binding, r: Route) {
    T.IsChainFront(b) && r.upstream.mode != MeshGrant &&
    (b.downstreamAddress == "" || cfg.dialHost(r.upstream.address) == cfg.dialHost(b.downstreamAddress))
  }

  /** The host has no route of its own here but rides a wildcard forward. */
  predicate CarriedByWildcard(cfg: Config, b: T.Binding, live: LiveEdge, host: Host) {
    CoveringRoute(live.routes, host).Some? && ChainForward(cfg, b, CoveringRoute(live.routes, host).value)
  }

  function RoleHere(cfg: Config, i: nat, host: Host): T.Role
    requires i < |cfg.edges|
  {
    RoleOf(cfg, i, cfg.serviceOf(host))
  }

  /** The route edge `i` should hold: a synthesized forward on a front, else what its own
      driver renders for the canonical mode and auth on an empty edge. */
  function CanonicalRoute(cfg: Config, i: nat, host: Host, c: Primacy): Result<Route>
    requires i < |cfg.edges|
  {
    if RoleHere(cfg, i, host) == T.RoleForward then ForwardRoute(cfg.edges[i], host)
    else
      match PlanTerminal(cfg, cfg.edges[i], Op(Expose, cfg.serviceOf(host), host, c.mode, c.auth, [], []), LiveEdge([], true, ""))
      case Err => Err
      case Ok(ec) => if |ec.adds| == 1 then Ok(ec.adds[0]) else Err
  }

  function Rendered(r: Result<Route>, removes: seq<Host>): Result<EdgeChange> {
    match r
    case Err => Err
    case Ok(route) => Ok(EdgeChange([route], removes))
  }

  /** What one edge needs for one canonical host. */
  function Correction(cfg: Config, i: nat, live: LiveEdge, host: Host, c: Primacy): Result<EdgeChange>
    requires i < |cfg.edges|
  {
    var role := RoleHere(cfg, i, host);
    if role == T.RoleNone then Ok(NoEdgeChange)
    else
      match Find(live.routes, host)
      case None =>
        if role == T.RoleForward && CarriedByWildcard(cfg, cfg.edges[i], live, host) then Ok(NoEdgeChange)
        else Rendered(CanonicalRoute(cfg, i, host, c), [])
      case Some(cur) =>
        if cur.upstream.mode != c.mode then Rendered(CanonicalRoute(cfg, i, host, c), [host]) else Ok(NoEdgeChange)
  }

  ghost predicate Lists(order: seq<Host>, canon: Canon) {
    (forall h :: h in order <==> h in canon) && forall i, j :: 0 <= i < j < |order| ==> order[i] != order[j]
  }

  /** The corrections of one edge for the listed hosts, put together. */
  function EdgePass(cfg: Config, canon: Canon, order: seq<Host>, i: nat, live: LiveEdge): Result<EdgeChange>
    requires i < |cfg.edges| && forall h :: h in order ==> h in canon
  {
    if order == [] then Ok(NoEdgeChange)
    else
      var last := order[|order| - 1];
      match EdgePass(cfg, canon, order[..|order| - 1], i, live)
      case Err => Err
      case Ok(rest) =>
        match Correction(cfg, i, live, last, canon[last])
        case Err => Err
        case Ok(c) => Ok(EdgeChange(rest.adds + c.adds, rest.removes + c.removes))
  }

  /** The read-back of one edge: every host it serves or forwards is reachable in its
      canonical mode, or rides a wildcard forward. */
  predicate HostConverged(cfg: Config, i: nat, live: LiveEdge, host: Host, c: Primacy)
    requires i < |cfg.edges|
  {
    var role := RoleHere(cfg, i, host);
    || role == T.RoleNone
    || (role == T.RoleForward && !Reachable(live, host) && CarriedByWildcard(cfg, cfg.edges[i], live, host))
    || (Reachable(live, host) && Find(live.routes, host).value.upstream.mode == c.mode)
  }

  lemma CanonicalRouteHost(cfg: Config, i: nat, host: Host, c: Primacy)
    requires i < |cfg.edges| && CanonicalRoute(cfg, i, host, c).Ok?
    ensures var r := CanonicalRoute(cfg, i, host, c).value;
      && r.host == host
      && (RoleHere(cfg, i, host) == T.RoleForward ==> r.upstream.mode == HttpProxy && r.upstream.auth == "")
      && (RoleHere(cfg, i, host) != T.RoleForward ==> r.upstream.mode == c.mode && r.upstream.auth == c.auth)
  {
  }

  /** For one host, the planner corrects nothing exactly when the read-back accepts it. */
  lemma CorrectionAgrees(cfg: Config, i: nat, live: LiveEdge, host: Host, c: Primacy)
    requires i < |cfg.edges| && live.deny
    ensures Correction(cfg, i, live, host, c) == Ok(NoEdgeChange) <==> HostConverged(cfg, i, live, host, c)
  {
  }

  lemma {:induction false} EdgePassEmptyIff(cfg: Config, canon: Canon, order: seq<Host>, i: nat, live: LiveEdge)
    requires i < |cfg.edges| && forall h :: h in order ==> h in canon
    ensures EdgePass(cfg, canon, order, i, live) == Ok(NoEdgeChange) <==>
      forall h :: h in order ==> Correction(cfg, i, live, h, canon[h]) == Ok(NoEdgeChange)
  {
    if order != [] {
      var init, last := order[..|order| - 1], order[|order| - 1];
      EdgePassEmptyIff(cfg, canon, init, i, live);
      assert order == init + [last];
      if EdgePass(cfg, canon, init, i, live).Ok? && Correction(cfg, i, live, last, canon[last]).Ok? {
        var rest, c := EdgePass(cfg, canon, init, i, live).value, Correction(cfg, i, live, last, canon[last]).value;
        assert rest.adds + c.adds == [] <==> rest.adds == [] && c.adds == [];
        assert rest.removes + c.removes == [] <==> rest.removes == [] && c.removes == [];
      }
    }
  }

  /** Planner and read-back agree: on any state of an edge with the deny present, the
      read-back's host loop accepts the edge exactly when planning against that state with
      the same canonical set corrects nothing there. */
  lemma PlannerAndReadBackAgree(cfg: Config, canon: Canon, order: seq<Host>, i: nat, live: LiveEdge)
    requires i < |cfg.edges| && live.deny && Lists(order, canon)
    ensures EdgePass(cfg, canon, order, i, live) == Ok(NoEdgeChange) <==>
      forall h :: h in canon ==> HostConverged(cfg, i, live, h, canon[h])
  {
    EdgePassEmptyIff(cfg, canon, order, i, live);
    forall h | h in canon
      ensures Correction(cfg, i, live, h, canon[h]) == Ok(NoEdgeChange) <==> HostConverged(cfg, i, live, h, canon[h])
    {
      CorrectionAgrees(cfg, i, live, h, canon[h]);
    }
  }

  // ----- what an edge's corrections add up to -----

  lemma {:induction false} EdgePassOkIff(cfg: Config, canon: Canon, order: seq<Host>, i: nat, live: LiveEdge)
    requires i < |cfg.edges| && forall h :: h in order ==> h in canon
    ensures EdgePass(cfg, canon, order, i, live).Ok? <==>
      forall h :: h in order ==> Correction(cfg, i, live, h, canon[h]).Ok?
  {
    if order != [] {
      var init, last := order[..|order| - 1], order[|order| - 1];
      EdgePassOkIff(cfg, canon, init, i, live);
      assert order == init + [last];
    }
  }

  /** A correction speaks only of its own host. */
  lemma CorrectionHost(cfg: Config, i: nat, live: LiveEdge, host: Host, c: Primacy)
    requires i < |cfg.edges| && Correction(cfg, i, live, host, c).Ok?
    ensures var ec := Correction(cfg, i, live, host, c).value;
      && (ec == NoEdgeChange ||
          (CanonicalRoute(cfg, i, host, c).Ok?
           && ec == EdgeChange([CanonicalRoute(cfg, i, host, c).value], if HasHost(live, host) then [host] else [])))
      && (ec != NoEdgeChange ==> ec.adds[0].host == host)
  {
    if Correction(cfg, i, live, host, c).value != NoEdgeChange {
      CanonicalRouteHost(cfg, i, host, c);
    }
  }

  lemma {:induction false} AddedAppend(a: seq<Route>, b: seq<Route>, host: Host)
    ensures Added(a + b, host) == if Added(b, host).Some? then Added(b, host) else Added(a, host)
  {
    if b == [] {
      assert a + b == a;
    } else {
      assert (a + b)[..|a + b| - 1] == a + b[..|b| - 1];
      AddedAppend(a, b[..|b| - 1], host);
    }
  }

  /** What the pass adds and removes for a host is that host's correction. */
  lemma {:induction false} EdgePassAt(cfg: Config, canon: Canon, order: seq<Host>, i: nat, live: LiveEdge, host: Host)
    requires i < |cfg.edges| && forall h :: h in order ==> h in canon
    requires forall i, j :: 0 <= i < j < |order| ==> order[i] != order[j]
    requires EdgePass(cfg, canon, order, i, live).Ok?
    ensures var pass := EdgePass(cfg, canon, order, i, live).value;
      if host in order then
        var r := Correction(cfg, i, live, host, canon[host]);
        r.Ok? && Added(pass.adds, host) == Added(r.value.adds, host) && (host in pass.removes <==> host in r.value.removes)
      else Added(pass.adds, host).None? && host !in pass.removes
  {
    if order != [] {
      var init, last := order[..|order| - 1], order[|order| - 1];
      assert order == init + [last];
      EdgePassAt(cfg, canon, init, i, live, host);
      var rest, c := EdgePass(cfg, canon, init, i, live).value, Correction(cfg, i, live, last, canon[last]).value;
      AddedAppend(rest.adds, c.adds, host);
      CorrectionHost(cfg, i, live, last, canon[last]);
      assert c.adds != [] ==> Added(c.adds, c.adds[0].host) == Some(c.adds[0]);
    }
  }

  // ----- wildcard coverage after corrections -----

  lemma {:induction false} CoveringAppend(a: seq<Route>, b: seq<Route>, host: Host, but: set<Host>)
    ensures CoveringBut(a + b, host, but)
         == if CoveringBut(a, host, but).Some? then CoveringBut(a, host, but) else CoveringBut(b, host, but)
  {
    if a == [] {
      assert a + b == b;
    } else {
      assert (a + b)[1..] == a[1..] + b;
      CoveringAppend(a[1..], b, host, but);
    }
  }

  function SetOf(hosts: seq<Host>): set<Host> {
    set h | h in hosts
  }

  function HostsOf(routes: seq<Route>): set<Host> {
    set r | r in routes :: r.host
  }

  lemma {:induction false} CoveringWithout(routes: seq<Route>, hosts: seq<Host>, host: Host, but: set<Host>)
    ensures CoveringBut(Without(routes, hosts), host, but) == CoveringBut(routes, host, but + SetOf(hosts))
  {
    if routes != [] {
      CoveringWithout(routes[1..], hosts, host, but);
      CoveringAppend(if routes[0].host in hosts then [] else [routes[0]], Without(routes[1..], hosts), host, but);
      assert [routes[0]][1..] == [];
    }
  }

  /** Putting routes: what covers a host is the first wildcard whose own host is not put, else
      what would cover it among the put ones alone. */
  lemma {:induction false} CoveringPutAll(routes: seq<Route>, adds: seq<Route>, host: Host, but: set<Host>)
    ensures CoveringBut(PutAll(routes, adds), host, but)
         == if CoveringBut(routes, host, but + HostsOf(adds)).Some? then CoveringBut(routes, host, but + HostsOf(adds))
            else CoveringBut(PutAll([], adds), host, but)
  {
    if adds == [] {
      assert but + HostsOf(adds) == but;
    } else {
      var init, last := adds[..|adds| - 1], adds[|adds| - 1];
      assert adds == init + [last];
      assert but + SetOf([last.host]) + HostsOf(init) == but + HostsOf(adds);
      CoveringPutAll(routes, init, host, but + SetOf([last.host]));
      CoveringPut(PutAll(routes, init), last, host, but);
      CoveringPut(PutAll([], init), last, host, but);
    }
  }

  lemma CoveringPut(routes: seq<Route>, r: Route, host: Host, but: set<Host>)
    ensures CoveringBut(Put(routes, r), host, but)
         == if CoveringBut(routes, host, but + SetOf([r.host])).Some? then CoveringBut(routes, host, but + SetOf([r.host]))
            else CoveringBut([Marked(r)], host, but)
  {
    CoveringWithout(routes, [r.host], host, but);
    CoveringAppend(Without(routes, [r.host]), [Marked(r)], host, but);
  }

  /** The hosts whose routes a change takes away or replaces. */
  function Replaced(c: EdgeChange): set<Host> {
    SetOf(c.removes) + HostsOf(c.adds)
  }

  /** Which wildcard covers a host after a change: the first whose own route the change leaves,
      failing that one it wrote. */
  lemma CoveringApplied(live: LiveEdge, c: EdgeChange, host: Host)
    ensures CoveringRoute(ApplyEdge(live, c).routes, host)
         == if CoveringBut(live.routes, host, Replaced(c)).Some? then CoveringBut(live.routes, host, Replaced(c))
            else CoveringRoute(PutAll([], c.adds), host)
  {
    CoveringPutAll(Without(live.routes, c.removes), c.adds, host, {});
    CoveringWithout(live.routes, c.removes, host, HostsOf(c.adds));
    assert {} + HostsOf(c.adds) == HostsOf(c.adds) && HostsOf(c.adds) + SetOf(c.removes) == Replaced(c);
  }

  ghost predicate PlainHosts(c: EdgeChange) {
    forall h :: h in Replaced(c) ==> !IsWildcard(h)
  }

  /** A change of plain hosts leaves every wildcard where it is. */
  lemma {:induction false} PlainLeavesWildcards(routes: seq<Route>, c: EdgeChange, host: Host)
    requires PlainHosts(c)
    ensures CoveringBut(routes, host, Replaced(c)) == CoveringRoute(routes, host)
  {
    if routes != [] {
      PlainLeavesWildcards(routes[1..], c, host);
    }
  }

  // ----- one edge converges -----

  /** The edge would get a synthesized forward for this host. */
  predicate NeedsForward(cfg: Config, i: nat, live: LiveEdge, host: Host, c: Primacy)
    requires i < |cfg.edges|
  {
    RoleHere(cfg, i, host) == T.RoleForward &&
    match Find(live.routes, host)
    case None => !CarriedByWildcard(cfg, cfg.edges[i], live, host)
    case Some(cur) => cur.upstream.mode != c.mode
  }

  /** What the edge answers for a canonical host once its pass is applied. */
  lemma AppliedAt(cfg: Config, canon: Canon, order: seq<Host>, i: nat, live: LiveEdge, host: Host)
    requires i < |cfg.edges| && Lists(order, canon) && EdgePass(cfg, canon, order, i, live).Ok?
    ensures var after := Find(Applied(live, EdgePass(cfg, canon, order, i, live).value).routes, host);
      && (host !in canon ==> after == Find(live.routes, host))
      && (host in canon ==>
            var r := Correction(cfg, i, live, host, canon[host]);
            && r.Ok?
            && (r.value == NoEdgeChange ==> after == Find(live.routes, host))
            && (r.value != NoEdgeChange ==> CanonicalRoute(cfg, i, host, canon[host]).Ok?)
            && (r.value != NoEdgeChange ==> after == Some(Marked(CanonicalRoute(cfg, i, host, canon[host]).value))))
  {
    var pass := EdgePass(cfg, canon, order, i, live).value;
    FindApplied(live, pass, host);
    EdgePassAt(cfg, canon, order, i, live, host);
    if host in canon {
      CorrectionHost(cfg, i, live, host, canon[host]);
    }
  }

  /** The host has no route of its own on this front and rides a wildcard forward. */
  predicate Rides(cfg: Config, i: nat, live: LiveEdge, host: Host)
    requires i < |cfg.edges|
  {
    RoleHere(cfg, i, host) == T.RoleForward && !HasHost(live, host) && CarriedByWildcard(cfg, cfg.edges[i], live, host)
  }

  /** The first wildcard covering the host that a pass leaves, failing that the one it writes,
      forwards into the chain. */
  predicate StillRides(cfg: Config, i: nat, live: LiveEdge, pass: EdgeChange, host: Host)
    requires i < |cfg.edges|
  {
    match CoveringBut(live.routes, host, Replaced(pass))
    case Some(r) => ChainForward(cfg, cfg.edges[i], r)
    case None =>
      match CoveringRoute(PutAll([], pass.adds), host)
      case Some(r) => ChainForward(cfg, cfg.edges[i], r)
      case None => false
  }

  lemma CarriedAfter(cfg: Config, i: nat, live: LiveEdge, pass: EdgeChange, host: Host)
    requires i < |cfg.edges|
    ensures StillRides(cfg, i, live, pass, host) <==> CarriedByWildcard(cfg, cfg.edges[i], Applied(live, pass), host)
  {
    if EmptyEdge(pass) {
      assert Replaced(pass) == {};
    } else {
      CoveringApplied(live, pass, host);
    }
  }

  /** The host's forward, if it needs one, is canonically http; its ride, if it has one, goes on. */
  predicate Settles(cfg: Config, i: nat, live: LiveEdge, pass: EdgeChange, host: Host, c: Primacy)
    requires i < |cfg.edges|
  {
    (NeedsForward(cfg, i, live, host, c) ==> c.mode == HttpProxy) && (Rides(cfg, i, live, host) ==> StillRides(cfg, i, live, pass, host))
  }

  /** For one host, a second pass corrects nothing exactly when no forward of another mode
      was asked for and the wildcard it rode, if any, still carries it. */
  lemma HostConvergesIff(cfg: Config, canon: Canon, order: seq<Host>, i: nat, live: LiveEdge, host: Host)
    requires i < |cfg.edges| && Lists(order, canon) && EdgePass(cfg, canon, order, i, live).Ok? && host in canon
    ensures var pass := EdgePass(cfg, canon, order, i, live).value;
      var again := Correction(cfg, i, Applied(live, pass), host, canon[host]);
      && (again == Ok(NoEdgeChange) <==> Settles(cfg, i, live, pass, host, canon[host]))
      && (again.Err? ==> Rides(cfg, i, live, host) && !StillRides(cfg, i, live, pass, host))
  {
    hide CarriedByWildcard, StillRides, Replaced, ChainForward;
    var pass, c := EdgePass(cfg, canon, order, i, live).value, canon[host];
    AppliedAt(cfg, canon, order, i, live, host);
    CarriedAfter(cfg, i, live, pass, host);
    CorrectionHost(cfg, i, live, host, c);
    if Correction(cfg, i, live, host, c).value != NoEdgeChange {
      CanonicalRouteHost(cfg, i, host, c);
    }
  }

  ghost predicate PassSettles(cfg: Config, canon: Canon, i: nat, live: LiveEdge, pass: EdgeChange)
    requires i < |cfg.edges|
  {
    forall h :: h in canon ==> Settles(cfg, i, live, pass, h, canon[h])
  }

  /** No ride on this edge ends. */
  ghost predicate RidesOn(cfg: Config, canon: Canon, i: nat, live: LiveEdge, pass: EdgeChange)
    requires i < |cfg.edges|
  {
    forall h :: h in canon && Rides(cfg, i, live, h) ==> StillRides(cfg, i, live, pass, h)
  }

  /** An edge converges in one pass exactly when every forward it needs is canonically http and
      every wildcard ride goes on. */
  lemma EdgeConvergesIff(cfg: Config, canon: Canon, order: seq<Host>, order': seq<Host>, i: nat, live: LiveEdge)
    requires i < |cfg.edges| && Lists(order, canon) && Lists(order', canon) && EdgePass(cfg, canon, order, i, live).Ok?
    ensures var pass := EdgePass(cfg, canon, order, i, live).value;
      var again := EdgePass(cfg, canon, order', i, Applied(live, pass));
      && (again == Ok(NoEdgeChange) <==> PassSettles(cfg, canon, i, live, pass))
      && (RidesOn(cfg, canon, i, live, pass) ==> again.Ok?)
  {
    hide Settles, StillRides;
    var pass := EdgePass(cfg, canon, order, i, live).value;
    var live' := Applied(live, pass);
    EdgePassOkIff(cfg, canon, order', i, live');
    EdgePassEmptyIff(cfg, canon, order', i, live');
    forall h | h in canon
      ensures var again := Correction(cfg, i, live', h, canon[h]);
        && (again == Ok(NoEdgeChange) <==> Settles(cfg, i, live, pass, h, canon[h]))
        && (again.Err? ==> Rides(cfg, i, live, h) && !StillRides(cfg, i, live, pass, h))
    {
      HostConvergesIff(cfg, canon, order, i, live, h);
    }
  }

  /** In particular where the pass touches no wildcard. */
  lemma PlainRidesOn(cfg: Config, canon: Canon, i: nat, live: LiveEdge, pass: EdgeChange)
    requires i < |cfg.edges| && PlainHosts(pass)
    ensures RidesOn(cfg, canon, i, live, pass)
  {
    forall h | h in canon && Rides(cfg, i, live, h) ensures StillRides(cfg, i, live, pass, h) {
      PlainLeavesWildcards(live.routes, pass, h);
    }
  }
}
