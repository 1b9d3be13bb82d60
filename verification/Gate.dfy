/** The refuse-to-manage gate (internal/core/gate.go): what it admits, and that neither the
    forward changes nor the compensators of an admitted run touch what crenel must not. */
module Gate {
  import opened Model
  import T = Topology
  import opened Planner
  import opened Steps

  function Touched(c: EdgeChange): set<Host> {
    (set i | 0 <= i < |c.adds| :: c.adds[i].host) + (set i | 0 <= i < |c.removes| :: c.removes[i])
  }

  /** The ownership index keeps the last route it meets for a host. */
  function OwnerByHost(routes: seq<Route>, host: Host): Option<Ownership> {
    if routes == [] then None
    else if routes[|routes| - 1].host == host then Some(routes[|routes| - 1].ownership)
    else OwnerByHost(routes[..|routes| - 1], host)
  }

  predicate OwnerAdmits(o: Ownership, force: bool) {
    o != OwnForeign && (o == OwnUnknown ==> force)
  }

  /** No generator owns the edge, and every touched host is new or owned by no one else. */
  predicate GateEdge(live: LiveEdge, c: EdgeChange, force: bool) {
    EmptyEdge(c) ||
    (live.generator == "" && forall h :: h in Touched(c) ==>
      OwnerByHost(live.routes, h).None? || OwnerAdmits(OwnerByHost(live.routes, h).value, force))
  }

  /** The same question for one participant of a chain, by its first route for the host. */
  predicate GateParticipant(live: LiveEdge, host: Host, force: bool) {
    live.generator == "" && (HasHost(live, host) ==> OwnerAdmits(Find(live.routes, host).value.ownership, force))
  }

  predicate IsChainOp(cfg: Config, op: Op) {
    op.host != "" && exists i :: 0 <= i < |cfg.edges| && RoleOf(cfg, i, op.service) == T.RoleForward
  }

  /** A chain write is checked on every participant, changed or not. */
  predicate GateChain(cfg: Config, w: World, op: Op, force: bool)
    requires Fits(cfg, w)
  {
    IsChainOp(cfg, op) ==>
      forall i :: 0 <= i < |cfg.edges| && RoleOf(cfg, i, op.service) != T.RoleNone ==> GateParticipant(w.edges[i], op.host, force)
  }

  predicate GateOwnership(cfg: Config, w: World, op: Op, edges: seq<EdgePlan>, force: bool)
    requires PlansFit(cfg, w, edges)
  {
    GateChain(cfg, w, op, force) &&
    forall j :: 0 <= j < |edges| ==> GateEdge(w.edges[edges[j].edge], edges[j].change, force)
  }

  /** The change reaches no generator-owned edge and touches no route owned elsewhere, nor
      one of unknown owner without force. */
  ghost predicate SafeTouch(live: LiveEdge, c: EdgeChange, force: bool) {
    live.generator == "" && forall r :: r in live.routes && r.host in Touched(c) ==> OwnerAdmits(r.ownership, force)
  }

  ghost predicate HostsOnce(live: LiveEdge) {
    forall i, j :: 0 <= i < j < |live.routes| ==> live.routes[i].host != live.routes[j].host
  }

  lemma {:induction false} OwnerOfListed(routes: seq<Route>, r: Route)
    requires r in routes && forall i, j :: 0 <= i < j < |routes| ==> routes[i].host != routes[j].host
    ensures OwnerByHost(routes, r.host) == Some(r.ownership)
  {
    var n := |routes| - 1;
    assert routes == routes[..n] + [routes[n]];
    if routes[n] != r {
      var i :| 0 <= i < n && routes[i] == r;
      assert routes[i].host != routes[n].host;
      OwnerOfListed(routes[..n], r);
    }
  }

  /** The compensator touches only hosts the forward change touched. */
  lemma InverseTouchesNoMore(c: EdgeChange, live: LiveEdge)
    ensures Touched(InvertEdge(c, live)) <= Touched(c)
  {
    var inv := InvertEdge(c, live);
    PriorRoutesHosts(live.routes, c.removes);
    forall h | h in Touched(inv) ensures h in Touched(c) {
      if i :| 0 <= i < |inv.adds| && inv.adds[i].host == h {
        assert inv.adds[i] in inv.adds;
        assert h in c.removes;
      } else {
        var i :| 0 <= i < |inv.removes| && inv.removes[i] == h;
        assert c.adds[i].host == h;
      }
    }
  }

  lemma {:induction false} PriorRoutesHosts(snapshot: seq<Route>, hosts: seq<Host>)
    ensures forall r :: r in PriorRoutes(snapshot, hosts) ==> r.host in hosts
  {
    if hosts != [] {
      PriorRoutesHosts(snapshot, hosts[..|hosts| - 1]);
      FindIsListed(snapshot, hosts[|hosts| - 1]);
      assert hosts == hosts[..|hosts| - 1] + [hosts[|hosts| - 1]];
    }
  }

  /** What the gate reads of a host in the index it could read of each of the host's routes: no
      route it would refuse stands in the shadow of one it admits. */
  ghost predicate OwnersAgree(live: LiveEdge, force: bool) {
    live.generator != "" || forall r :: r in live.routes ==> OwnerStands(live.routes, r, force)
  }

  ghost predicate OwnerStands(routes: seq<Route>, r: Route, force: bool) {
    OwnerByHost(routes, r.host).Some? && OwnerAdmits(OwnerByHost(routes, r.host).value, force) ==> OwnerAdmits(r.ownership, force)
  }

  lemma OnceListedAgrees(live: LiveEdge, force: bool)
    requires HostsOnce(live)
    ensures OwnersAgree(live, force)
  {
    forall r | r in live.routes ensures OwnerStands(live.routes, r, force) {
      OwnerOfListed(live.routes, r);
    }
  }

  lemma {:induction false} OwnerIsKnown(routes: seq<Route>, r: Route)
    requires r in routes
    ensures OwnerByHost(routes, r.host).Some?
  {
    var n := |routes| - 1;
    if routes[n].host != r.host {
      assert routes == routes[..n] + [routes[n]];
      OwnerIsKnown(routes[..n], r);
    }
  }

  /** Ownership safety: once the gate admits an edge's change, neither applying it nor its
      compensator touches what crenel must not, on an edge whose index hides no owner. */
  lemma GateIsSafe(live: LiveEdge, c: EdgeChange, force: bool)
    requires GateEdge(live, c, force) && !EmptyEdge(c) && OwnersAgree(live, force)
    ensures SafeTouch(live, c, force) && SafeTouch(live, InvertEdge(c, live), force)
  {
    InverseTouchesNoMore(c, live);
    forall r | r in live.routes && r.host in Touched(c) ensures OwnerAdmits(r.ownership, force) {
      OwnerIsKnown(live.routes, r);
      assert OwnerStands(live.routes, r, force);
    }
  }

  /** The gate refuses no safe change, on any edge. */
  lemma SafeIsAdmitted(live: LiveEdge, c: EdgeChange, force: bool)
    requires SafeTouch(live, c, force)
    ensures GateEdge(live, c, force)
  {
    forall h | h in Touched(c) && OwnerByHost(live.routes, h).Some?
      ensures OwnerAdmits(OwnerByHost(live.routes, h).value, force)
    {
      OwnerIsListed(live.routes, h);
    }
  }

  /** On an edge the gate admits exactly the safe changes, if and only if the edge's index hides
      no owner; in particular on an edge that lists each host once. */
  lemma GateIsExactIff(live: LiveEdge, force: bool)
    ensures (forall c :: !EmptyEdge(c) ==> (GateEdge(live, c, force) <==> SafeTouch(live, c, force))) <==> OwnersAgree(live, force)
    ensures HostsOnce(live) ==> OwnersAgree(live, force)
  {
    if HostsOnce(live) {
      OnceListedAgrees(live, force);
    }
    if OwnersAgree(live, force) {
      forall c | !EmptyEdge(c) ensures GateEdge(live, c, force) <==> SafeTouch(live, c, force) {
        if GateEdge(live, c, force) {
          GateIsSafe(live, c, force);
        } else if SafeTouch(live, c, force) {
          SafeIsAdmitted(live, c, force);
        }
      }
    } else {
      var r :| r in live.routes && !OwnerStands(live.routes, r, force);
      HiddenOwnerPasses(live, r, force);
    }
  }

  /** Removing the host of a route in the shadow is admitted and unsafe. */
  lemma HiddenOwnerPasses(live: LiveEdge, r: Route, force: bool)
    requires live.generator == "" && r in live.routes && !OwnerStands(live.routes, r, force)
    ensures var c := EdgeChange([], [r.host]); !EmptyEdge(c) && GateEdge(live, c, force) && !SafeTouch(live, c, force)
  {
    var c := EdgeChange([], [r.host]);
    assert c.removes[0] in Touched(c);
    assert forall h :: h in Touched(c) ==> h == r.host;
  }

  lemma {:induction false} OwnerIsListed(routes: seq<Route>, host: Host)
    requires OwnerByHost(routes, host).Some?
    ensures exists r :: r in routes && r.host == host && r.ownership == OwnerByHost(routes, host).value
  {
    var n := |routes| - 1;
    if routes[n].host != host {
      OwnerIsListed(routes[..n], host);
      var r :| r in routes[..n] && r.host == host && r.ownership == OwnerByHost(routes, host).value;
      assert r in routes;
    } else {
      assert routes[n] in routes;
    }
  }
}
