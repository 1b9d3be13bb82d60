/** When reconcile converges (internal/core/reconcile.go): applying its change leaves the
    canonical set as it was and, exactly when every forward it had to write is canonically http
    and no wildcard it replaced was relied on, nothing to correct; and its read-back accepts
    exactly that of the edges. */
module Converge {
  import opened Model
  import opened Zones
  import T = Topology
  import opened Planner
  import opened Steps
  import opened Runs
  import opened Canonical
  import opened Reconcile
  import opened ReconcileDns
  import opened Orders
  import opened Gate
  import opened Flow
  import opened Changes

  // ----- the whole plan -----

  function EdgePasses(cfg: Config, canon: Canon, order: seq<Host>, w: World, n: nat): Result<seq<EdgeChange>>
    requires Fits(cfg, w) && n <= |cfg.edges| && forall h :: h in order ==> h in canon
  {
    if n == 0 then Ok([])
    else
      match EdgePasses(cfg, canon, order, w, n - 1)
      case Err => Err
      case Ok(rest) =>
        match EdgePass(cfg, canon, order, n - 1, w.edges[n - 1])
        case Err => Err
        case Ok(c) => Ok(rest + [c])
  }

  function DnsPasses(cfg: Config, canon: Canon, order: seq<Host>, w: World, n: nat): Result<seq<DnsChange>>
    requires Fits(cfg, w) && n <= |cfg.dns|
  {
    if n == 0 then Ok([])
    else
      match DnsPasses(cfg, canon, order, w, n - 1)
      case Err => Err
      case Ok(rest) =>
        match DnsPass(cfg, canon, order, cfg.dns[n - 1], w.dns[n - 1])
        case Err => Err
        case Ok(c) => Ok(rest + [c])
  }

  /** The plan, for one listing of the canonical hosts (the source lists them sorted). */
  function PlanReconcile(cfg: Config, w: World, order: seq<Host>): Result<Passes>
    requires Fits(cfg, w) && forall h :: h in order ==> h in CanonOf(cfg, w)
  {
    match EdgePasses(cfg, CanonOf(cfg, w), order, w, |cfg.edges|)
    case Err => Err
    case Ok(edges) =>
      match DnsPasses(cfg, CanonOf(cfg, w), order, w, |cfg.dns|)
      case Err => Err
      case Ok(dns) => Ok(Passes(edges, dns))
  }

  lemma {:induction false} EdgePassesAt(cfg: Config, canon: Canon, order: seq<Host>, w: World, n: nat)
    requires Fits(cfg, w) && n <= |cfg.edges| && forall h :: h in order ==> h in canon
    ensures EdgePasses(cfg, canon, order, w, n).Ok? <==> forall i :: 0 <= i < n ==> EdgePass(cfg, canon, order, i, w.edges[i]).Ok?
    ensures EdgePasses(cfg, canon, order, w, n).Ok? ==>
      |EdgePasses(cfg, canon, order, w, n).value| == n &&
      forall i :: 0 <= i < n ==> EdgePass(cfg, canon, order, i, w.edges[i]) == Ok(EdgePasses(cfg, canon, order, w, n).value[i])
  {
    hide EdgePass;
    if n > 0 {
      EdgePassesAt(cfg, canon, order, w, n - 1);
    }
  }

  lemma {:induction false} DnsPassesAt(cfg: Config, canon: Canon, order: seq<Host>, w: World, n: nat)
    requires Fits(cfg, w) && n <= |cfg.dns|
    ensures DnsPasses(cfg, canon, order, w, n).Ok? <==>
      forall i :: 0 <= i < n ==> DnsPass(cfg, canon, order, cfg.dns[i], w.dns[i]).Ok?
    ensures DnsPasses(cfg, canon, order, w, n).Ok? ==>
      |DnsPasses(cfg, canon, order, w, n).value| == n &&
      forall i :: 0 <= i < n ==> DnsPass(cfg, canon, order, cfg.dns[i], w.dns[i]) == Ok(DnsPasses(cfg, canon, order, w, n).value[i])
  {
    hide DnsPass;
    if n > 0 {
      DnsPassesAt(cfg, canon, order, w, n - 1);
    }
  }

  lemma PlanAt(cfg: Config, w: World, order: seq<Host>)
    requires Fits(cfg, w) && Lists(order, CanonOf(cfg, w)) && PlanReconcile(cfg, w, order).Ok?
    ensures var p := PlanReconcile(cfg, w, order).value;
      && PassesFit(cfg, w, p)
      && (forall i :: 0 <= i < |cfg.edges| ==> EdgePass(cfg, CanonOf(cfg, w), order, i, w.edges[i]) == Ok(p.edges[i]))
      && (forall i :: 0 <= i < |cfg.dns| ==> DnsPass(cfg, CanonOf(cfg, w), order, cfg.dns[i], w.dns[i]) == Ok(p.dns[i]))
  {
    EdgePassesAt(cfg, CanonOf(cfg, w), order, w, |cfg.edges|);
    DnsPassesAt(cfg, CanonOf(cfg, w), order, w, |cfg.dns|);
  }

  // ----- the canonical set is stable -----

  /** A canonical host's entry, read off its primary edge. */
  lemma CanonAt(cfg: Config, w: World, host: Host)
    requires Fits(cfg, w)
    ensures At(CanonOf(cfg, w), host) == if Managed(cfg, host) then Primary(cfg, w, host, |cfg.edges|) else None
  {
    ScanIsPrimary(cfg, w, |cfg.edges|, host);
  }

  /** Fronting a service is serving its hosts. */
  lemma FrontingServes(cfg: Config, i: nat, host: Host)
    requires i < |cfg.edges|
    ensures ServedBy(cfg, i, host) <==> T.Fronts(cfg.edges[i], cfg.serviceOf(host))
    ensures ServedBy(cfg, i, host) <==> RoleHere(cfg, i, host) == T.RoleTerminal
  {
  }

  /** After its pass, a serving edge has the canonical host: its old route if that was in the
      canonical mode, else one rendered with the canonical mode and auth. */
  lemma ServingEdgeAfter(cfg: Config, canon: Canon, order: seq<Host>, i: nat, live: LiveEdge, host: Host)
    requires i < |cfg.edges| && Lists(order, canon) && host in canon && ServedBy(cfg, i, host)
    requires EdgePass(cfg, canon, order, i, live).Ok?
    ensures var after := PrimacyFrom(Applied(live, EdgePass(cfg, canon, order, i, live).value), host, true);
      && after.Some? && after.value.mode == canon[host].mode
      && (PrimacyFrom(live, host, true) == after || after == Some(Primacy(canon[host].mode, canon[host].auth, true)))
      && (HasHost(live, host) && Find(live.routes, host).value.upstream.mode == canon[host].mode ==> PrimacyFrom(live, host, true) == after)
      && (!HasHost(live, host) ==> after == Some(Primacy(canon[host].mode, canon[host].auth, true)))
  {
    AppliedAt(cfg, canon, order, i, live, host);
    if Correction(cfg, i, live, host, canon[host]).value != NoEdgeChange {
      CanonicalRouteHost(cfg, i, host, canon[host]);
    }
  }

  /** The first edge in wiring order that serves the host. */
  lemma {:induction false} FirstServing(cfg: Config, host: Host, n: nat) returns (s: nat)
    requires n <= |cfg.edges| && exists i :: 0 <= i < n && ServedBy(cfg, i, host)
    ensures s < n && ServedBy(cfg, s, host) && forall j :: 0 <= j < s ==> !ServedBy(cfg, j, host)
  {
    if exists i :: 0 <= i < n - 1 && ServedBy(cfg, i, host) {
      s := FirstServing(cfg, host, n - 1);
    } else {
      s := n - 1;
    }
  }

  /** Applying a plan changes no canonical mode or auth; only, every canonical host is now
      served by its first serving edge. */
  lemma CanonStableAt(cfg: Config, w: World, order: seq<Host>, host: Host)
    requires Fits(cfg, w) && Lists(order, CanonOf(cfg, w)) && PlanReconcile(cfg, w, order).Ok?
    requires PassesFit(cfg, w, PlanReconcile(cfg, w, order).value)
    ensures var canon, canon' := CanonOf(cfg, w), CanonOf(cfg, Corrected(cfg, w, PlanReconcile(cfg, w, order).value));
      && (host in canon <==> host in canon')
      && (host in canon ==> canon'[host] == Primacy(canon[host].mode, canon[host].auth, true))
  {
    var canon, n := CanonOf(cfg, w), |cfg.edges|;
    var w' := Corrected(cfg, w, PlanReconcile(cfg, w, order).value);
    PlanAt(cfg, w, order);
    CanonAt(cfg, w, host);
    CanonAt(cfg, w', host);
    if Managed(cfg, host) {
      if host in canon {
        CanonStableIn(cfg, w, order, host);
      } else {
        CanonStableOut(cfg, w, order, host);
      }
    }
  }

  lemma CanonStableOut(cfg: Config, w: World, order: seq<Host>, host: Host)
    requires Fits(cfg, w) && Lists(order, CanonOf(cfg, w)) && PlanReconcile(cfg, w, order).Ok?
    requires PassesFit(cfg, w, PlanReconcile(cfg, w, order).value)
    requires Managed(cfg, host) && host !in CanonOf(cfg, w)
    ensures Primary(cfg, Corrected(cfg, w, PlanReconcile(cfg, w, order).value), host, |cfg.edges|).None?
  {
    var canon, n := CanonOf(cfg, w), |cfg.edges|;
    var w' := Corrected(cfg, w, PlanReconcile(cfg, w, order).value);
    PlanAt(cfg, w, order);
    CanonAt(cfg, w, host);
    FirstEdgeBound(cfg, w, host, false, n);
    FirstEdgeBound(cfg, w, host, true, n);
    forall i | 0 <= i < n ensures !HasHost(w'.edges[i], host) {
      AppliedAt(cfg, canon, order, i, w.edges[i], host);
    }
    FirstEdgeBound(cfg, w', host, false, n);
    FirstEdgeBound(cfg, w', host, true, n);
  }

  lemma CanonStableIn(cfg: Config, w: World, order: seq<Host>, host: Host)
    requires Fits(cfg, w) && Lists(order, CanonOf(cfg, w)) && PlanReconcile(cfg, w, order).Ok?
    requires PassesFit(cfg, w, PlanReconcile(cfg, w, order).value)
    requires Managed(cfg, host) && host in CanonOf(cfg, w)
    ensures Primary(cfg, Corrected(cfg, w, PlanReconcile(cfg, w, order).value), host, |cfg.edges|)
         == Some(Primacy(CanonOf(cfg, w)[host].mode, CanonOf(cfg, w)[host].auth, true))
  {
    var canon, n := CanonOf(cfg, w), |cfg.edges|;
    var w' := Corrected(cfg, w, PlanReconcile(cfg, w, order).value);
    PlanAt(cfg, w, order);
    CanonAt(cfg, w, host);
    var m :| 0 <= m < n && T.Fronts(cfg.edges[m], cfg.serviceOf(host));
    FrontingServes(cfg, m, host);
    var s := FirstServing(cfg, host, n);
    ServingEdgeAfter(cfg, canon, order, s, w.edges[s], host);
    FirstIs(cfg, w', host, s, n);
    if HasHost(w.edges[s], host) {
      FirstIs(cfg, w, host, s, n);
    }
  }

  /** The first serving edge, if it has the host, is the primary edge. */
  lemma FirstIs(cfg: Config, w: World, host: Host, s: nat, n: nat)
    requires Fits(cfg, w) && s < n <= |cfg.edges| && HasHost(w.edges[s], host) && ServedBy(cfg, s, host)
    requires forall j :: 0 <= j < s ==> !ServedBy(cfg, j, host)
    ensures Primary(cfg, w, host, n) == PrimacyFrom(w.edges[s], host, true)
  {
    FirstEdgeBound(cfg, w, host, true, n);
  }

  // ----- convergence -----

  /** Every forward the plan has to write is for a host whose canonical mode is http, and every
      host that rides a wildcard forward goes on riding one. */
  ghost predicate EdgesSettle(cfg: Config, w: World, p: Passes)
    requires PassesFit(cfg, w, p)
  {
    forall i :: 0 <= i < |cfg.edges| ==> PassSettles(cfg, CanonOf(cfg, w), i, w.edges[i], p.edges[i])
  }

  /** No host a wildcard record answers for comes to meet a wrong one first. */
  ghost predicate RecordsSettle(cfg: Config, w: World, p: Passes)
    requires PassesFit(cfg, w, p)
  {
    forall i :: 0 <= i < |cfg.dns| ==> WildcardsKept(cfg, CanonOf(cfg, w), cfg.dns[i], w.dns[i], p.dns[i])
  }

  ghost predicate ForwardsAreHttp(cfg: Config, w: World)
    requires Fits(cfg, w)
  {
    forall i, h :: 0 <= i < |cfg.edges| && h in CanonOf(cfg, w) && NeedsForward(cfg, i, w.edges[i], h, CanonOf(cfg, w)[h]) ==>
      CanonOf(cfg, w)[h].mode == HttpProxy
  }

  ghost predicate TouchesPlainHosts(p: Passes) {
    (forall i :: 0 <= i < |p.edges| ==> PlainHosts(p.edges[i])) && forall i :: 0 <= i < |p.dns| ==> NoWildcards(p.dns[i].adds)
  }

  /** Where the plan touches no wildcard, only the forwards matter. */
  lemma PlainSettlesIff(cfg: Config, w: World, order: seq<Host>, p: Passes)
    requires Fits(cfg, w) && Lists(order, CanonOf(cfg, w)) && PlanReconcile(cfg, w, order) == Ok(p)
    requires PassesFit(cfg, w, p) && TouchesPlainHosts(p)
    ensures RecordsSettle(cfg, w, p) && (EdgesSettle(cfg, w, p) <==> ForwardsAreHttp(cfg, w))
  {
    hide NeedsForward, Rides, StillRides;
    PlanAt(cfg, w, order);
    forall i | 0 <= i < |cfg.dns| ensures WildcardsKept(cfg, CanonOf(cfg, w), cfg.dns[i], w.dns[i], p.dns[i]) {
      WildcardsAreKept(cfg, CanonOf(cfg, w), order, cfg.dns[i], w.dns[i]);
    }
    forall i | 0 <= i < |cfg.edges| ensures RidesOn(cfg, CanonOf(cfg, w), i, w.edges[i], p.edges[i]) {
      PlainRidesOn(cfg, CanonOf(cfg, w), i, w.edges[i], p.edges[i]);
    }
    if EdgesSettle(cfg, w, p) {
      forall i, h | 0 <= i < |cfg.edges| && h in CanonOf(cfg, w) && NeedsForward(cfg, i, w.edges[i], h, CanonOf(cfg, w)[h])
        ensures CanonOf(cfg, w)[h].mode == HttpProxy
      {
        assert Settles(cfg, i, w.edges[i], p.edges[i], h, CanonOf(cfg, w)[h]);
      }
    }
  }

  /** Corrections look at the canonical mode and auth only. */
  ghost predicate SameCanon(a: Canon, b: Canon) {
    (forall h :: h in a <==> h in b) && forall h :: h in a ==> a[h].mode == b[h].mode && a[h].auth == b[h].auth
  }

  lemma {:induction false} SamePass(cfg: Config, a: Canon, b: Canon, order: seq<Host>, i: nat, live: LiveEdge)
    requires i < |cfg.edges| && SameCanon(a, b) && (forall h :: h in order ==> h in a) && forall h :: h in order ==> h in b
    ensures EdgePass(cfg, a, order, i, live) == EdgePass(cfg, b, order, i, live)
  {
    if order != [] {
      var init, last := order[..|order| - 1], order[|order| - 1];
      assert order == init + [last];
      SamePass(cfg, a, b, init, i, live);
      SameCorrection(cfg, i, live, last, a[last], b[last]);
    }
  }

  lemma SameCorrection(cfg: Config, i: nat, live: LiveEdge, host: Host, a: Primacy, b: Primacy)
    requires i < |cfg.edges| && a.mode == b.mode && a.auth == b.auth
    ensures Correction(cfg, i, live, host, a) == Correction(cfg, i, live, host, b)
  {
  }

  lemma {:induction false} SameStale(cfg: Config, a: Canon, b: Canon, zone: Zone)
    requires SameCanon(a, b)
    ensures StaleRecords(cfg, a, zone) == StaleRecords(cfg, b, zone)
  {
    if zone != [] {
      SameStale(cfg, a, b, zone[..|zone| - 1]);
    }
  }

  lemma CanonStable(cfg: Config, w: World, order: seq<Host>)
    requires Fits(cfg, w) && Lists(order, CanonOf(cfg, w)) && PlanReconcile(cfg, w, order).Ok?
    requires PassesFit(cfg, w, PlanReconcile(cfg, w, order).value)
    ensures SameCanon(CanonOf(cfg, w), CanonOf(cfg, Corrected(cfg, w, PlanReconcile(cfg, w, order).value)))
  {
    forall h {
      CanonStableAt(cfg, w, order, h);
    }
  }

  /** Replanning one edge of the corrected world. */
  lemma EdgeReplanned(cfg: Config, w: World, order: seq<Host>, order': seq<Host>, p: Passes, i: nat)
    requires Fits(cfg, w) && Lists(order, CanonOf(cfg, w)) && PlanReconcile(cfg, w, order) == Ok(p) && i < |cfg.edges|
    requires PassesFit(cfg, w, p) && Lists(order', CanonOf(cfg, Corrected(cfg, w, p)))
    ensures var w' := Corrected(cfg, w, p);
      var again := EdgePass(cfg, CanonOf(cfg, w'), order', i, w'.edges[i]);
      && (again == Ok(NoEdgeChange) <==> PassSettles(cfg, CanonOf(cfg, w), i, w.edges[i], p.edges[i]))
      && (RidesOn(cfg, CanonOf(cfg, w), i, w.edges[i], p.edges[i]) ==> again.Ok?)
  {
    hide EdgePass, PassSettles, RidesOn, CanonOf;
    var w' := Corrected(cfg, w, p);
    PlanAt(cfg, w, order);
    CanonStable(cfg, w, order);
    assert Lists(order', CanonOf(cfg, w));
    SamePass(cfg, CanonOf(cfg, w), CanonOf(cfg, w'), order', i, w'.edges[i]);
    EdgeConvergesIff(cfg, CanonOf(cfg, w), order, order', i, w.edges[i]);
  }

  lemma DnsReplanned(cfg: Config, w: World, order: seq<Host>, order': seq<Host>, p: Passes, i: nat)
    requires Fits(cfg, w) && Lists(order, CanonOf(cfg, w)) && PlanReconcile(cfg, w, order) == Ok(p) && i < |cfg.dns|
    requires PassesFit(cfg, w, p) && Lists(order', CanonOf(cfg, Corrected(cfg, w, p)))
    ensures var w' := Corrected(cfg, w, p);
      var again := DnsPass(cfg, CanonOf(cfg, w'), order', cfg.dns[i], w'.dns[i]);
      again.Ok? && (again.value == NoDnsChange <==> WildcardsKept(cfg, CanonOf(cfg, w), cfg.dns[i], w.dns[i], p.dns[i]))
  {
    hide DnsAdds, WildcardsKept, CanonOf;
    var w' := Corrected(cfg, w, p);
    PlanAt(cfg, w, order);
    CanonStable(cfg, w, order);
    assert Lists(order', CanonOf(cfg, w));
    SameStale(cfg, CanonOf(cfg, w), CanonOf(cfg, w'), w'.dns[i]);
    DnsConvergesIff(cfg, CanonOf(cfg, w), order, order', cfg.dns[i], w.dns[i]);
  }

  predicate PlansNothing(r: Result<Passes>) {
    r.Ok? && NoDrift(r.value)
  }

  /** A plan shows no drift exactly when every pass is empty. */
  lemma DriftIff(cfg: Config, w: World, canon: Canon, order: seq<Host>)
    requires Fits(cfg, w) && canon == CanonOf(cfg, w) && forall h :: h in order ==> h in canon
    ensures PlansNothing(PlanReconcile(cfg, w, order)) <==>
      && (forall i :: 0 <= i < |cfg.edges| ==> EdgePass(cfg, canon, order, i, w.edges[i]) == Ok(NoEdgeChange))
      && (forall i :: 0 <= i < |cfg.dns| ==> DnsPass(cfg, canon, order, cfg.dns[i], w.dns[i]) == Ok(NoDnsChange))
    ensures PlanReconcile(cfg, w, order).Ok? <==>
      && (forall i :: 0 <= i < |cfg.edges| ==> EdgePass(cfg, canon, order, i, w.edges[i]).Ok?)
      && (forall i :: 0 <= i < |cfg.dns| ==> DnsPass(cfg, canon, order, cfg.dns[i], w.dns[i]).Ok?)
  {
    hide EdgePass, DnsAdds, CanonOf;
    EdgePassesAt(cfg, canon, order, w, |cfg.edges|);
    DnsPassesAt(cfg, canon, order, w, |cfg.dns|);
    if PlanReconcile(cfg, w, order).Ok? {
      var p := PlanReconcile(cfg, w, order).value;
      assert forall i :: 0 <= i < |cfg.edges| ==> (EmptyEdge(p.edges[i]) <==> p.edges[i] == NoEdgeChange);
      forall i | 0 <= i < |cfg.dns| ensures EmptyDns(p.dns[i]) <==> p.dns[i] == NoDnsChange {
        assert DnsPass(cfg, canon, order, cfg.dns[i], w.dns[i]) == Ok(p.dns[i]);
      }
    }
  }

  /** When reconcile converges: apply its plan, plan again from what is then live, in whatever
      order the hosts are listed, and there is no drift left exactly when every forward the plan
      had to write was canonically http, every host that rode a wildcard forward still does, and
      no host that a wildcard record answered for meets a wrong one first. The second plan fails
      only where a ride has ended. */
  lemma ReconcileConvergesIff(cfg: Config, w: World, order: seq<Host>, order': seq<Host>, p: Passes)
    requires Fits(cfg, w) && Lists(order, CanonOf(cfg, w)) && PlanReconcile(cfg, w, order) == Ok(p)
    requires PassesFit(cfg, w, p) && Lists(order', CanonOf(cfg, Corrected(cfg, w, p)))
    ensures PlansNothing(PlanReconcile(cfg, Corrected(cfg, w, p), order')) <==> EdgesSettle(cfg, w, p) && RecordsSettle(cfg, w, p)
    ensures (forall i :: 0 <= i < |cfg.edges| ==> RidesOn(cfg, CanonOf(cfg, w), i, w.edges[i], p.edges[i])) ==>
      PlanReconcile(cfg, Corrected(cfg, w, p), order').Ok?
    ensures TouchesPlainHosts(p) ==>
      PlanReconcile(cfg, Corrected(cfg, w, p), order').Ok?
      && (NoDrift(PlanReconcile(cfg, Corrected(cfg, w, p), order').value) <==> ForwardsAreHttp(cfg, w))
  {
    hide PassSettles, WildcardsKept, RidesOn, EdgePass, DnsPass, CanonOf, PlanReconcile, NoDrift, Corrected, PlainHosts, NoWildcards, ForwardsAreHttp;
    var w' := Corrected(cfg, w, p);
    forall i | 0 <= i < |cfg.edges|
      ensures var again := EdgePass(cfg, CanonOf(cfg, w'), order', i, w'.edges[i]);
        && (again == Ok(NoEdgeChange) <==> PassSettles(cfg, CanonOf(cfg, w), i, w.edges[i], p.edges[i]))
        && (RidesOn(cfg, CanonOf(cfg, w), i, w.edges[i], p.edges[i]) ==> again.Ok?)
    {
      EdgeReplanned(cfg, w, order, order', p, i);
    }
    forall i | 0 <= i < |cfg.dns|
      ensures var again := DnsPass(cfg, CanonOf(cfg, w'), order', cfg.dns[i], w'.dns[i]);
        again.Ok? && (again.value == NoDnsChange <==> WildcardsKept(cfg, CanonOf(cfg, w), cfg.dns[i], w.dns[i], p.dns[i]))
    {
      DnsReplanned(cfg, w, order, order', p, i);
    }
    DriftIff(cfg, w', CanonOf(cfg, w'), order');
    if TouchesPlainHosts(p) {
      PlainSettlesIff(cfg, w, order, p);
      forall i | 0 <= i < |cfg.edges| ensures RidesOn(cfg, CanonOf(cfg, w), i, w.edges[i], p.edges[i]) {
        PlainRidesOn(cfg, CanonOf(cfg, w), i, w.edges[i], p.edges[i]);
      }
    }
  }

  // ----- the read-back -----

  /** The host loop, and the auth of every route this reconcile wrote here. */
  predicate EdgeAccepted(cfg: Config, canon: Canon, i: nat, live: LiveEdge, wrote: EdgeChange)
    requires i < |cfg.edges|
  {
    && live.deny && (forall h :: h in canon ==> HostConverged(cfg, i, live, h, canon[h]))
    && (forall r :: r in wrote.adds ==> HasHost(live, r.host) && Find(live.routes, r.host).value.upstream.auth == r.upstream.auth)
  }

  /** Every record added is there, none removed is. */
  predicate DnsAccepted(zone: Zone, wrote: DnsChange) {
    (forall r :: r in wrote.adds ==> Answered(zone, KeyOf(r))) && forall r :: r in wrote.removes ==> !Answered(zone, KeyOf(r))
  }

  predicate WorldAccepted(cfg: Config, canon: Canon, p: Passes, w: World)
    requires PassesFit(cfg, w, p)
  {
    && (forall i :: 0 <= i < |cfg.edges| ==> EdgeAccepted(cfg, canon, i, w.edges[i], p.edges[i]))
    && (forall i :: 0 <= i < |cfg.dns| ==> DnsAccepted(w.dns[i], p.dns[i]))
  }

  lemma {:induction false} PassWrites(cfg: Config, canon: Canon, order: seq<Host>, i: nat, live: LiveEdge)
    requires i < |cfg.edges| && (forall h :: h in order ==> h in canon) && EdgePass(cfg, canon, order, i, live).Ok?
    ensures forall r :: r in EdgePass(cfg, canon, order, i, live).value.adds ==>
      r.host in order && CanonicalRoute(cfg, i, r.host, canon[r.host]) == Ok(r)
      && Correction(cfg, i, live, r.host, canon[r.host]).Ok? && Correction(cfg, i, live, r.host, canon[r.host]).value != NoEdgeChange
  {
    if order != [] {
      var init, last := order[..|order| - 1], order[|order| - 1];
      assert order == init + [last];
      PassWrites(cfg, canon, init, i, live);
      CorrectionHost(cfg, i, live, last, canon[last]);
    }
  }

  lemma WrittenAuthReadsBack(cfg: Config, canon: Canon, order: seq<Host>, i: nat, live: LiveEdge, r: Route)
    requires i < |cfg.edges| && Lists(order, canon) && EdgePass(cfg, canon, order, i, live).Ok?
    requires r in EdgePass(cfg, canon, order, i, live).value.adds
    ensures Find(Applied(live, EdgePass(cfg, canon, order, i, live).value).routes, r.host) == Some(Marked(r))
  {
    PassWrites(cfg, canon, order, i, live);
    AppliedAt(cfg, canon, order, i, live, r.host);
  }

  lemma CorrectedEdgeAcceptedIff(cfg: Config, canon: Canon, order: seq<Host>, i: nat, live: LiveEdge)
    requires i < |cfg.edges| && Lists(order, canon) && EdgePass(cfg, canon, order, i, live).Ok?
    ensures var pass := EdgePass(cfg, canon, order, i, live).value;
      EdgeAccepted(cfg, canon, i, Applied(live, pass), pass) <==>
        (live.deny || !EmptyEdge(pass)) && PassSettles(cfg, canon, i, live, pass)
  {
    hide PassSettles, HostConverged, RidesOn;
    var pass := EdgePass(cfg, canon, order, i, live).value;
    var live' := Applied(live, pass);
    forall r | r in pass.adds ensures HasHost(live', r.host) && Find(live'.routes, r.host).value.upstream.auth == r.upstream.auth {
      WrittenAuthReadsBack(cfg, canon, order, i, live, r);
    }
    if live'.deny {
      PlannerAndReadBackAgree(cfg, canon, order, i, live');
      EdgeConvergesIff(cfg, canon, order, order, i, live);
    }
  }

  lemma CorrectedDnsAccepted(cfg: Config, canon: Canon, order: seq<Host>, dp: DnsProvider, zone: Zone)
    requires Lists(order, canon) && DnsPass(cfg, canon, order, dp, zone).Ok?
    ensures var c := DnsPass(cfg, canon, order, dp, zone).value; DnsAccepted(ApplyDns(zone, c), c)
  {
    var c := DnsPass(cfg, canon, order, dp, zone).value;
    forall r | r in c.adds ensures Answered(ApplyDns(zone, c), KeyOf(r)) {
      AddedRecordIsListed(c.adds, KeyOf(r));
      LastApplied(zone, c, KeyOf(r));
      LastAtListed(ApplyDns(zone, c), KeyOf(r));
    }
    DnsAddsListed(cfg, dp, zone, order);
    StaleListed(cfg, canon, zone);
    forall r | r in c.removes ensures !Answered(ApplyDns(zone, c), KeyOf(r)) {
      forall e | e in zone && Hits(e, KeyOf(r)) ensures Removes(c, e) {
        assert IsStale(cfg, canon, e);
        RemovedIsRemoved(c, e);
      }
      forall e | e in ApplyDns(zone, c) ensures !Hits(e, KeyOf(r)) {
        AppliedFrom(zone, c, e);
      }
    }
  }

  lemma CorrectedAcceptedIff(cfg: Config, w: World, order: seq<Host>, p: Passes)
    requires Fits(cfg, w) && Lists(order, CanonOf(cfg, w)) && PlanReconcile(cfg, w, order) == Ok(p) && PassesFit(cfg, w, p)
    ensures WorldAccepted(cfg, CanonOf(cfg, w), p, Corrected(cfg, w, p)) <==>
      EdgesSettle(cfg, w, p) && forall i :: 0 <= i < |cfg.edges| ==> w.edges[i].deny || !EmptyEdge(p.edges[i])
  {
    hide EdgeAccepted, DnsAccepted, PassSettles, CanonOf, PlanReconcile;
    var canon, w' := CanonOf(cfg, w), Corrected(cfg, w, p);
    PlanAt(cfg, w, order);
    forall i | 0 <= i < |cfg.edges|
      ensures EdgeAccepted(cfg, canon, i, w'.edges[i], p.edges[i]) <==>
        (w.edges[i].deny || !EmptyEdge(p.edges[i])) && PassSettles(cfg, canon, i, w.edges[i], p.edges[i])
    {
      CorrectedEdgeAcceptedIff(cfg, canon, order, i, w.edges[i]);
    }
    forall i | 0 <= i < |cfg.dns| ensures DnsAccepted(w'.dns[i], p.dns[i]) {
      CorrectedDnsAccepted(cfg, canon, order, cfg.dns[i], w.dns[i]);
    }
  }

  /** The world an honest reconcile ends in when all its steps are applied reads back exactly when
      every edge it left alone already had the deny, every forward it wrote was canonically http,
      and every host that rode a wildcard forward still does. */
  lemma HonestReconcileVerifiesIff(cfg: Config, w: World, depth: map<string, nat>, order: seq<Host>, p: Passes, steps: seq<Step>, env: Env)
    requires CompleteRun(cfg, w, depth, p, steps, env)
    requires Lists(order, CanonOf(cfg, w)) && PlanReconcile(cfg, w, order) == Ok(p)
    ensures StepsFit(w, steps) && PassesFit(cfg, Forward(w, steps, env, |steps|), p)
    ensures WorldAccepted(cfg, CanonOf(cfg, w), p, Forward(w, steps, env, |steps|)) <==>
      EdgesSettle(cfg, w, p) && forall i :: 0 <= i < |cfg.edges| ==> w.edges[i].deny || !EmptyEdge(p.edges[i])
  {
    hide WorldAccepted, EdgesSettle, Forward, CanonOf, PlanReconcile;
    RunCorrects(cfg, w, depth, p, steps, env);
    CorrectedAcceptedIff(cfg, w, order, p);
  }

  /** Whatever the providers did, an edge the read-back accepts needs no further correction. */
  lemma AcceptedEdgesAreConverged(cfg: Config, canon: Canon, order: seq<Host>, p: Passes, w: World, i: nat)
    requires PassesFit(cfg, w, p) && Lists(order, canon) && i < |cfg.edges| && WorldAccepted(cfg, canon, p, w)
    ensures EdgePass(cfg, canon, order, i, w.edges[i]) == Ok(NoEdgeChange)
  {
    assert EdgeAccepted(cfg, canon, i, w.edges[i], p.edges[i]);
    PlannerAndReadBackAgree(cfg, canon, order, i, w.edges[i]);
  }

  /** No edge correction is beyond undoing: what a pass adds was missing or is replaced. */
  lemma EdgePassRestorable(cfg: Config, canon: Canon, order: seq<Host>, i: nat, live: LiveEdge)
    requires i < |cfg.edges| && Lists(order, canon) && EdgePass(cfg, canon, order, i, live).Ok?
    ensures Restorable(EdgeSlot(live), OnEdge(EdgePass(cfg, canon, order, i, live).value))
  {
    var pass := EdgePass(cfg, canon, order, i, live).value;
    PassWrites(cfg, canon, order, i, live);
    forall r | r in pass.adds ensures r.host in pass.removes || !HasHost(live, r.host) {
      EdgePassAt(cfg, canon, order, i, live, r.host);
      CorrectionHost(cfg, i, live, r.host, canon[r.host]);
    }
  }

  lemma DnsPassIsSound(cfg: Config, canon: Canon, order: seq<Host>, dp: DnsProvider, zone: Zone)
    requires Lists(order, canon) && DnsPass(cfg, canon, order, dp, zone).Ok?
    ensures SoundPass(dp, zone, DnsPass(cfg, canon, order, dp, zone).value)
  {
    var c := DnsPass(cfg, canon, order, dp, zone).value;
    DnsAddsListed(cfg, dp, zone, order);
    StaleListed(cfg, canon, zone);
    forall e, r | e in zone && e.ours && r in c.removes && r.name == e.rec.name ensures e.rec in c.removes {
      assert IsStale(cfg, canon, e);
    }
    forall r | r in c.adds && dp.kind == AdGuard ensures IsRewrite(dp, Entry(r, true)) && !Answered(zone, KeyOf(r)) {
      LastAtListed(zone, KeyOf(r));
    }
  }

  /** A reconcile can be undone as a whole exactly when, at every Cloudflare zone, it redirects
      no own record in place and takes no two different stale records at one key. */
  lemma ReconcileUndoableIff(cfg: Config, w: World, depth: map<string, nat>, order: seq<Host>, p: Passes)
    requires ZonesTyped(cfg, w) && Lists(order, CanonOf(cfg, w)) && PlanReconcile(cfg, w, order) == Ok(p) && PassesFit(cfg, w, p)
    ensures Proper(cfg, w, ChangesOf(p))
    ensures Undoable(w, BuildSteps(cfg, w, depth, ChangesOf(p))) <==>
      forall i :: 0 <= i < |cfg.dns| ==> PassUndoable(cfg.dns[i], w.dns[i], p.dns[i])
  {
    PlanAt(cfg, w, order);
    forall i | 0 <= i < |cfg.edges| ensures Restorable(EdgeSlot(w.edges[i]), OnEdge(p.edges[i])) {
      EdgePassRestorable(cfg, CanonOf(cfg, w), order, i, w.edges[i]);
    }
    forall i | 0 <= i < |cfg.dns| ensures SoundPass(cfg.dns[i], w.dns[i], p.dns[i]) {
      DnsPassIsSound(cfg, CanonOf(cfg, w), order, cfg.dns[i], w.dns[i]);
    }
    PassesUndoableIff(cfg, w, depth, p);
  }

  // ----- the whole flow -----

  lemma PlanFitsWorld(cfg: Config, w: World, order: seq<Host>)
    requires Fits(cfg, w) && (forall h :: h in order ==> h in CanonOf(cfg, w)) && PlanReconcile(cfg, w, order).Ok?
    ensures PassesFit(cfg, w, PlanReconcile(cfg, w, order).value)
    ensures Proper(cfg, w, ChangesOf(PlanReconcile(cfg, w, order).value))
  {
    EdgePassesAt(cfg, CanonOf(cfg, w), order, w, |cfg.edges|);
    DnsPassesAt(cfg, CanonOf(cfg, w), order, w, |cfg.dns|);
    PlanIsProper(cfg, w, PlanReconcile(cfg, w, order).value);
  }

  predicate AllReread(cfg: Config, a: Answers) {
    (forall i :: 0 <= i < |cfg.edges| ==> !a.rereadFails(EdgeAt(i))) && forall i :: 0 <= i < |cfg.dns| ==> !a.rereadFails(DnsAt(i))
  }

  function PlannedReconcileOutcome(cfg: Config, w: World, depth: map<string, nat>, canon: Canon, p: Passes, flags: Flags, a: Answers)
    : (Report, World)
    requires PassesFit(cfg, w, p)
  {
    var cs := ChangesOf(p);
    PlanIsProper(cfg, w, p);
    match Refusal(cfg, w, cs, flags, a)
    case Some(rep) => (rep, w)
    case None =>
      if SnapshotsFail(cs.edges, a) then (Untouched(false, Some(SnapshotFailed)), w)
      else
        BuiltFit(cfg, w, depth, cs);
        var steps := BuildSteps(cfg, w, depth, cs);
        var ok := AllReread(cfg, a) && WorldAccepted(cfg, canon, p, Stopped(w, steps, a.env));
        Executed(w, steps, a.env, flags, ok, [])
  }

  function ReconcileOutcome(cfg: Config, w: World, depth: map<string, nat>, order: seq<Host>, flags: Flags, a: Answers)
    : Result<(Report, World)>
    requires Fits(cfg, w) && forall h :: h in order ==> h in CanonOf(cfg, w)
  {
    match PlanReconcile(cfg, w, order)
    case Err => Err
    case Ok(p) =>
      PlanFitsWorld(cfg, w, order);
      Ok(PlannedReconcileOutcome(cfg, w, depth, CanonOf(cfg, w), p, flags, a))
  }

  lemma RefusalLeavesAlone(cfg: Config, w: World, cs: ChangeSet, flags: Flags, a: Answers)
    requires PlansFit(cfg, w, cs.edges) && Refusal(cfg, w, cs, flags, a).Some?
    ensures var rep := Refusal(cfg, w, cs, flags, a).value; !rep.applied && !rep.rolledBack
  {
  }

  /** A reconcile leaves the world alone, or the gate admits it and it executes its steps; and if
      it reports success, whatever the providers did, no edge of the world it re-read needs any
      correction. */
  lemma ReconcileIsHonest(cfg: Config, w: World, depth: map<string, nat>, canon: Canon, order: seq<Host>, flags: Flags, a: Answers,
                          p: Passes, o: (Report, World))
    requires Fits(cfg, w) && canon == CanonOf(cfg, w) && Lists(order, canon) && PassesFit(cfg, w, p)
    requires o == PlannedReconcileOutcome(cfg, w, depth, canon, p, flags, a)
    ensures Proper(cfg, w, ChangesOf(p)) && StepsFit(w, BuildSteps(cfg, w, depth, ChangesOf(p)))
    ensures var cs := ChangesOf(p);
      || (o.1 == w && !o.0.applied && !o.0.rolledBack)
      || (GateOwnership(cfg, w, cs.op, cs.edges, flags.force) && Ended(w, BuildSteps(cfg, w, depth, cs), flags, a.env, o))
    ensures o.0.applied && o.0.failure.None? ==> AllConverged(cfg, canon, order, p, o.1)
  {
    var cs := ChangesOf(p);
    PlanIsProper(cfg, w, p);
    BuiltFit(cfg, w, depth, cs);
    if Refusal(cfg, w, cs, flags, a).Some? {
      RefusalLeavesAlone(cfg, w, cs, flags, a);
    } else if !SnapshotsFail(cs.edges, a) {
      ReconcileExecuted(cfg, w, canon, order, flags, a, p, BuildSteps(cfg, w, depth, cs), o);
    }
  }

  /** The read-back accepted the world, and no edge needs any correction. */
  ghost predicate AllConverged(cfg: Config, canon: Canon, order: seq<Host>, p: Passes, w: World)
    requires forall h :: h in order ==> h in canon
  {
    PassesFit(cfg, w, p) && WorldAccepted(cfg, canon, p, w) &&
    forall i :: 0 <= i < |cfg.edges| ==> EdgePass(cfg, canon, order, i, w.edges[i]) == Ok(NoEdgeChange)
  }

  lemma ReconcileExecuted(cfg: Config, w: World, canon: Canon, order: seq<Host>, flags: Flags, a: Answers, p: Passes,
                          steps: seq<Step>, o: (Report, World))
    requires Fits(cfg, w) && Lists(order, canon) && PassesFit(cfg, w, p) && StepsFit(w, steps)
    requires PassesFit(cfg, Stopped(w, steps, a.env), p)
    requires o == Executed(w, steps, a.env, flags, AllReread(cfg, a) && WorldAccepted(cfg, canon, p, Stopped(w, steps, a.env)), [])
    ensures Ended(w, steps, flags, a.env, o)
    ensures o.0.applied && o.0.failure.None? ==> AllConverged(cfg, canon, order, p, o.1)
  {
    var ok := AllReread(cfg, a) && WorldAccepted(cfg, canon, p, Stopped(w, steps, a.env));
    ExecutedEnds(w, steps, a.env, flags, ok, []);
    if o.0.applied && o.0.failure.None? {
      assert o.1 == Stopped(w, steps, a.env) && ok;
      forall i | 0 <= i < |cfg.edges| ensures EdgePass(cfg, canon, order, i, o.1.edges[i]) == Ok(NoEdgeChange) {
        AcceptedEdgesAreConverged(cfg, canon, order, p, o.1, i);
      }
    }
  }
}
