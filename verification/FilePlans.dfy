/** What a declarative file plans and what its read-back asks, in terms of the file and the live
    state alone (internal/core/declarative.go): exactly which routes and records it adds, adopts,
    prunes and is blocked by. */
module FilePlans {
  import opened Model
  import opened Zones
  import T = Topology
  import opened Planner
  import opened Steps
  import opened Verify
  import opened Terms
  import opened Plans
  import opened Changes
  import opened Canonical
  import opened Declarative
  import opened Idempotent
  import opened DeclarativeRun
  import opened Corrections

  // ----- one entry on one edge -----

  /** The entry appoints the edge, which serves its service. */
  predicate AimsAt(cfg: Config, ex: Exposure, i: nat)
    requires i < |cfg.edges|
  {
    (ex.edges == [] || cfg.edges[i].name in ex.edges) && Offers(cfg.edges[i], ex.service)
  }

  /** A fresh route of the entry on the edge: its host, mode and policy, the edge's backend for
      its service. */
  ghost predicate AsWritten(cfg: Config, ex: Exposure, i: nat, r: Route)
    requires i < |cfg.edges|
  {
    r == Route(ex.host, r.upstream, false, OwnUnset) && IsServing(cfg, i, ex.service, ex.mode, ex.auth, r)
  }

  /** A present route that crenel does not manage yet. */
  ghost predicate Meets(live: LiveEdge, host: Host, r: Route) {
    FirstRoute(live.routes, host, r) && !r.managed
  }

  /** It is owned by no one and dials the backend the edge would. */
  predicate Adoptable(cfg: Config, ex: Exposure, i: nat, r: Route)
    requires i < |cfg.edges|
  {
    && r.ownership != OwnForeign && r.ownership != OwnUnknown
    && cfg.supports(cfg.edges[i].name, HttpProxy, "") && cfg.origin(cfg.edges[i].name, ex.service) == Some(r.upstream.address)
  }

  ghost predicate IsAdopted(cfg: Config, ex: Exposure, opts: Options, i: nat, live: LiveEdge)
    requires i < |cfg.edges|
  {
    AimsAt(cfg, ex, i) && opts.adopt && exists r :: Meets(live, ex.host, r) && Adoptable(cfg, ex, i, r)
  }

  ghost predicate IsBlocking(cfg: Config, ex: Exposure, opts: Options, i: nat, live: LiveEdge)
    requires i < |cfg.edges|
  {
    AimsAt(cfg, ex, i) && exists r :: Meets(live, ex.host, r) && !(Adoptable(cfg, ex, i, r) && opts.adopt)
  }

  lemma PlaceIff(cfg: Config, ex: Exposure, opts: Options, i: nat, live: LiveEdge)
    requires i < |cfg.edges| && ex.host != ""
    ensures var p := Place(cfg, ex, opts, i, live);
      && (p.Adopts? <==> IsAdopted(cfg, ex, opts, i, live))
      && (p.Blocks? <==> IsBlocking(cfg, ex, opts, i, live))
      && (p.Adds? || p.Fails? <==> AimsAt(cfg, ex, i) && !HasRoute(live, ex.host))
      && (p.Fails? ==> forall r :: !AsWritten(cfg, ex, i, r))
      && (p.Adds? ==> |p.routes| == 1 && forall r :: AsWritten(cfg, ex, i, r) <==> r == p.routes[0])
  {
    HasRouteIff(live, ex.host);
    forall r ensures FirstRoute(live.routes, ex.host, r) <==> Find(live.routes, ex.host) == Some(r) {
      FirstRouteIff(live.routes, ex.host, r);
    }
    if HasHost(live, ex.host) && !Find(live.routes, ex.host).value.managed {
      assert Meets(live, ex.host, Find(live.routes, ex.host).value);
    }
  }

  // ----- one edge -----

  lemma {:induction false} PlacedExact(cfg: Config, exps: seq<Exposure>, opts: Options, i: nat, live: LiveEdge)
    requires i < |cfg.edges|
    ensures Placed(cfg, exps, opts, i, live).Ok? <==> forall ex :: ex in exps ==> !Place(cfg, ex, opts, i, live).Fails?
    ensures Placed(cfg, exps, opts, i, live).Ok? ==>
      var d := Placed(cfg, exps, opts, i, live).value;
      && (forall r :: r in d.change.adds <==> exists ex :: ex in exps && Place(cfg, ex, opts, i, live).Adds? && r in Place(cfg, ex, opts, i, live).routes)
      && (forall h :: h in d.adopts <==> exists ex :: ex in exps && ex.host == h && Place(cfg, ex, opts, i, live).Adopts?)
      && (forall h :: h in d.blocked <==> exists ex :: ex in exps && ex.host == h && Place(cfg, ex, opts, i, live).Blocks?)
  {
    hide Place;
    if exps != [] {
      var init, last := exps[..|exps| - 1], exps[|exps| - 1];
      PlacedExact(cfg, init, opts, i, live);
      assert forall ex :: ex in exps <==> ex in init || ex == last by {
        assert exps == init + [last];
      }
    }
  }

  predicate Names(exps: seq<Exposure>, host: Host) {
    exists ex :: ex in exps && ex.host == host
  }

  lemma NamesIff(exps: seq<Exposure>, host: Host)
    ensures InFile(exps, host) <==> Names(exps, host)
  {
    if k :| 0 <= k < |exps| && exps[k].host == host {
      assert exps[k] in exps;
    }
  }

  lemma ValidHosts(cfg: Config, w: World, exps: seq<Exposure>, opts: Options)
    requires Fits(cfg, w) && PlanFile(cfg, w, exps, opts).Ok?
    ensures forall ex :: ex in exps ==> ex.host != ""
  {
  }

  /** What one edge is drafted for the file's entries. */
  lemma DraftedExact(cfg: Config, exps: seq<Exposure>, opts: Options, i: nat, live: LiveEdge)
    requires i < |cfg.edges| && Placed(cfg, exps, opts, i, live).Ok? && forall ex :: ex in exps ==> ex.host != ""
    ensures var d := Placed(cfg, exps, opts, i, live).value;
      && (forall r :: r in d.change.adds <==> exists ex :: ex in exps && AimsAt(cfg, ex, i) && !HasRoute(live, ex.host) && AsWritten(cfg, ex, i, r))
      && (forall h :: h in d.adopts <==> exists ex :: ex in exps && ex.host == h && IsAdopted(cfg, ex, opts, i, live))
      && (forall h :: h in d.blocked <==> exists ex :: ex in exps && ex.host == h && IsBlocking(cfg, ex, opts, i, live))
  {
    hide Place, Placed, AimsAt, AsWritten, IsAdopted, IsBlocking, HasRoute;
    PlacedExact(cfg, exps, opts, i, live);
    forall ex | ex in exps
      ensures var q := Place(cfg, ex, opts, i, live);
        && (q.Adopts? <==> IsAdopted(cfg, ex, opts, i, live)) && (q.Blocks? <==> IsBlocking(cfg, ex, opts, i, live))
        && (q.Adds? <==> AimsAt(cfg, ex, i) && !HasRoute(live, ex.host))
        && (q.Adds? ==> forall r :: AsWritten(cfg, ex, i, r) <==> r in q.routes)
    {
      PlaceIff(cfg, ex, opts, i, live);
      assert Place(cfg, ex, opts, i, live).Adds? ==> Place(cfg, ex, opts, i, live).routes == [Place(cfg, ex, opts, i, live).routes[0]];
    }
  }

  lemma AimedIsWritten(cfg: Config, exps: seq<Exposure>, opts: Options, i: nat, live: LiveEdge, ex: Exposure)
    requires i < |cfg.edges| && Placed(cfg, exps, opts, i, live).Ok? && ex in exps && ex.host != ""
    requires AimsAt(cfg, ex, i) && !HasRoute(live, ex.host)
    ensures exists r :: r in Placed(cfg, exps, opts, i, live).value.change.adds && AsWritten(cfg, ex, i, r)
  {
    hide Place, Placed, AimsAt, AsWritten, IsAdopted, IsBlocking, HasRoute;
    PlacedExact(cfg, exps, opts, i, live);
    PlaceIff(cfg, ex, opts, i, live);
    var r := Place(cfg, ex, opts, i, live).routes[0];
    assert r in Place(cfg, ex, opts, i, live).routes && AsWritten(cfg, ex, i, r);
  }

  /** On every edge a file adds exactly the fresh routes of the entries aimed there whose host the
      edge lacks; adopts and is blocked by exactly the hosts of entries that meet an unmanaged
      route, one it may adopt or not; and removes, pruning, exactly the hosts of managed routes
      it does not name. */
  lemma FileRoutes(cfg: Config, w: World, exps: seq<Exposure>, opts: Options, p: FilePlan, i: nat)
    requires Fits(cfg, w) && PlanFile(cfg, w, exps, opts) == Ok(p) && i < |cfg.edges|
    ensures |p.drafts| == |cfg.edges|
    ensures forall r :: r in p.drafts[i].change.adds <==>
      exists ex :: ex in exps && AimsAt(cfg, ex, i) && !HasRoute(w.edges[i], ex.host) && AsWritten(cfg, ex, i, r)
    ensures forall ex :: ex in exps && AimsAt(cfg, ex, i) && !HasRoute(w.edges[i], ex.host) ==>
      exists r :: r in p.drafts[i].change.adds && AsWritten(cfg, ex, i, r)
    ensures forall h :: h in p.drafts[i].adopts <==> exists ex :: ex in exps && ex.host == h && IsAdopted(cfg, ex, opts, i, w.edges[i])
    ensures forall h :: h in p.drafts[i].blocked <==> exists ex :: ex in exps && ex.host == h && IsBlocking(cfg, ex, opts, i, w.edges[i])
    ensures forall h :: h in p.drafts[i].change.removes <==>
      opts.prune && !Names(exps, h) && exists r :: r in w.edges[i].routes && r.managed && r.host == h
  {
    hide Placed, PlanFile, AimsAt, AsWritten, IsAdopted, IsBlocking, HasRoute, PrunedHosts, InFile, Names;
    var live := w.edges[i];
    FilePlanAt(cfg, w, exps, opts);
    ValidHosts(cfg, w, exps, opts);
    DraftedExact(cfg, exps, opts, i, live);
    forall ex | ex in exps && AimsAt(cfg, ex, i) && !HasRoute(live, ex.host)
      ensures exists r :: r in p.drafts[i].change.adds && AsWritten(cfg, ex, i, r)
    {
      AimedIsWritten(cfg, exps, opts, i, live, ex);
    }
    PrunedListed(exps, live.routes);
    forall h ensures InFile(exps, h) <==> Names(exps, h) {
      NamesIff(exps, h);
    }
  }

  // ----- one provider -----

  /** The entry appoints the provider, whose zone has the host. */
  ghost predicate Announced(ex: Exposure, dp: DnsProvider) {
    (ex.scopes == [] || dp.scope in ex.scopes) && NamedIn(ex.host, dp.zone)
  }

  lemma {:induction false} FileAddsExact(exps: seq<Exposure>, dp: DnsProvider, zone: Zone)
    requires forall ex :: ex in exps ==> ex.host != ""
    ensures FileAdds(exps, dp, zone).Ok?
    ensures forall r :: r in FileAdds(exps, dp, zone).value <==>
      exists ex :: ex in exps && WantsRecord(ex, dp) && r == Desired(dp, ex.host) && !Answered(zone, KeyOf(r))
  {
    hide WantsRecord, Desired, Answered, KeyOf;
    if exps != [] {
      var init, last := exps[..|exps| - 1], exps[|exps| - 1];
      assert forall ex :: ex in exps <==> ex in init || ex == last by {
        assert exps == init + [last];
      }
      FileAddsExact(init, dp, zone);
    }
  }

  /** At every provider a file adds exactly the wanted record of each host some entry announces
      there, where none is reported; and removes, pruning, exactly the reported records in
      crenel's domain whose host it does not name. */
  lemma FileRecords(cfg: Config, w: World, exps: seq<Exposure>, opts: Options, p: FilePlan, i: nat)
    requires Fits(cfg, w) && PlanFile(cfg, w, exps, opts) == Ok(p) && i < |cfg.dns|
    ensures |p.dns| == |cfg.dns|
    ensures forall r :: r in p.dns[i].adds <==>
      && r == Wanted(cfg.dns[i], r.name) && (exists ex :: ex in exps && ex.host == r.name && Announced(ex, cfg.dns[i]))
      && !exists q :: Reports(w.dns[i], r, q)
    ensures forall r :: r in p.dns[i].removes <==> opts.prune && Entry(r, true) in w.dns[i] && InDomain(cfg, r.name) && !Names(exps, r.name)
    ensures p.dns[i].adds + p.dns[i].removes != [] ==> (p.dns[i].RewriteChange? <==> cfg.dns[i].kind == AdGuard)
  {
    hide PlanFile, InDomain, Managed, Answered, Reports, PrunedRecords, NamedIn, ZoneCovers;
    var dp, zone := cfg.dns[i], w.dns[i];
    FilePlanAt(cfg, w, exps, opts);
    ValidHosts(cfg, w, exps, opts);
    FileAddsExact(exps, dp, zone);
    PrunedRecordsListed(cfg, exps, zone);
    forall ex ensures WantsRecord(ex, dp) <==> Announced(ex, dp) {
      CoversIff(dp, ex.host);
    }
    forall r ensures Answered(zone, KeyOf(r)) <==> exists q :: Reports(zone, r, q) {
      ReportsIff(zone, r);
    }
    forall h ensures (InFile(exps, h) <==> Names(exps, h)) && (Managed(cfg, h) <==> InDomain(cfg, h)) {
      NamesIff(exps, h);
      DomainIff(cfg, h);
    }
  }

  // ----- when there is a plan -----

  /** A file is planned exactly when every entry has a host and a policy its mode can carry, and
      every edge it is aimed at that lacks the host can serve it. */
  lemma FilePlannedIff(cfg: Config, w: World, exps: seq<Exposure>, opts: Options)
    requires Fits(cfg, w)
    ensures PlanFile(cfg, w, exps, opts).Ok? <==>
      && (forall ex :: ex in exps ==> ex.host != "" && (ex.auth in {"", "none"} || ex.mode == HttpProxy))
      && (forall i, ex :: 0 <= i < |cfg.edges| && ex in exps && AimsAt(cfg, ex, i) && !HasRoute(w.edges[i], ex.host) ==>
            cfg.supports(cfg.edges[i].name, ex.mode, ex.auth) && cfg.origin(cfg.edges[i].name, ex.service).Some?)
  {
    hide Place, AimsAt, HasRoute, FileAdds;
    assert FileValid(exps) <==> forall ex :: ex in exps ==> ex.host != "" && (ex.auth in {"", "none"} || ex.mode == HttpProxy) by {
      assert forall k :: 0 <= k < |exps| ==> exps[k] in exps;
    }
    if FileValid(exps) {
      assert forall ex :: ex in exps ==> ex.host != "";
      DraftsAt(cfg, w, exps, opts, |cfg.edges|);
      DnsDraftsAt(cfg, w, exps, opts, |cfg.dns|);
      forall i | 0 <= i < |cfg.dns| ensures DraftDns(cfg, exps, opts, cfg.dns[i], w.dns[i]).Ok? {
        FileAddsExact(exps, cfg.dns[i], w.dns[i]);
      }
      forall i | 0 <= i < |cfg.edges|
        ensures DraftEdge(cfg, exps, opts, i, w.edges[i]).Ok? <==> forall ex :: ex in exps ==> !Place(cfg, ex, opts, i, w.edges[i]).Fails?
      {
        PlacedExact(cfg, exps, opts, i, w.edges[i]);
      }
      forall i, ex | 0 <= i < |cfg.edges| && ex in exps
        ensures Place(cfg, ex, opts, i, w.edges[i]).Fails? <==>
          && AimsAt(cfg, ex, i) && !HasRoute(w.edges[i], ex.host)
          && !(cfg.supports(cfg.edges[i].name, ex.mode, ex.auth) && cfg.origin(cfg.edges[i].name, ex.service).Some?)
      {
        FailsIff(cfg, ex, opts, i, w.edges[i]);
      }
      if forall i :: 0 <= i < |cfg.edges| ==> DraftEdge(cfg, exps, opts, i, w.edges[i]).Ok? {
        forall i, ex | 0 <= i < |cfg.edges| && ex in exps ensures !Place(cfg, ex, opts, i, w.edges[i]).Fails? {
          assert DraftEdge(cfg, exps, opts, i, w.edges[i]).Ok?;
        }
      }
    }
  }

  lemma FailsIff(cfg: Config, ex: Exposure, opts: Options, i: nat, live: LiveEdge)
    requires i < |cfg.edges| && ex.host != ""
    ensures Place(cfg, ex, opts, i, live).Fails? <==>
      && AimsAt(cfg, ex, i) && !HasRoute(live, ex.host)
      && !(cfg.supports(cfg.edges[i].name, ex.mode, ex.auth) && cfg.origin(cfg.edges[i].name, ex.service).Some?)
  {
    HasRouteIff(live, ex.host);
  }

  // ----- the read-back -----

  /** Pruned from some edge. */
  ghost predicate PrunedSomewhere(p: FilePlan, host: Host) {
    exists d :: d in p.drafts && host in d.change.removes
  }

  /** The deny; every added or adopted host, unless pruned; nothing pruned anywhere; and every
      added route under its policy and over TLS where planned. */
  ghost predicate EdgeAsFiled(p: FilePlan, d: Draft, live: LiveEdge) {
    && live.deny
    && (forall r :: r in d.change.adds ==> PrunedSomewhere(p, r.host) || HasRoute(live, r.host))
    && (forall h :: h in d.adopts ==> PrunedSomewhere(p, h) || HasRoute(live, h))
    && (forall h :: PrunedSomewhere(p, h) ==> !HasRoute(live, h))
    && WrittenShow(d.change.adds, live)
  }

  /** The last record reported at every added one answers the same, and none is at a removed one. */
  ghost predicate ZoneAsFiled(c: DnsChange, zone: Zone) {
    && (forall r :: r in c.adds ==> exists q :: LastAt(zone, Key(r.scope, r.rtype, r.name)) == Some(q) && q.value == r.value)
    && (forall r :: r in c.removes ==> !exists q :: Reports(zone, r, q))
  }

  lemma EdgeAsFiledIff(p: FilePlan, d: Draft, live: LiveEdge)
    ensures FileEdgeAccepted(p, d, live) <==> EdgeAsFiled(p, d, live)
  {
    hide AuthVerified, TlsVerified, WrittenShow;
    WrittenIff(d.change.adds, live);
    forall h ensures (HasHost(live, h) <==> HasRoute(live, h)) && (IsPruned(p, h) <==> PrunedSomewhere(p, h)) {
      HasRouteIff(live, h);
      if i :| 0 <= i < |p.drafts| && h in p.drafts[i].change.removes {
        assert p.drafts[i] in p.drafts;
      }
    }
    assert NonePruned(p, live) <==> forall h :: IsPruned(p, h) ==> !HasHost(live, h);
  }

  /** The read-back of a file accepts a world exactly when every edge and every zone is as filed. */
  lemma FileAcceptedIff(cfg: Config, p: FilePlan, w: World)
    requires PlanShaped(cfg, w, p)
    ensures FileAccepted(cfg, p, w) <==>
      && (forall i :: 0 <= i < |cfg.edges| ==> EdgeAsFiled(p, p.drafts[i], w.edges[i]))
      && (forall i :: 0 <= i < |cfg.dns| ==> ZoneAsFiled(p.dns[i], w.dns[i]))
  {
    hide FileEdgeAccepted, EdgeAsFiled;
    forall i | 0 <= i < |cfg.edges|
      ensures FileEdgeAccepted(p, p.drafts[i], w.edges[i]) <==> EdgeAsFiled(p, p.drafts[i], w.edges[i])
    {
      EdgeAsFiledIff(p, p.drafts[i], w.edges[i]);
    }
    forall i | 0 <= i < |cfg.dns| ensures FileDnsAccepted(w.dns[i], p.dns[i]) <==> ZoneAsFiled(p.dns[i], w.dns[i]) {
      forall r ensures Answered(w.dns[i], KeyOf(r)) <==> exists q :: Reports(w.dns[i], r, q) {
        ReportsIff(w.dns[i], r);
      }
    }
  }
}
