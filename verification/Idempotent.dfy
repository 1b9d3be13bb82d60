/** Declarative apply is idempotent; what it prunes, and what it adopts
    (internal/core/declarative.go). */
module Idempotent {
  import opened Model
  import opened Zones
  import T = Topology
  import opened Planner
  import opened Steps
  import opened Gate
  import opened Canonical
  import opened Changes
  import opened Reconcile
  import opened Declarative

  // ----- what a draft holds -----

  lemma {:induction false} InFileLast(exps: seq<Exposure>, host: Host)
    requires exps != []
    ensures InFile(exps, host) <==> InFile(exps[..|exps| - 1], host) || exps[|exps| - 1].host == host
  {
    var init := exps[..|exps| - 1];
    if k :| 0 <= k < |exps| && exps[k].host == host {
      assert k < |init| ==> init[k].host == host;
    }
    if k :| 0 <= k < |init| && init[k].host == host {
      assert exps[k].host == host;
    }
  }

  lemma PlacedRoutes(cfg: Config, ex: Exposure, opts: Options, i: nat, live: LiveEdge)
    requires i < |cfg.edges| && Place(cfg, ex, opts, i, live).Adds?
    ensures var rs := Place(cfg, ex, opts, i, live).routes;
      |rs| == 1 && rs[0].host == ex.host && !HasHost(live, ex.host) && TargetsEdge(cfg, ex, i)
  {
  }

  /** Adds and adoptions are of hosts in the file; added ones were missing, adopted ones present. */
  lemma {:induction false} PlacedHosts(cfg: Config, exps: seq<Exposure>, opts: Options, i: nat, live: LiveEdge)
    requires i < |cfg.edges| && Placed(cfg, exps, opts, i, live).Ok?
    ensures var d := Placed(cfg, exps, opts, i, live).value;
      && (forall r :: r in d.change.adds ==> InFile(exps, r.host) && !HasHost(live, r.host))
      && (forall h :: h in d.adopts ==> InFile(exps, h) && HasHost(live, h))
  {
    if exps != [] {
      var init, ex := exps[..|exps| - 1], exps[|exps| - 1];
      PlacedHosts(cfg, init, opts, i, live);
      if Place(cfg, ex, opts, i, live).Adds? {
        PlacedRoutes(cfg, ex, opts, i, live);
      }
      forall h ensures InFile(exps, h) <==> InFile(init, h) || ex.host == h {
        InFileLast(exps, h);
      }
    }
  }

  /** In an unblocked draft every entry is satisfied, adopted or added. */
  lemma {:induction false} PlacedEntries(cfg: Config, exps: seq<Exposure>, opts: Options, i: nat, live: LiveEdge, ex: Exposure)
    requires i < |cfg.edges| && Placed(cfg, exps, opts, i, live).Ok? && Placed(cfg, exps, opts, i, live).value.blocked == []
    requires ex in exps
    ensures var d, p := Placed(cfg, exps, opts, i, live).value, Place(cfg, ex, opts, i, live);
      && !p.Fails? && !p.Blocks?
      && (p.Adopts? ==> ex.host in d.adopts)
      && (p.Adds? ==> Added(d.change.adds, ex.host).Some?)
  {
    var init, last := exps[..|exps| - 1], exps[|exps| - 1];
    var d0, q := Placed(cfg, init, opts, i, live).value, Place(cfg, last, opts, i, live);
    assert exps == init + [last];
    if ex in init {
      PlacedEntries(cfg, init, opts, i, live, ex);
    }
    if q.Adds? {
      PlacedRoutes(cfg, last, opts, i, live);
      AddedAppend(d0.change.adds, q.routes, ex.host);
      assert Added(q.routes, last.host) == Some(q.routes[0]);
    }
  }

  lemma {:induction false} PlacedWhenSatisfied(cfg: Config, exps: seq<Exposure>, opts: Options, i: nat, live: LiveEdge)
    requires i < |cfg.edges| && forall ex :: ex in exps ==> Place(cfg, ex, opts, i, live) == Satisfied
    ensures Placed(cfg, exps, opts, i, live) == Ok(EmptyDraft)
  {
    if exps != [] {
      var init, last := exps[..|exps| - 1], exps[|exps| - 1];
      assert exps == init + [last];
      PlacedWhenSatisfied(cfg, init, opts, i, live);
    }
  }

  lemma {:induction false} PrunedListed(exps: seq<Exposure>, routes: seq<Route>)
    ensures forall h :: h in PrunedHosts(exps, routes) <==> exists r :: r in routes && r.managed && r.host == h && !InFile(exps, h)
  {
    if routes != [] {
      var init, last := routes[..|routes| - 1], routes[|routes| - 1];
      PrunedListed(exps, init);
      assert routes == init + [last];
    }
  }

  lemma FindAdopted(routes: seq<Route>, hosts: seq<Host>, host: Host)
    ensures Find(Adopted(routes, hosts), host)
         == match Find(routes, host)
            case None => None
            case Some(r) => Some(if host in hosts then Marked(r) else r)
  {
    if routes != [] {
      assert Adopted(routes, hosts)[1..] == Adopted(routes[1..], hosts);
      FindAdopted(routes[1..], hosts, host);
    }
  }

  // ----- an edge settles -----

  /** What applying an unblocked draft leaves. */
  function Settled(live: LiveEdge, d: Draft): LiveEdge {
    Applied(AdoptedEdge(live, d.adopts), d.change)
  }

  lemma FindSettled(live: LiveEdge, d: Draft, host: Host)
    ensures Find(Settled(live, d).routes, host)
         == if Added(d.change.adds, host).Some? then Some(Marked(Added(d.change.adds, host).value))
            else if host in d.change.removes then None
            else match Find(live.routes, host)
              case None => None
              case Some(r) => Some(if host in d.adopts then Marked(r) else r)
  {
    FindAdopted(live.routes, d.adopts, host);
    FindApplied(AdoptedEdge(live, d.adopts), d.change, host);
  }

  lemma EntrySettles(cfg: Config, exps: seq<Exposure>, opts: Options, i: nat, live: LiveEdge, d: Draft, ex: Exposure)
    requires i < |cfg.edges| && DraftEdge(cfg, exps, opts, i, live) == Ok(d) && d.blocked == [] && ex in exps
    ensures Place(cfg, ex, opts, i, Settled(live, d)) == Satisfied
  {
    PlacedEntries(cfg, exps, opts, i, live, ex);
    FindSettled(live, d, ex.host);
    PrunedListed(exps, live.routes);
    var k :| 0 <= k < |exps| && exps[k] == ex;
    assert InFile(exps, ex.host);
  }

  lemma {:induction false} WithoutKeeps(routes: seq<Route>, hosts: seq<Host>, r: Route)
    ensures r in Without(routes, hosts) <==> r in routes && r.host !in hosts
  {
    if routes != [] {
      WithoutKeeps(routes[1..], hosts, r);
      assert routes == [routes[0]] + routes[1..];
    }
  }

  lemma {:induction false} PutAllKeeps(routes: seq<Route>, adds: seq<Route>, r: Route)
    requires r in PutAll(routes, adds)
    ensures r in routes || exists a :: a in adds && a.host == r.host
  {
    if adds != [] {
      var init, last := adds[..|adds| - 1], adds[|adds| - 1];
      assert adds == init + [last];
      WithoutKeeps(PutAll(routes, init), [last.host], r);
      if r in PutAll(routes, init) {
        PutAllKeeps(routes, init, r);
      } else {
        assert last in adds && last.host == r.host;
      }
    }
  }

  lemma SettledRoute(live: LiveEdge, d: Draft, r: Route)
    requires r in Settled(live, d).routes
    ensures (exists a :: a in d.change.adds && a.host == r.host)
         || (r.host in d.adopts && r.host !in d.change.removes)
         || (r in live.routes && r.host !in d.change.removes)
  {
    var adopted := Adopted(live.routes, d.adopts);
    if !EmptyEdge(d.change) {
      PutAllKeeps(Without(adopted, d.change.removes), d.change.adds, r);
      WithoutKeeps(adopted, d.change.removes, r);
    }
    if r in adopted {
      var k :| 0 <= k < |adopted| && adopted[k] == r;
      assert live.routes[k] in live.routes;
    }
  }

  lemma HasMember<T>(s: seq<T>)
    requires s != []
    ensures exists x :: x in s
  {
    assert s[0] in s;
  }

  lemma NothingLeftToPrune(cfg: Config, exps: seq<Exposure>, opts: Options, i: nat, live: LiveEdge, d: Draft)
    requires i < |cfg.edges| && DraftEdge(cfg, exps, opts, i, live) == Ok(d) && opts.prune
    ensures PrunedHosts(exps, Settled(live, d).routes) == []
  {
    PlacedHosts(cfg, exps, opts, i, live);
    PrunedListed(exps, live.routes);
    forall r | r in Settled(live, d).routes && r.managed ensures InFile(exps, r.host) {
      SettledRoute(live, d, r);
    }
    PrunedListed(exps, Settled(live, d).routes);
    if PrunedHosts(exps, Settled(live, d).routes) != [] {
      HasMember(PrunedHosts(exps, Settled(live, d).routes));
    }
  }

  /** Once its unblocked draft is applied, an edge needs nothing more. */
  lemma EdgeSettles(cfg: Config, exps: seq<Exposure>, opts: Options, i: nat, live: LiveEdge, d: Draft)
    requires i < |cfg.edges| && DraftEdge(cfg, exps, opts, i, live) == Ok(d) && d.blocked == []
    ensures DraftEdge(cfg, exps, opts, i, Settled(live, d)) == Ok(EmptyDraft)
  {
    forall ex | ex in exps ensures Place(cfg, ex, opts, i, Settled(live, d)) == Satisfied {
      EntrySettles(cfg, exps, opts, i, live, d, ex);
    }
    PlacedWhenSatisfied(cfg, exps, opts, i, Settled(live, d));
    if opts.prune {
      NothingLeftToPrune(cfg, exps, opts, i, live, d);
    }
  }

  // ----- a DNS provider settles -----

  lemma {:induction false} FileAddsHosts(exps: seq<Exposure>, dp: DnsProvider, zone: Zone)
    requires FileAdds(exps, dp, zone).Ok?
    ensures forall r :: r in FileAdds(exps, dp, zone).value ==> InFile(exps, r.name)
    ensures forall ex :: ex in exps && WantsRecord(ex, dp) ==> ex.host != ""
    ensures forall ex :: ex in exps && WantsRecord(ex, dp) && !Answered(zone, KeyOf(Desired(dp, ex.host))) ==>
      Desired(dp, ex.host) in FileAdds(exps, dp, zone).value
  {
    if exps != [] {
      var init, last := exps[..|exps| - 1], exps[|exps| - 1];
      FileAddsHosts(init, dp, zone);
      assert exps == init + [last];
      forall h ensures InFile(exps, h) <==> InFile(init, h) || last.host == h {
        InFileLast(exps, h);
      }
    }
  }

  lemma {:induction false} FileAddsNone(exps: seq<Exposure>, dp: DnsProvider, zone: Zone)
    requires forall ex :: ex in exps && WantsRecord(ex, dp) ==>
      ex.host != "" && Answered(zone, KeyOf(Desired(dp, ex.host)))
    ensures FileAdds(exps, dp, zone) == Ok([])
  {
    if exps != [] {
      var init, last := exps[..|exps| - 1], exps[|exps| - 1];
      assert exps == init + [last];
      FileAddsNone(init, dp, zone);
      assert last in exps;
      var none: seq<Record> := [];
      assert none + none == none;
    }
  }

  lemma {:induction false} PrunedRecordsListed(cfg: Config, exps: seq<Exposure>, zone: Zone)
    ensures forall r :: r in PrunedRecords(cfg, exps, zone) <==>
      Entry(r, true) in zone && Managed(cfg, r.name) && !InFile(exps, r.name)
  {
    if zone != [] {
      var init, last := zone[..|zone| - 1], zone[|zone| - 1];
      PrunedRecordsListed(cfg, exps, init);
      assert zone == init + [last];
    }
  }

  /** A removal takes no record of a host the file names. */
  lemma RemovesOnlyPruned(cfg: Config, exps: seq<Exposure>, opts: Options, dp: DnsProvider, zone: Zone, c: DnsChange, e: Entry)
    requires DraftDns(cfg, exps, opts, dp, zone) == Ok(c)
    ensures Removes(c, e) ==> !InFile(exps, e.rec.name)
  {
    PrunedRecordsListed(cfg, exps, zone);
  }

  lemma RecordSettled(cfg: Config, exps: seq<Exposure>, opts: Options, dp: DnsProvider, zone: Zone, c: DnsChange, ex: Exposure)
    requires DraftDns(cfg, exps, opts, dp, zone) == Ok(c) && ex in exps && WantsRecord(ex, dp)
    ensures ex.host != "" && Answered(ApplyDns(zone, c), KeyOf(Desired(dp, ex.host)))
  {
    var key := KeyOf(Desired(dp, ex.host));
    FileAddsHosts(exps, dp, zone);
    AddedRecordIsListed(c.adds, key);
    var k :| 0 <= k < |exps| && exps[k] == ex;
    assert InFile(exps, ex.host);
    forall e | e in zone && Hits(e, key) ensures !Removes(c, e) {
      RemovesOnlyPruned(cfg, exps, opts, dp, zone, c, e);
    }
    LastApplied(zone, c, key);
    LastAtListed(zone, key);
    LastAtListed(ApplyDns(zone, c), key);
  }

  lemma NoRecordsLeftToPrune(cfg: Config, exps: seq<Exposure>, opts: Options, dp: DnsProvider, zone: Zone, c: DnsChange)
    requires DraftDns(cfg, exps, opts, dp, zone) == Ok(c) && opts.prune
    ensures PrunedRecords(cfg, exps, ApplyDns(zone, c)) == []
  {
    var zone' := ApplyDns(zone, c);
    FileAddsHosts(exps, dp, zone);
    PrunedRecordsListed(cfg, exps, zone);
    forall r | Entry(r, true) in zone' && Managed(cfg, r.name) ensures InFile(exps, r.name) {
      AppliedFrom(zone, c, Entry(r, true));
      if r in c.removes { RemovedIsRemoved(c, Entry(r, true)); }
    }
    PrunedRecordsListed(cfg, exps, zone');
    if PrunedRecords(cfg, exps, zone') != [] {
      HasMember(PrunedRecords(cfg, exps, zone'));
    }
  }

  lemma DnsSettles(cfg: Config, exps: seq<Exposure>, opts: Options, dp: DnsProvider, zone: Zone, c: DnsChange)
    requires DraftDns(cfg, exps, opts, dp, zone) == Ok(c)
    ensures DraftDns(cfg, exps, opts, dp, ApplyDns(zone, c)) == Ok(NoDnsChange)
  {
    forall ex | ex in exps && WantsRecord(ex, dp)
      ensures ex.host != "" && Answered(ApplyDns(zone, c), KeyOf(Desired(dp, ex.host)))
    {
      RecordSettled(cfg, exps, opts, dp, zone, c, ex);
    }
    FileAddsNone(exps, dp, ApplyDns(zone, c));
    if opts.prune {
      NoRecordsLeftToPrune(cfg, exps, opts, dp, zone, c);
    }
  }

  // ----- the whole file -----

  lemma AllSettled(cfg: Config, w: World, exps: seq<Exposure>, opts: Options)
    requires Fits(cfg, w) && FileValid(exps)
    requires forall i :: 0 <= i < |cfg.edges| ==> DraftEdge(cfg, exps, opts, i, w.edges[i]) == Ok(EmptyDraft)
    requires forall i :: 0 <= i < |cfg.dns| ==> DraftDns(cfg, exps, opts, cfg.dns[i], w.dns[i]) == Ok(NoDnsChange)
    ensures PlanFile(cfg, w, exps, opts).Ok?
    ensures NothingToDo(PlanFile(cfg, w, exps, opts).value) && !IsBlocked(PlanFile(cfg, w, exps, opts).value)
  {
    DraftsAt(cfg, w, exps, opts, |cfg.edges|);
    DnsDraftsAt(cfg, w, exps, opts, |cfg.dns|);
  }

  /** Declarative apply is idempotent: apply an unblocked plan, plan the same file again, and
      there is nothing to do and nothing blocked. */
  lemma DeclarativeIdempotent(cfg: Config, w: World, exps: seq<Exposure>, opts: Options, p: FilePlan)
    requires Fits(cfg, w) && PlanFile(cfg, w, exps, opts) == Ok(p) && !IsBlocked(p) && PlanShaped(cfg, w, p)
    ensures PlanFile(cfg, AppliedFile(cfg, w, p), exps, opts).Ok?
    ensures var again := PlanFile(cfg, AppliedFile(cfg, w, p), exps, opts).value; NothingToDo(again) && !IsBlocked(again)
  {
    var w' := AppliedFile(cfg, w, p);
    FilePlanAt(cfg, w, exps, opts);
    forall i | 0 <= i < |cfg.edges| ensures DraftEdge(cfg, exps, opts, i, w'.edges[i]) == Ok(EmptyDraft) {
      EdgeSettles(cfg, exps, opts, i, w.edges[i], p.drafts[i]);
    }
    forall i | 0 <= i < |cfg.dns| ensures DraftDns(cfg, exps, opts, cfg.dns[i], w'.dns[i]) == Ok(NoDnsChange) {
      DnsSettles(cfg, exps, opts, cfg.dns[i], w.dns[i], p.dns[i]);
    }
    AllSettled(cfg, w', exps, opts);
  }

  // ----- what is pruned -----

  /** The file does not name the host and some listing of it is managed. */
  ghost predicate Pruned(exps: seq<Exposure>, opts: Options, live: LiveEdge, host: Host) {
    opts.prune && !InFile(exps, host) && exists r :: r in live.routes && r.managed && r.host == host
  }

  /** Pruning takes exactly the hosts with a managed listing that the file does not name, all
      their listings with it; so an unmanaged route goes exactly when it is listed beside a
      managed one of its host, and never from an edge that lists each host once. Every other
      route stays, an adopted one newly marked. */
  lemma PruneBoundary(cfg: Config, exps: seq<Exposure>, opts: Options, i: nat, live: LiveEdge, d: Draft, r: Route)
    requires i < |cfg.edges| && DraftEdge(cfg, exps, opts, i, live) == Ok(d) && r in live.routes
    ensures Pruned(exps, opts, live, r.host) ==> !HasHost(Settled(live, d), r.host)
    ensures !Pruned(exps, opts, live, r.host) ==> (if r.host in d.adopts then Marked(r) else r) in Settled(live, d).routes
    ensures HostsOnce(live) ==>
      Find(Settled(live, d).routes, r.host)
      == if opts.prune && r.managed && !InFile(exps, r.host) then None
         else Some(if r.host in d.adopts then Marked(r) else r)
  {
    PlacedHosts(cfg, exps, opts, i, live);
    PrunedListed(exps, live.routes);
    FindIsListed(live.routes, r.host);
    AddedIsListed(d.change.adds, r.host);
    FindSettled(live, d, r.host);
    if !Pruned(exps, opts, live, r.host) {
      var adopted := Adopted(live.routes, d.adopts);
      var k := Position(live.routes, r);
      assert adopted[k] in adopted;
      WithoutKeeps(adopted, d.change.removes, adopted[k]);
      PutAllLeaves(Without(adopted, d.change.removes), d.change.adds, adopted[k]);
    }
    if HostsOnce(live) {
      forall q | q in live.routes && q.host == r.host ensures q == r {
        FindOnce(live.routes, q);
        FindOnce(live.routes, r);
      }
      FindOnce(live.routes, r);
    }
  }

  lemma Position<T>(s: seq<T>, x: T) returns (k: nat)
    requires x in s
    ensures k < |s| && s[k] == x
  {
    k :| 0 <= k < |s| && s[k] == x;
  }

  lemma {:induction false} PutAllLeaves(routes: seq<Route>, adds: seq<Route>, r: Route)
    requires r in routes && Added(adds, r.host).None?
    ensures r in PutAll(routes, adds)
  {
    if adds != [] {
      var init, last := adds[..|adds| - 1], adds[|adds| - 1];
      PutAllLeaves(routes, init, r);
      WithoutKeeps(PutAll(routes, init), [last.host], r);
    }
  }

  lemma {:induction false} FindOnce(routes: seq<Route>, r: Route)
    requires r in routes && forall i, j :: 0 <= i < j < |routes| ==> routes[i].host != routes[j].host
    ensures Find(routes, r.host) == Some(r)
  {
    if routes[0] != r {
      var k :| 0 <= k < |routes| && routes[k] == r;
      assert routes[0].host != routes[k].host;
      FindOnce(routes[1..], r);
    }
  }

  // ----- what is adopted -----

  /** The first listing of the host is unmanaged, owned by no one else, and answers as the file
      would have the service answer there. */
  predicate Adoptable(cfg: Config, i: nat, live: LiveEdge, service: string, host: Host)
    requires i < |cfg.edges|
  {
    T.Fronts(cfg.edges[i], service) &&
    match Find(live.routes, host)
    case None => false
    case Some(r) => !r.managed && OwnerAdmits(r.ownership, false) && DesiredAddress(cfg, i, service, host) == Some(r.upstream.address)
  }

  /** Behind no adoptable listing of a host stands one of a foreign or unknown owner. */
  ghost predicate NoneBehind(cfg: Config, i: nat, live: LiveEdge)
    requires i < |cfg.edges|
  {
    forall r, service: string :: r in live.routes && Adoptable(cfg, i, live, service, r.host) ==> OwnerAdmits(r.ownership, false)
  }

  /** No listing adoption stamps has a foreign or unknown owner. */
  ghost predicate StampsItsOwn(live: LiveEdge, d: Draft) {
    forall r :: r in live.routes && r.host in d.adopts ==> OwnerAdmits(r.ownership, false)
  }

  lemma {:induction false} AdoptsAdoptable(cfg: Config, exps: seq<Exposure>, opts: Options, i: nat, live: LiveEdge, h: Host) returns (service: string)
    requires i < |cfg.edges| && Placed(cfg, exps, opts, i, live).Ok? && h in Placed(cfg, exps, opts, i, live).value.adopts
    ensures Adoptable(cfg, i, live, service, h)
  {
    var init, last := exps[..|exps| - 1], exps[|exps| - 1];
    if Place(cfg, last, opts, i, live).Adopts? && last.host == h {
      service := last.service;
    } else {
      service := AdoptsAdoptable(cfg, init, opts, i, live, h);
    }
  }

  /** Adopting one entry by itself. */
  lemma AdoptsAlone(cfg: Config, i: nat, live: LiveEdge, service: string, host: Host)
    requires i < |cfg.edges| && Adoptable(cfg, i, live, service, host)
    ensures DraftEdge(cfg, [Exposure(service, host, HttpProxy, "", [], [])], Options(true, false), i, live) == Ok(Draft(NoEdgeChange, [host], []))
  {
    var ex, opts := Exposure(service, host, HttpProxy, "", [], []), Options(true, false);
    var none: seq<Host> := [];
    assert [ex][..0] == [] && none + [host] == [host];
    assert Placed(cfg, [], opts, i, live) == Ok(EmptyDraft);
    assert Placed(cfg, [ex], opts, i, live) == Ok(Draft(NoEdgeChange, [host], []));
  }

  /** Whatever the file and the options, adoption stamps no route of a foreign or unknown owner
      if and only if none stands behind an adoptable listing of its host; so always where each
      host is listed once. */
  lemma AdoptionIsSafeIff(cfg: Config, i: nat, live: LiveEdge)
    requires i < |cfg.edges|
    ensures (forall exps, opts, d :: DraftEdge(cfg, exps, opts, i, live) == Ok(d) ==> StampsItsOwn(live, d)) <==> NoneBehind(cfg, i, live)
    ensures HostsOnce(live) ==> NoneBehind(cfg, i, live)
  {
    if NoneBehind(cfg, i, live) {
      forall exps, opts, d | DraftEdge(cfg, exps, opts, i, live) == Ok(d) ensures StampsItsOwn(live, d) {
        forall r | r in live.routes && r.host in d.adopts ensures OwnerAdmits(r.ownership, false) {
          var service := AdoptsAdoptable(cfg, exps, opts, i, live, r.host);
        }
      }
    } else {
      var r, service: string :| r in live.routes && Adoptable(cfg, i, live, service, r.host) && !OwnerAdmits(r.ownership, false);
      AdoptsAlone(cfg, i, live, service, r.host);
      assert !StampsItsOwn(live, Draft(NoEdgeChange, [r.host], []));
    }
    if HostsOnce(live) {
      forall r, service: string | r in live.routes && Adoptable(cfg, i, live, service, r.host) ensures OwnerAdmits(r.ownership, false) {
        FindOnce(live.routes, r);
      }
    }
  }
}
