/** Applying a declarative plan (internal/core/declarative.go): the flow, its read-back, and
    what both guarantee. */
module DeclarativeRun {
  import opened Model
  import opened Zones
  import opened Planner
  import opened Steps
  import opened Runs
  import opened Orders
  import opened Verify
  import opened Gate
  import opened Flow
  import opened Changes
  import opened Reconcile
  import opened Converge
  import opened Declarative
  import opened Idempotent

  // ----- the read-back -----

  /** Pruned from some edge. */
  predicate IsPruned(p: FilePlan, host: Host) {
    exists i :: 0 <= i < |p.drafts| && host in p.drafts[i].change.removes
  }

  predicate NonePruned(p: FilePlan, live: LiveEdge) {
    forall i, h :: 0 <= i < |p.drafts| && h in p.drafts[i].change.removes ==> !HasHost(live, h)
  }

  /** Added and adopted hosts are reachable, nothing pruned anywhere is left here, and added
      routes carry their policy and upstream TLS. */
  predicate FileEdgeAccepted(p: FilePlan, d: Draft, live: LiveEdge) {
    && live.deny
    && (forall r :: r in d.change.adds ==> IsPruned(p, r.host) || HasHost(live, r.host))
    && (forall h :: h in d.adopts ==> IsPruned(p, h) || HasHost(live, h))
    && NonePruned(p, live) && AuthVerified(live, d.change.adds) && TlsVerified(live, d.change.adds)
  }

  predicate FileDnsAccepted(zone: Zone, c: DnsChange) {
    && (forall r :: r in c.adds ==> LastAt(zone, KeyOf(r)).Some? && LastAt(zone, KeyOf(r)).value.value == r.value)
    && (forall r :: r in c.removes ==> !Answered(zone, KeyOf(r)))
  }

  predicate FileAccepted(cfg: Config, p: FilePlan, w: World)
    requires PlanShaped(cfg, w, p)
  {
    && (forall i :: 0 <= i < |cfg.edges| ==> FileEdgeAccepted(p, p.drafts[i], w.edges[i]))
    && (forall i :: 0 <= i < |cfg.dns| ==> FileDnsAccepted(w.dns[i], p.dns[i]))
  }

  // ----- when an honest apply reads back -----

  ghost predicate DistinctHosts(exps: seq<Exposure>) {
    forall j, k :: 0 <= j < k < |exps| ==> exps[j].host != exps[k].host
  }

  lemma {:induction false} AddedOnce(cfg: Config, exps: seq<Exposure>, opts: Options, i: nat, live: LiveEdge, r: Route)
    requires i < |cfg.edges| && DistinctHosts(exps) && Placed(cfg, exps, opts, i, live).Ok?
    requires r in Placed(cfg, exps, opts, i, live).value.change.adds
    ensures Added(Placed(cfg, exps, opts, i, live).value.change.adds, r.host) == Some(r)
  {
    if exps != [] {
      var init, ex := exps[..|exps| - 1], exps[|exps| - 1];
      var d, q := Placed(cfg, init, opts, i, live).value, Place(cfg, ex, opts, i, live);
      PlacedHosts(cfg, init, opts, i, live);
      if q.Adds? {
        PlacedRoutes(cfg, ex, opts, i, live);
        AddedAppend(d.change.adds, q.routes, r.host);
        assert Added(q.routes, ex.host) == Some(q.routes[0]);
      }
      if r in d.change.adds {
        AddedOnce(cfg, init, opts, i, live, r);
        var k :| 0 <= k < |init| && init[k].host == r.host;
        assert exps[k].host != ex.host;
      }
    }
  }

  /** The file asks for an added host, each time it names it, what it asks the last time. */
  ghost predicate AddsAgree(adds: seq<Route>) {
    forall r :: r in adds && Added(adds, r.host).Some? ==> Outdone(r, Added(adds, r.host).value)
  }

  predicate Outdone(r: Route, last: Route) {
    && (r.upstream.mode != MeshGrant ==> AuthPresence(last.upstream.auth) == AuthPresence(r.upstream.auth))
    && (r.upstream.tls ==> last.upstream.tls)
  }

  /** In particular a file that names each host once does. */
  lemma DistinctAgree(cfg: Config, exps: seq<Exposure>, opts: Options, i: nat, live: LiveEdge, d: Draft)
    requires i < |cfg.edges| && DraftEdge(cfg, exps, opts, i, live) == Ok(d) && DistinctHosts(exps)
    ensures AddsAgree(d.change.adds)
  {
    forall r | r in d.change.adds ensures Added(d.change.adds, r.host) == Some(r) {
      AddedOnce(cfg, exps, opts, i, live, r);
    }
  }

  /** The added routes read back with their policy and upstream TLS exactly when they agree. */
  lemma AddedReadBackIff(live: LiveEdge, d: Draft)
    ensures AuthVerified(Settled(live, d), d.change.adds) && TlsVerified(Settled(live, d), d.change.adds) <==> AddsAgree(d.change.adds)
  {
    var adds, live' := d.change.adds, Settled(live, d);
    forall r | r in adds
      ensures Added(adds, r.host).Some? && Find(live'.routes, r.host) == Some(Marked(Added(adds, r.host).value))
    {
      AddedIsListed(adds, r.host);
      FindSettled(live, d, r.host);
    }
    if AuthVerified(live', adds) && TlsVerified(live', adds) {
      forall r | r in adds ensures Outdone(r, Added(adds, r.host).value) {
        assert HasHost(live', r.host);
      }
    } else if AddsAgree(adds) {
      forall r | r in adds ensures HasHost(live', r.host) && Outdone(r, Added(adds, r.host).value) {
        assert Find(live'.routes, r.host).Some?;
      }
    }
  }

  /** A host pruned somewhere survives on an edge exactly when it is there and not pruned there. */
  lemma PrunedSurvivesIff(cfg: Config, w: World, exps: seq<Exposure>, opts: Options, p: FilePlan, i: nat, h: Host)
    requires Fits(cfg, w) && PlanFile(cfg, w, exps, opts) == Ok(p) && i < |cfg.edges| && PlanShaped(cfg, w, p) && IsPruned(p, h)
    ensures !InFile(exps, h)
    ensures HasHost(Settled(w.edges[i], p.drafts[i]), h) <==> HasHost(w.edges[i], h) && h !in p.drafts[i].change.removes
  {
    FilePlanAt(cfg, w, exps, opts);
    var j :| 0 <= j < |p.drafts| && h in p.drafts[j].change.removes;
    PrunedListed(exps, w.edges[j].routes);
    PlacedHosts(cfg, exps, opts, i, w.edges[i]);
    AddedIsListed(p.drafts[i].change.adds, h);
    FindSettled(w.edges[i], p.drafts[i], h);
  }

  /** Nothing stands in the way on this edge: the deny is there or will be rendered, and it
      holds, unmanaged, no host that is pruned from another edge. */
  ghost predicate EdgeReadable(p: FilePlan, d: Draft, live: LiveEdge) {
    (live.deny || !EmptyEdge(d.change)) && forall h :: IsPruned(p, h) && HasHost(live, h) ==> h in d.change.removes
  }

  lemma FileEdgeAcceptedIff(cfg: Config, w: World, exps: seq<Exposure>, opts: Options, p: FilePlan, i: nat)
    requires Fits(cfg, w) && PlanFile(cfg, w, exps, opts) == Ok(p) && i < |cfg.edges| && PlanShaped(cfg, w, p)
    ensures FileEdgeAccepted(p, p.drafts[i], Settled(w.edges[i], p.drafts[i])) <==>
      EdgeReadable(p, p.drafts[i], w.edges[i]) && AddsAgree(p.drafts[i].change.adds)
  {
    hide AddsAgree, AuthVerified, TlsVerified, PlanFile;
    var live, d := w.edges[i], p.drafts[i];
    FilePlanAt(cfg, w, exps, opts);
    AddedReadBackIff(live, d);
    PlacedHosts(cfg, exps, opts, i, live);
    forall r | r in d.change.adds ensures HasHost(Settled(live, d), r.host) {
      AddedIsListed(d.change.adds, r.host);
      FindSettled(live, d, r.host);
    }
    forall h | h in d.adopts ensures IsPruned(p, h) || HasHost(Settled(live, d), h) {
      FindSettled(live, d, h);
      if h in d.change.removes { assert IsPruned(p, h); }
    }
    forall h | IsPruned(p, h)
      ensures HasHost(Settled(live, d), h) <==> HasHost(live, h) && h !in d.change.removes
    {
      PrunedSurvivesIff(cfg, w, exps, opts, p, i, h);
    }
    assert NonePruned(p, Settled(live, d)) <==> forall h :: IsPruned(p, h) ==> !HasHost(Settled(live, d), h);
  }

  lemma FileDnsReadsBack(cfg: Config, exps: seq<Exposure>, opts: Options, dp: DnsProvider, zone: Zone, c: DnsChange)
    requires DraftDns(cfg, exps, opts, dp, zone) == Ok(c)
    ensures FileDnsAccepted(ApplyDns(zone, c), c)
  {
    FileAddsWanted(exps, dp, zone);
    FileAddsHosts(exps, dp, zone);
    PrunedRecordsListed(cfg, exps, zone);
    forall r | r in c.adds
      ensures LastAt(ApplyDns(zone, c), KeyOf(r)).Some? && LastAt(ApplyDns(zone, c), KeyOf(r)).value.value == r.value
    {
      AddedRecordIsListed(c.adds, KeyOf(r));
      LastApplied(zone, c, KeyOf(r));
    }
    forall r | r in c.removes ensures !Answered(ApplyDns(zone, c), KeyOf(r)) {
      forall e | e in zone && Hits(e, KeyOf(r)) ensures Removes(c, e) {
        assert e == Entry(e.rec, true) && e.rec in c.removes;
        RemovedIsRemoved(c, e);
      }
      forall e | e in ApplyDns(zone, c) ensures !Hits(e, KeyOf(r)) {
        AppliedFrom(zone, c, e);
      }
    }
  }

  lemma {:induction false} FileAddsWanted(exps: seq<Exposure>, dp: DnsProvider, zone: Zone)
    requires FileAdds(exps, dp, zone).Ok?
    ensures forall r :: r in FileAdds(exps, dp, zone).value ==> r == Desired(dp, r.name) && !Answered(zone, KeyOf(r))
  {
    if exps != [] {
      FileAddsWanted(exps[..|exps| - 1], dp, zone);
    }
  }

  ghost predicate FileReadable(cfg: Config, w: World, p: FilePlan)
    requires PlanShaped(cfg, w, p)
  {
    forall i :: 0 <= i < |cfg.edges| ==> EdgeReadable(p, p.drafts[i], w.edges[i]) && AddsAgree(p.drafts[i].change.adds)
  }

  lemma AppliedFileAcceptedIff(cfg: Config, w: World, exps: seq<Exposure>, opts: Options, p: FilePlan)
    requires Fits(cfg, w) && PlanFile(cfg, w, exps, opts) == Ok(p) && PlanShaped(cfg, w, p)
    ensures PlanShaped(cfg, AppliedFile(cfg, w, p), p)
    ensures FileAccepted(cfg, p, AppliedFile(cfg, w, p)) <==> FileReadable(cfg, w, p)
    ensures DistinctHosts(exps) ==> forall i :: 0 <= i < |cfg.edges| ==> AddsAgree(p.drafts[i].change.adds)
  {
    hide FileEdgeAccepted, FileDnsAccepted, EdgeReadable, AddsAgree, PlanFile, DistinctHosts;
    var w' := AppliedFile(cfg, w, p);
    FilePlanAt(cfg, w, exps, opts);
    forall i | 0 <= i < |cfg.edges|
      ensures FileEdgeAccepted(p, p.drafts[i], w'.edges[i]) <==> EdgeReadable(p, p.drafts[i], w.edges[i]) && AddsAgree(p.drafts[i].change.adds)
    {
      FileEdgeAcceptedIff(cfg, w, exps, opts, p, i);
    }
    forall i | 0 <= i < |cfg.edges| && DistinctHosts(exps) ensures AddsAgree(p.drafts[i].change.adds) {
      DistinctAgree(cfg, exps, opts, i, w.edges[i], p.drafts[i]);
    }
    forall i | 0 <= i < |cfg.dns| ensures FileDnsAccepted(w'.dns[i], p.dns[i]) {
      FileDnsReadsBack(cfg, exps, opts, cfg.dns[i], w.dns[i], p.dns[i]);
    }
  }

  /** The world an honest declarative apply ends in, when it has adopted and all its steps are
      applied, reads back exactly when nothing stood in the way: no edge left alone lacked the
      deny, no host pruned from one edge stays unmanaged on another, and where the file names a
      host twice it asks for the same. */
  lemma HonestFileVerifiesIff(cfg: Config, w: World, depth: map<string, nat>, exps: seq<Exposure>, opts: Options, p: FilePlan,
                              steps: seq<Step>, env: Env)
    requires Fits(cfg, w) && PlanFile(cfg, w, exps, opts) == Ok(p) && PlanShaped(cfg, w, p)
    requires CompleteRun(cfg, AdoptedWorld(cfg, w, p), depth, PassesOf(p), steps, env)
    ensures StepsFit(AdoptedWorld(cfg, w, p), steps)
    ensures PlanShaped(cfg, Forward(AdoptedWorld(cfg, w, p), steps, env, |steps|), p)
    ensures FileAccepted(cfg, p, Forward(AdoptedWorld(cfg, w, p), steps, env, |steps|)) <==> FileReadable(cfg, w, p)
    ensures DistinctHosts(exps) ==> forall i :: 0 <= i < |cfg.edges| ==> AddsAgree(p.drafts[i].change.adds)
  {
    hide FileAccepted, FileReadable, Forward, PlanFile;
    RunCorrects(cfg, AdoptedWorld(cfg, w, p), depth, PassesOf(p), steps, env);
    AppliedFileAcceptedIff(cfg, w, exps, opts, p);
  }

  // ----- the flow -----

  /** Adoption stops at the first edge that fails; the edges before it stay adopted. */
  function AdoptStops(p: FilePlan, a: Answers, n: nat): (k: nat)
    requires n <= |p.drafts|
    ensures k <= n
  {
    if n == 0 then 0
    else
      var k := AdoptStops(p, a, n - 1);
      if k < n - 1 || (p.drafts[n - 1].adopts != [] && a.adoptFails(n - 1)) then k else n
  }

  function AdoptedUpTo(cfg: Config, w: World, p: FilePlan, k: nat): (w': World)
    requires PlanShaped(cfg, w, p) && k <= |cfg.edges|
    ensures Fits(cfg, w')
  {
    w.(edges := seq(|cfg.edges|, i requires 0 <= i < |cfg.edges| =>
                      if i < k then AdoptedEdge(w.edges[i], p.drafts[i].adopts) else w.edges[i]))
  }

  /** Adoption changes no answer. */
  lemma AdoptionKeepsAnswers(live: LiveEdge, hosts: seq<Host>)
    ensures SameAnswers(EdgeSlot(live), EdgeSlot(AdoptedEdge(live, hosts)))
  {
    forall h ensures AsBefore(Find(live.routes, h), Find(AdoptedEdge(live, hosts).routes, h)) {
      FindAdopted(live.routes, hosts, h);
    }
  }

  function FileOutcome(cfg: Config, w: World, depth: map<string, nat>, exps: seq<Exposure>, opts: Options, flags: Flags, a: Answers)
    : Result<(Report, World)>
    requires Fits(cfg, w)
  {
    match PlanFile(cfg, w, exps, opts)
    case Err => Err
    case Ok(p) =>
      FilePlanAt(cfg, w, exps, opts);
      if IsBlocked(p) then Ok((Untouched(false, Some(FileBlocked)), w))
      else if NothingToDo(p) then Ok((Untouched(true, None), w))
      else Ok(PlannedFileOutcome(cfg, w, depth, p, flags, a))
  }

  function PlannedFileOutcome(cfg: Config, w: World, depth: map<string, nat>, p: FilePlan, flags: Flags, a: Answers): (Report, World)
    requires PlanShaped(cfg, w, p)
  {
    var cs := ChangesOf(PassesOf(p));
    PlanIsProper(cfg, w, PassesOf(p));
    match GateAndConfirm(cfg, w, cs, flags, a)
    case Some(rep) => (rep, w)
    case None =>
      var k := AdoptStops(p, a, |p.drafts|);
      var w1 := AdoptedUpTo(cfg, w, p, k);
      if k < |p.drafts| then (Untouched(false, Some(AdoptFailed)), w1)
      else if SnapshotsFail(cs.edges, a) then (Untouched(false, Some(SnapshotFailed)), w1)
      else
        BuiltFit(cfg, w1, depth, cs);
        var steps := BuildSteps(cfg, w1, depth, cs);
        var ok := AllReread(cfg, a) && FileAccepted(cfg, p, Stopped(w1, steps, a.env));
        Executed(w1, steps, a.env, flags, ok, [])
  }

  /** What a planned file's run comes to: the world untouched; or, admitted by the gate, only
      adopted, or its steps executed on the adopted world; and a success has re-read a world
      showing the file done. */
  lemma FileIsHonest(cfg: Config, w: World, depth: map<string, nat>, p: FilePlan, flags: Flags, a: Answers, o: (Report, World))
    requires PlanShaped(cfg, w, p) && o == PlannedFileOutcome(cfg, w, depth, p, flags, a)
    ensures Fits(cfg, AdoptedWorld(cfg, w, p)) && Proper(cfg, AdoptedWorld(cfg, w, p), ChangesOf(PassesOf(p)))
    ensures StepsFit(AdoptedWorld(cfg, w, p), BuildSteps(cfg, AdoptedWorld(cfg, w, p), depth, ChangesOf(PassesOf(p))))
    ensures PlansFit(cfg, w, ChangesOf(PassesOf(p)).edges)
    ensures var w1, cs := AdoptedWorld(cfg, w, p), ChangesOf(PassesOf(p));
      || (!o.0.applied && !o.0.rolledBack && o.1 == w)
      || (GateOwnership(cfg, w, cs.op, cs.edges, flags.force)
          && ((!o.0.applied && !o.0.rolledBack && exists k :: 0 <= k <= |cfg.edges| && o.1 == AdoptedUpTo(cfg, w, p, k))
              || Ended(w1, BuildSteps(cfg, w1, depth, cs), flags, a.env, o)))
    ensures o.0.applied && o.0.failure.None? ==> PlanShaped(cfg, o.1, p) && FileAccepted(cfg, p, o.1)
  {
    hide BuildSteps, AllReread, GateOwnership, FileEdgeAccepted, FileDnsAccepted, Stops, Forward;
    var w1, cs := AdoptedWorld(cfg, w, p), ChangesOf(PassesOf(p));
    PlanIsProper(cfg, w, PassesOf(p));
    PlanIsProper(cfg, w1, PassesOf(p));
    BuiltFit(cfg, w1, depth, cs);
    if AdoptStops(p, a, |p.drafts|) == |p.drafts| {
      assert AdoptedUpTo(cfg, w, p, |p.drafts|).edges == w1.edges;
      var steps := BuildSteps(cfg, w1, depth, cs);
      var ok := AllReread(cfg, a) && FileAccepted(cfg, p, Stopped(w1, steps, a.env));
      ExecutedEnds(w1, steps, a.env, flags, ok, []);
    }
  }

  // ----- ownership -----

  /** What is safe to touch on an edge still is after adoption. */
  lemma AdoptionKeepsSafe(live: LiveEdge, hosts: seq<Host>, c: EdgeChange, force: bool)
    requires SafeTouch(live, c, force)
    ensures SafeTouch(AdoptedEdge(live, hosts), c, force)
  {
    var routes := Adopted(live.routes, hosts);
    forall r | r in routes && r.host in Touched(c) ensures OwnerAdmits(r.ownership, force) {
      var k :| 0 <= k < |routes| && routes[k] == r;
      assert live.routes[k] in live.routes;
    }
  }

  /** Ownership safety of a file's run, which asks the gate before adoption and builds its steps
      and their compensators after it: none of the changes it can hand an edge whose index hid
      no owner touches what crenel must not, neither as the edge was before nor as adopted. */
  lemma FileTouchesOnlyItsOwn(cfg: Config, w: World, depth: map<string, nat>, p: FilePlan, force: bool, s: Step)
    requires PlanShaped(cfg, w, p) && PlansFit(cfg, w, ChangesOf(PassesOf(p)).edges)
    requires GateOwnership(cfg, w, CORRECTIVE_OP, ChangesOf(PassesOf(p)).edges, force)
    requires PlansFit(cfg, AdoptedWorld(cfg, w, p), ChangesOf(PassesOf(p)).edges)
    requires s in BuildSteps(cfg, AdoptedWorld(cfg, w, p), depth, ChangesOf(PassesOf(p))) && s.target.EdgeAt?
    requires s.target.edge < |w.edges| ==> OwnersAgree(w.edges[s.target.edge], force)
    ensures s.target.edge < |w.edges| && s.fwd.OnEdge? && s.inv.OnEdge?
    ensures SafeTouch(w.edges[s.target.edge], s.fwd.edgeChange, force)
    ensures SafeTouch(w.edges[s.target.edge], s.inv.edgeChange, force)
    ensures SafeTouch(AdoptedWorld(cfg, w, p).edges[s.target.edge], s.fwd.edgeChange, force)
    ensures SafeTouch(AdoptedWorld(cfg, w, p).edges[s.target.edge], s.inv.edgeChange, force)
  {
    hide GateChain, BuildSteps, OwnersAgree;
    var w1, cs := AdoptedWorld(cfg, w, p), ChangesOf(PassesOf(p));
    BuiltFit(cfg, w1, depth, cs);
    var q :| q in cs.edges && CarriesPlan(w1, q, s);
    var j :| 0 <= j < |cs.edges| && cs.edges[j] == q;
    GateIsSafe(w.edges[q.edge], q.change, force);
    InverseTouchesNoMore(q.change, w1.edges[q.edge]);
    AdoptionKeepsSafe(w.edges[q.edge], p.drafts[q.edge].adopts, s.fwd.edgeChange, force);
    AdoptionKeepsSafe(w.edges[q.edge], p.drafts[q.edge].adopts, s.inv.edgeChange, force);
  }

  /** Everything a file's transaction does can be undone exactly when no Cloudflare zone has two
      different records pruned at one key; in particular, always without pruning. */
  lemma FileUndoableIff(cfg: Config, w: World, depth: map<string, nat>, exps: seq<Exposure>, opts: Options, p: FilePlan)
    requires ZonesTyped(cfg, w) && PlanFile(cfg, w, exps, opts) == Ok(p) && PlanShaped(cfg, w, p)
    ensures Proper(cfg, AdoptedWorld(cfg, w, p), ChangesOf(PassesOf(p)))
    ensures Undoable(AdoptedWorld(cfg, w, p), BuildSteps(cfg, AdoptedWorld(cfg, w, p), depth, ChangesOf(PassesOf(p)))) <==>
      forall i :: 0 <= i < |cfg.dns| && cfg.dns[i].kind == Cloudflare ==> OneEach(p.dns[i].removes)
  {
    var w1 := AdoptedWorld(cfg, w, p);
    FilePlanAt(cfg, w, exps, opts);
    forall i | 0 <= i < |cfg.edges| ensures Restorable(EdgeSlot(w1.edges[i]), OnEdge(PassesOf(p).edges[i])) {
      PlacedHosts(cfg, exps, opts, i, w.edges[i]);
      forall r | r in p.drafts[i].change.adds ensures !HasHost(w1.edges[i], r.host) {
        FindAdopted(w.edges[i].routes, p.drafts[i].adopts, r.host);
      }
    }
    forall i | 0 <= i < |cfg.dns|
      ensures SoundPass(cfg.dns[i], w1.dns[i], p.dns[i])
      ensures PassUndoable(cfg.dns[i], w1.dns[i], p.dns[i]) <==> (cfg.dns[i].kind == Cloudflare ==> OneEach(p.dns[i].removes))
    {
      DraftIsSound(cfg, exps, opts, cfg.dns[i], w.dns[i], p.dns[i]);
    }
    PassesUndoableIff(cfg, w1, depth, PassesOf(p));
  }

  lemma DraftIsSound(cfg: Config, exps: seq<Exposure>, opts: Options, dp: DnsProvider, zone: Zone, c: DnsChange)
    requires DraftDns(cfg, exps, opts, dp, zone) == Ok(c)
    ensures SoundPass(dp, zone, c) && forall r :: r in c.adds ==> !Answered(zone, KeyOf(r))
  {
    FileAddsWanted(exps, dp, zone);
    FileAddsHosts(exps, dp, zone);
    PrunedRecordsListed(cfg, exps, zone);
    forall e, r | e in zone && e.ours && r in c.removes && r.name == e.rec.name ensures e.rec in c.removes {
      assert e == Entry(e.rec, true);
    }
  }
}
