/** What has to be given before a run touches anything (internal/core/apply.go, gate.go,
    reconcile.go, declarative.go): something to do, the gate's leave, the user's yes and a snapshot
    of every edge. Without one of them nothing happens; with all of them the run takes place, and
    when it ends well is said exactly. */
module Consent {
  import opened Model
  import opened Zones
  import T = Topology
  import opened Planner
  import opened Steps
  import opened Runs
  import opened Verify
  import opened Terms
  import opened Gate
  import opened Flow
  import opened Changes
  import opened Canonical
  import opened Converge
  import opened Declarative
  import opened DeclarativeRun

  // ----- the gate -----

  /** Not owned elsewhere, and if its owner is unknown, forced. */
  predicate Yields(r: Route, force: bool) {
    !(r.ownership == OwnForeign || (r.ownership == OwnUnknown && !force))
  }

  ghost predicate LastRoute(routes: seq<Route>, host: Host, r: Route) {
    exists n :: 0 <= n < |routes| && routes[n] == r && r.host == host && forall k :: n < k < |routes| ==> routes[k].host != host
  }

  ghost predicate Touches(c: EdgeChange, host: Host) {
    (exists r :: r in c.adds && r.host == host) || host in c.removes
  }

  /** A changed edge is owned by no generator, and the last route listed for every touched host
      yields. */
  ghost predicate EdgeYields(live: LiveEdge, c: EdgeChange, force: bool) {
    (c.adds == [] && c.removes == []) ||
    (live.generator == "" && forall h, r :: Touches(c, h) && LastRoute(live.routes, h, r) ==> Yields(r, force))
  }

  /** An edge that has a part in a chain is owned by no generator, and its first route for the host
      yields. */
  ghost predicate PartYields(live: LiveEdge, host: Host, force: bool) {
    live.generator == "" && forall r :: FirstRoute(live.routes, host, r) ==> Yields(r, force)
  }

  /** Some edge forwards the service. */
  ghost predicate CrossesChain(cfg: Config, op: Op) {
    op.host != "" && exists i :: 0 <= i < |cfg.edges| && Forwards(cfg, i, op.service)
  }

  ghost predicate ChainYields(cfg: Config, w: World, op: Op, force: bool)
    requires Fits(cfg, w)
  {
    CrossesChain(cfg, op) ==> forall i :: 0 <= i < |cfg.edges| && (Offers(cfg.edges[i], op.service) || Forwards(cfg, i, op.service)) ==>
      PartYields(w.edges[i], op.host, force)
  }

  lemma {:induction false} LastRouteIff(routes: seq<Route>, host: Host, o: Ownership)
    ensures OwnerByHost(routes, host) == Some(o) <==> exists r :: LastRoute(routes, host, r) && r.ownership == o
  {
    if routes != [] {
      var n := |routes| - 1;
      LastRouteIff(routes[..n], host, o);
      if routes[n].host == host {
        assert LastRoute(routes, host, routes[n]);
        forall r | LastRoute(routes, host, r) ensures r == routes[n] {
          var k :| 0 <= k < |routes| && routes[k] == r && r.host == host && forall m :: k < m < |routes| ==> routes[m].host != host;
          assert k == n;
        }
      } else {
        forall r ensures LastRoute(routes, host, r) <==> LastRoute(routes[..n], host, r) {
          LastRouteInit(routes, host, r);
        }
      }
    }
  }

  lemma LastRouteInit(routes: seq<Route>, host: Host, r: Route)
    requires routes != [] && routes[|routes| - 1].host != host
    ensures LastRoute(routes, host, r) <==> LastRoute(routes[..|routes| - 1], host, r)
  {
    var n := |routes| - 1;
    var init := routes[..n];
    if LastRoute(routes, host, r) {
      var k :| 0 <= k < |routes| && routes[k] == r && r.host == host && forall m :: k < m < |routes| ==> routes[m].host != host;
      assert init[k] == r && forall m :: k < m < n ==> init[m] == routes[m];
    }
    if LastRoute(init, host, r) {
      var k :| 0 <= k < n && init[k] == r && r.host == host && forall m :: k < m < n ==> init[m].host != host;
      assert routes[k] == r && forall m :: k < m < n ==> routes[m] == init[m];
    }
  }

  lemma TouchesIff(c: EdgeChange, host: Host)
    ensures host in Touched(c) <==> Touches(c, host)
  {
    if host in Touched(c) {
      if i :| 0 <= i < |c.adds| && c.adds[i].host == host {
        assert c.adds[i] in c.adds;
      }
    }
  }

  lemma GateEdgeIff(live: LiveEdge, c: EdgeChange, force: bool)
    ensures GateEdge(live, c, force) <==> EdgeYields(live, c, force)
  {
    forall h ensures h in Touched(c) <==> Touches(c, h) {
      TouchesIff(c, h);
    }
    forall h, o ensures OwnerByHost(live.routes, h) == Some(o) <==> exists r :: LastRoute(live.routes, h, r) && r.ownership == o {
      LastRouteIff(live.routes, h, o);
    }
    if EdgeYields(live, c, force) && !EmptyEdge(c) {
      forall h | h in Touched(c) && OwnerByHost(live.routes, h).Some? ensures OwnerAdmits(OwnerByHost(live.routes, h).value, force) {
        var r :| LastRoute(live.routes, h, r) && r.ownership == OwnerByHost(live.routes, h).value;
        assert Yields(r, force);
      }
    }
    if GateEdge(live, c, force) && !EmptyEdge(c) {
      forall h, r | Touches(c, h) && LastRoute(live.routes, h, r) ensures Yields(r, force) {
        assert OwnerByHost(live.routes, h) == Some(r.ownership);
      }
    }
  }

  lemma GateParticipantIff(live: LiveEdge, host: Host, force: bool)
    ensures GateParticipant(live, host, force) <==> PartYields(live, host, force)
  {
    forall r ensures FirstRoute(live.routes, host, r) <==> Find(live.routes, host) == Some(r) {
      FirstRouteIff(live.routes, host, r);
    }
    if HasHost(live, host) {
      assert FirstRoute(live.routes, host, Find(live.routes, host).value);
    }
  }

  lemma GateChainIff(cfg: Config, w: World, op: Op, force: bool)
    requires Fits(cfg, w) && T.UniqueNames(cfg.edges)
    ensures GateChain(cfg, w, op, force) <==> ChainYields(cfg, w, op, force)
  {
    hide GateParticipant, PartYields, Forwards, Offers, RoleOf;
    forall i | 0 <= i < |cfg.edges|
      ensures RoleOf(cfg, i, op.service) == T.RoleForward <==> Forwards(cfg, i, op.service)
      ensures RoleOf(cfg, i, op.service) != T.RoleNone <==> Offers(cfg.edges[i], op.service) || Forwards(cfg, i, op.service)
      ensures GateParticipant(w.edges[i], op.host, force) <==> PartYields(w.edges[i], op.host, force)
    {
      RoleIff(cfg, i, op.service);
      GateParticipantIff(w.edges[i], op.host, force);
    }
  }

  /** The gate admits a change set exactly when every changed edge yields and, where the operation
      crosses a chain, every edge that has a part in it, changed or not. */
  lemma GateAdmitsIff(cfg: Config, w: World, op: Op, edges: seq<EdgePlan>, force: bool)
    requires PlansFit(cfg, w, edges) && T.UniqueNames(cfg.edges)
    ensures GateOwnership(cfg, w, op, edges, force) <==>
      ChainYields(cfg, w, op, force) && forall j :: 0 <= j < |edges| ==> EdgeYields(w.edges[edges[j].edge], edges[j].change, force)
  {
    hide GateChain, ChainYields, GateEdge, EdgeYields;
    GateChainIff(cfg, w, op, force);
    forall j | 0 <= j < |edges|
      ensures GateEdge(w.edges[edges[j].edge], edges[j].change, force) <==> EdgeYields(w.edges[edges[j].edge], edges[j].change, force)
    {
      GateEdgeIff(w.edges[edges[j].edge], edges[j].change, force);
    }
  }

  // ----- one operation -----

  ghost predicate ToDo(cs: ChangeSet) {
    || (exists j :: 0 <= j < |cs.edges| && (cs.edges[j].change.adds != [] || cs.edges[j].change.removes != []))
    || (exists i :: 0 <= i < |cs.dns| && (cs.dns[i].adds != [] || cs.dns[i].removes != []))
  }

  /** Every provider reported success, truthfully or not. */
  ghost predicate AllReport(steps: seq<Step>, env: Env) {
    forall i :: 0 <= i < |steps| ==> env.onDo(steps[i].target) == Done || exists s :: env.onDo(steps[i].target) == Rogue(true, s)
  }

  lemma AllReportIff(steps: seq<Step>, env: Env)
    ensures AllReport(steps, env) <==> Stops(steps, env) == |steps|
  {
    if Stops(steps, env) == |steps| {
      forall i | 0 <= i < |steps|
        ensures env.onDo(steps[i].target) == Done || exists s :: env.onDo(steps[i].target) == Rogue(true, s)
      {
        var reply := env.onDo(steps[i].target);
        assert Accepted(reply);
        if reply.Rogue? { assert reply == Rogue(true, reply.after); }
      }
    }
  }

  /** Nothing asked for is missing: something to do, the gate's leave, a yes, and every snapshot. */
  ghost predicate Given(cfg: Config, w: World, cs: ChangeSet, flags: Flags, a: Answers)
    requires PlansFit(cfg, w, cs.edges)
  {
    && ToDo(cs) && GateOwnership(cfg, w, cs.op, cs.edges, flags.force)
    && a.confirms == Yes && forall j :: 0 <= j < |cs.edges| ==> !a.snapshotFails(cs.edges[j].edge)
  }

  /** The world is as it was and nothing is claimed to have been done to it. */
  predicate LeftAlone(w: World, o: (Report, World)) {
    o.1 == w && !o.0.applied && !o.0.rolledBack && o.0.errors == []
  }

  /** Why nothing was done: there was nothing to do, the gate or the question failed, the user said
      no, which is no failure, or a snapshot could not be taken. */
  ghost predicate SaysWhy(cfg: Config, w: World, cs: ChangeSet, flags: Flags, a: Answers, rep: Report)
    requires PlansFit(cfg, w, cs.edges)
  {
    && (rep.noop <==> !ToDo(cs))
    && rep.failure == if !ToDo(cs) then None
                      else if !GateOwnership(cfg, w, cs.op, cs.edges, flags.force) then Some(GateRefused)
                      else if a.confirms == Broken then Some(ConfirmBroken)
                      else if a.confirms == No then None
                      else Some(SnapshotFailed)
  }

  lemma RefusalIff(cfg: Config, w: World, cs: ChangeSet, flags: Flags, a: Answers)
    requires PlansFit(cfg, w, cs.edges)
    ensures Given(cfg, w, cs, flags, a) <==> Refusal(cfg, w, cs, flags, a).None? && !SnapshotsFail(cs.edges, a)
    ensures match Refusal(cfg, w, cs, flags, a)
            case Some(rep) => !rep.applied && !rep.rolledBack && rep.errors == [] && SaysWhy(cfg, w, cs, flags, a, rep)
            case None => SnapshotsFail(cs.edges, a) ==> SaysWhy(cfg, w, cs, flags, a, Untouched(false, Some(SnapshotFailed)))
  {
    hide GateOwnership;
    assert ToDo(cs) <==> !EmptySet(cs);
  }

  /** An operation is carried out exactly when all that is asked for is given; else the world is
      left alone and the report says why. In particular nothing happens without a yes. */
  lemma OnlyWithConsent(cfg: Config, w: World, depth: map<string, nat>, cs: ChangeSet, flags: Flags, a: Answers, o: (Report, World))
    requires PlansFit(cfg, w, cs.edges) && |cs.dns| <= |cfg.dns| && o == Outcome(cfg, w, depth, cs, flags, a)
    ensures StepsFit(w, BuildSteps(cfg, w, depth, cs))
    ensures a.confirms != Yes ==> LeftAlone(w, o)
    ensures !Given(cfg, w, cs, flags, a) ==> LeftAlone(w, o) && SaysWhy(cfg, w, cs, flags, a, o.0)
    ensures Given(cfg, w, cs, flags, a) ==> !o.0.noop && Ended(w, BuildSteps(cfg, w, depth, cs), flags, a.env, o)
  {
    hide BuildSteps, StepsFit, Executed, Ended, GateOwnership, Refusal, SaysWhy;
    RefusalIff(cfg, w, cs, flags, a);
    BuiltFit(cfg, w, depth, cs);
    var steps := BuildSteps(cfg, w, depth, cs);
    if Given(cfg, w, cs, flags, a) {
      var ok := ReadsBack(cfg, cs.op, cs.edges, Stopped(w, steps, a.env), a);
      ExecutedEnds(w, steps, a.env, flags, ok, Unavailables(cs.edges, a));
      ExecutedIsGreenIff(w, steps, a.env, flags, ok, Unavailables(cs.edges, a));
    }
  }

  lemma ExecutedIsGreenIff(w: World, steps: seq<Step>, env: Env, flags: Flags, ok: bool, unavailable: seq<nat>)
    requires StepsFit(w, steps)
    ensures var o := Executed(w, steps, env, flags, ok, unavailable);
      && !o.0.noop
      && (o.0.failure.None? <==> AllReport(steps, env) && ok && (flags.allowUnverified || unavailable == []))
      && (o.0.failure == Some(StepFailed) <==> !AllReport(steps, env))
      && (o.0.failure == Some(VerifyFailed) <==> AllReport(steps, env) && !ok)
      && (o.0.failure.Some? && AllReport(steps, env) && ok ==> o.0.failure == Some(RuntimeUnconfirmed(unavailable)))
      && (AllReport(steps, env) ==> Stopped(w, steps, env) == Forward(w, steps, env, |steps|))
  {
    AllReportIff(steps, env);
  }

  /** A run that takes place reports no failure exactly when every provider reported success, every
      one asked could be re-read and shows the operation done, and no probe failed or, unless
      accepted, was missing. */
  lemma GreenIff(cfg: Config, w: World, depth: map<string, nat>, cs: ChangeSet, flags: Flags, a: Answers, o: (Report, World))
    requires PlansFit(cfg, w, cs.edges) && |cs.dns| <= |cfg.dns| && o == Outcome(cfg, w, depth, cs, flags, a)
    requires Given(cfg, w, cs, flags, a)
    ensures StepsFit(w, BuildSteps(cfg, w, depth, cs))
    ensures var steps := BuildSteps(cfg, w, depth, cs);
      var shown := AllShow(cfg, cs.op, cs.edges, Forward(w, steps, a.env, |steps|)) && Asked(cfg, cs.op, cs.edges, a);
      var probed := flags.allowUnverified || forall j :: 0 <= j < |cs.edges| ==> a.runtime(cs.edges[j].edge) != Unavailable;
      && (o.0.failure.None? <==> AllReport(steps, a.env) && shown && probed)
      && (o.0.failure == Some(StepFailed) <==> !AllReport(steps, a.env))
      && (o.0.failure == Some(VerifyFailed) <==> AllReport(steps, a.env) && !shown)
      && (o.0.failure.Some? && AllReport(steps, a.env) && shown ==> o.0.failure == Some(RuntimeUnconfirmed(Unavailables(cs.edges, a))))
  {
    hide BuildSteps, StepsFit, Executed, GateOwnership, Refusal, ReadsBack, AllShow, Asked, Forward, AllReport;
    RefusalIff(cfg, w, cs, flags, a);
    BuiltFit(cfg, w, depth, cs);
    var steps := BuildSteps(cfg, w, depth, cs);
    var w1 := Stopped(w, steps, a.env);
    ExecutedIsGreenIff(w, steps, a.env, flags, ReadsBack(cfg, cs.op, cs.edges, w1, a), Unavailables(cs.edges, a));
    ReadsBackIff(cfg, cs.op, cs.edges, w1, a);
    NoneUnavailable(cs.edges, a);
  }

  // ----- reconcile -----

  ghost predicate AllRead(cfg: Config, a: Answers) {
    (forall i :: 0 <= i < |cfg.edges| ==> !a.rereadFails(EdgeAt(i))) && forall i :: 0 <= i < |cfg.dns| ==> !a.rereadFails(DnsAt(i))
  }

  /** The same of a reconcile: no drift, no leave or no yes, and nothing happens; else it is
      carried out, and is without failure exactly when every provider reported success, could be
      re-read and is accepted. */
  lemma ReconcileOnlyWithConsent(cfg: Config, w: World, depth: map<string, nat>, canon: Canon, p: Passes, flags: Flags, a: Answers,
                                 o: (Report, World))
    requires PassesFit(cfg, w, p) && o == PlannedReconcileOutcome(cfg, w, depth, canon, p, flags, a)
    ensures Proper(cfg, w, ChangesOf(p)) && StepsFit(w, BuildSteps(cfg, w, depth, ChangesOf(p)))
    ensures a.confirms != Yes ==> LeftAlone(w, o)
    ensures !Given(cfg, w, ChangesOf(p), flags, a) ==> LeftAlone(w, o) && SaysWhy(cfg, w, ChangesOf(p), flags, a, o.0)
    ensures Given(cfg, w, ChangesOf(p), flags, a) ==>
      var steps := BuildSteps(cfg, w, depth, ChangesOf(p));
      !o.0.noop && Ended(w, steps, flags, a.env, o) &&
      (o.0.failure.None? <==> AllReport(steps, a.env) && AllRead(cfg, a) && WorldAccepted(cfg, canon, p, Forward(w, steps, a.env, |steps|)))
      && (o.0.failure == Some(StepFailed) <==> !AllReport(steps, a.env))
  {
    hide BuildSteps, StepsFit, Executed, Ended, GateOwnership, Refusal, SaysWhy, WorldAccepted, AllReport, Forward, ChangesOf;
    var cs := ChangesOf(p);
    PlanIsProper(cfg, w, p);
    RefusalIff(cfg, w, cs, flags, a);
    BuiltFit(cfg, w, depth, cs);
    var steps := BuildSteps(cfg, w, depth, cs);
    if Given(cfg, w, cs, flags, a) {
      var ok := AllReread(cfg, a) && WorldAccepted(cfg, canon, p, Stopped(w, steps, a.env));
      ExecutedEnds(w, steps, a.env, flags, ok, []);
      ExecutedIsGreenIff(w, steps, a.env, flags, ok, []);
    }
  }

  // ----- a declarative file -----

  /** An adoption the plan needs fails on some edge. */
  ghost predicate AdoptionFails(p: FilePlan, a: Answers) {
    exists i :: 0 <= i < |p.drafts| && p.drafts[i].adopts != [] && a.adoptFails(i)
  }

  lemma {:induction false} AdoptStopsIff(p: FilePlan, a: Answers, n: nat)
    requires n <= |p.drafts|
    ensures AdoptStops(p, a, n) == n <==> forall i :: 0 <= i < n ==> p.drafts[i].adopts == [] || !a.adoptFails(i)
  {
    if n > 0 {
      AdoptStopsIff(p, a, n - 1);
    }
  }

  /** The same of a file's plan, which is asked for only when it is not empty and not blocked: with
      leave and a yes its adoptions go first, and only when they and the snapshots succeed is the
      transaction carried out, on the adopted world. */
  lemma FileOnlyWithConsent(cfg: Config, w: World, depth: map<string, nat>, p: FilePlan, flags: Flags, a: Answers, o: (Report, World))
    requires PlanShaped(cfg, w, p) && o == PlannedFileOutcome(cfg, w, depth, p, flags, a)
    ensures PlansFit(cfg, w, ChangesOf(PassesOf(p)).edges)
    ensures a.confirms != Yes ==> LeftAlone(w, o)
    ensures var cs, w1 := ChangesOf(PassesOf(p)), AdoptedWorld(cfg, w, p);
      var given := GateOwnership(cfg, w, cs.op, cs.edges, flags.force) && a.confirms == Yes;
      var ready := !AdoptionFails(p, a) && forall j :: 0 <= j < |cs.edges| ==> !a.snapshotFails(cs.edges[j].edge);
      && (!given ==> LeftAlone(w, o))
      && (given && !ready ==> !o.0.applied && !o.0.rolledBack && o.0.failure.Some?)
      && (given && ready ==> FileRuns(cfg, w1, depth, p, flags, a, o))
  {
    hide BuildSteps, StepsFit, Executed, GateOwnership, ChangesOf, FileRuns, Stopped, WorldAccepted, FileAccepted, AllReread;
    var cs, w1 := ChangesOf(PassesOf(p)), AdoptedWorld(cfg, w, p);
    PlanIsProper(cfg, w, PassesOf(p));
    PlanIsProper(cfg, w1, PassesOf(p));
    BuiltFit(cfg, w1, depth, cs);
    AdoptStopsIff(p, a, |p.drafts|);
    if AdoptStops(p, a, |p.drafts|) == |p.drafts| {
      assert AdoptedUpTo(cfg, w, p, |p.drafts|).edges == w1.edges;
      FileExecuted(cfg, w1, depth, p, flags, a);
    }
  }

  ghost predicate FileRuns(cfg: Config, w1: World, depth: map<string, nat>, p: FilePlan, flags: Flags, a: Answers, o: (Report, World))
    requires PlanShaped(cfg, w1, p)
  {
    var cs := ChangesOf(PassesOf(p));
    && PlansFit(cfg, w1, cs.edges) && |cs.dns| <= |cfg.dns|
    && var steps := BuildSteps(cfg, w1, depth, cs);
    && StepsFit(w1, steps) && Ended(w1, steps, flags, a.env, o)
    && (o.0.failure.None? <==> AllReport(steps, a.env) && AllRead(cfg, a) && FileAccepted(cfg, p, Forward(w1, steps, a.env, |steps|)))
  }

  lemma FileExecuted(cfg: Config, w1: World, depth: map<string, nat>, p: FilePlan, flags: Flags, a: Answers)
    requires PlanShaped(cfg, w1, p) && Proper(cfg, w1, ChangesOf(PassesOf(p)))
    requires StepsFit(w1, BuildSteps(cfg, w1, depth, ChangesOf(PassesOf(p))))
    ensures var steps := BuildSteps(cfg, w1, depth, ChangesOf(PassesOf(p)));
      var ok := AllReread(cfg, a) && FileAccepted(cfg, p, Stopped(w1, steps, a.env));
      FileRuns(cfg, w1, depth, p, flags, a, Executed(w1, steps, a.env, flags, ok, []))
  {
    hide BuildSteps, StepsFit, Executed, Ended, FileAccepted, AllReport, Forward, ChangesOf;
    var steps := BuildSteps(cfg, w1, depth, ChangesOf(PassesOf(p)));
    var ok := AllReread(cfg, a) && FileAccepted(cfg, p, Stopped(w1, steps, a.env));
    ExecutedEnds(w1, steps, a.env, flags, ok, []);
    ExecutedIsGreenIff(w1, steps, a.env, flags, ok, []);
  }

  /** A blocked plan, an empty one and a file without one change nothing. */
  lemma BlockedFileIsRefused(cfg: Config, w: World, depth: map<string, nat>, exps: seq<Exposure>, opts: Options, flags: Flags, a: Answers)
    requires Fits(cfg, w) && PlanFile(cfg, w, exps, opts).Ok?
    ensures var p, r := PlanFile(cfg, w, exps, opts).value, FileOutcome(cfg, w, depth, exps, opts, flags, a);
      var blocked := exists i :: 0 <= i < |p.drafts| && p.drafts[i].blocked != [];
      var idle := (forall i :: 0 <= i < |p.drafts| ==> p.drafts[i].adopts == [] && p.drafts[i].change == EdgeChange([], []))
                  && forall i :: 0 <= i < |p.dns| ==> p.dns[i].adds == [] && p.dns[i].removes == [];
      && r.Ok? && PlanShaped(cfg, w, p)
      && (blocked || idle ==> LeftAlone(w, r.value) && (r.value.0.noop <==> !blocked) && (r.value.0.failure.None? <==> !blocked))
      && (!blocked && !idle ==> r.value == PlannedFileOutcome(cfg, w, depth, p, flags, a))
  {
    hide PlanFile, PlannedFileOutcome;
    FilePlanAt(cfg, w, exps, opts);
    var p := PlanFile(cfg, w, exps, opts).value;
    assert forall i :: 0 <= i < |p.drafts| ==> PassesOf(p).edges[i] == p.drafts[i].change;
    if NothingToDo(p) {
      assert forall i :: 0 <= i < |p.drafts| ==> EmptyEdge(PassesOf(p).edges[i]);
    }
  }
}
