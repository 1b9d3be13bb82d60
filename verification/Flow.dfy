/** The confirm, gate, snapshot, apply, read-back, rollback flow (internal/core/apply.go) as a
    function of the world and of everything the environment decides, and what it guarantees. */
module Flow {
  import opened Model
  import opened Zones
  import opened Planner
  import opened Steps
  import opened Runs
  import opened Orders
  import opened Verify
  import opened Terms
  import opened Gate

  datatype Confirmation = Yes | No | Broken

  /** Everything the world outside decides during one run. */
  datatype Answers = Answers(
    env: Env, confirms: Confirmation, adoptFails: nat -> bool, snapshotFails: nat -> bool, rereadFails: Target -> bool,
    runtime: nat -> Runtime)

  datatype Flags = Flags(rollback: bool, force: bool, allowUnverified: bool)

  datatype Failure = FileBlocked | AdoptFailed | GateRefused | ConfirmBroken | SnapshotFailed | StepFailed | VerifyFailed | RuntimeUnconfirmed(edges: seq<nat>)

  datatype Report = Report(applied: bool, noop: bool, rolledBack: bool, errors: seq<Target>, failure: Option<Failure>)

  function Untouched(noop: bool, failure: Option<Failure>): Report {
    Report(false, noop, false, [], failure)
  }

  // ----- the flow as a function of the world and the answers -----

  predicate SnapshotsFail(edges: seq<EdgePlan>, a: Answers) {
    exists j :: 0 <= j < |edges| && a.snapshotFails(edges[j].edge)
  }

  predicate EdgeReadsBack(op: Op, p: EdgePlan, live: LiveEdge, a: Answers) {
    !a.rereadFails(EdgeAt(p.edge)) && EdgeVerified(op, p.change, live) && a.runtime(p.edge) != Failed
  }

  predicate DnsReadsBack(op: Op, dp: DnsProvider, i: nat, zone: Zone, a: Answers) {
    !ScopeSelected(op.scopes, dp.scope) || !Covers(dp, op.host)
    || (!a.rereadFails(DnsAt(i)) && DnsShows(op.verb, Desired(dp, op.host), zone))
  }

  predicate ReadsBack(cfg: Config, op: Op, edges: seq<EdgePlan>, w: World, a: Answers)
    requires PlansFit(cfg, w, edges)
  {
    && (forall j :: 0 <= j < |edges| ==> EdgeReadsBack(op, edges[j], w.edges[edges[j].edge], a))
    && (forall i :: 0 <= i < |cfg.dns| ==> DnsReadsBack(op, cfg.dns[i], i, w.dns[i], a))
  }

  /** The written edges whose daemon could not be asked. */
  function Unavailables(edges: seq<EdgePlan>, a: Answers): seq<nat> {
    if edges == [] then []
    else
      var last := edges[|edges| - 1].edge;
      Unavailables(edges[..|edges| - 1], a) + if a.runtime(last) == Unavailable then [last] else []
  }

  /** The report and world after rolling the applied steps back. */
  function RolledBack(w: World, applied: seq<Step>, env: Env, flags: Flags, through: bool, why: Failure): (Report, World)
    requires StepsFit(w, applied)
  {
    if !flags.rollback || applied == [] then (Report(through, false, false, [], Some(why)), w)
    else (Report(through, false, true, RollbackErrors(applied, env, 0), Some(why)), Back(w, applied, env, 0))
  }

  /** The world when the forward loop stops, the failing step's own effect included. */
  function Stopped(w: World, steps: seq<Step>, env: Env): (w': World)
    requires StepsFit(w, steps)
    ensures SameShape(w, w')
  {
    var k := Stops(steps, env);
    var w1 := Forward(w, steps, env, k);
    if k == |steps| then w1 else React(w1, steps[k].target, steps[k].fwd, env.onDo(steps[k].target))
  }

  /** Applying, reading back and, if need be, rolling back the built steps. `ok` and
      `unavailable` are what the re-read of the world the steps left found. */
  function Executed(w: World, steps: seq<Step>, env: Env, flags: Flags, ok: bool, unavailable: seq<nat>): (Report, World)
    requires StepsFit(w, steps)
  {
    var k, w1 := Stops(steps, env), Stopped(w, steps, env);
    if k < |steps| then RolledBack(w1, steps[..k], env, flags, false, StepFailed)
    else if !ok then RolledBack(w1, steps, env, flags, true, VerifyFailed)
    else if !flags.allowUnverified && unavailable != [] then
      RolledBack(w1, steps, env, flags, true, RuntimeUnconfirmed(unavailable))
    else (Report(true, false, false, [], None), w1)
  }

  function ExecutedOp(cfg: Config, w: World, steps: seq<Step>, op: Op, edges: seq<EdgePlan>, flags: Flags, a: Answers): (Report, World)
    requires PlansFit(cfg, w, edges) && StepsFit(w, steps)
  {
    Executed(w, steps, a.env, flags, ReadsBack(cfg, op, edges, Stopped(w, steps, a.env), a), Unavailables(edges, a))
  }

  /** Why a change set is not carried out at all: nothing to do, the ownership gate, or the
      confirmation. */
  function Refusal(cfg: Config, w: World, cs: ChangeSet, flags: Flags, a: Answers): Option<Report>
    requires PlansFit(cfg, w, cs.edges)
  {
    if EmptySet(cs) then Some(Untouched(true, None)) else GateAndConfirm(cfg, w, cs, flags, a)
  }

  function GateAndConfirm(cfg: Config, w: World, cs: ChangeSet, flags: Flags, a: Answers): Option<Report>
    requires PlansFit(cfg, w, cs.edges)
  {
    if !GateOwnership(cfg, w, cs.op, cs.edges, flags.force) then Some(Untouched(false, Some(GateRefused)))
    else if a.confirms == Broken then Some(Untouched(false, Some(ConfirmBroken)))
    else if a.confirms == No then Some(Untouched(false, None))
    else None
  }

  function Outcome(cfg: Config, w: World, depth: map<string, nat>, cs: ChangeSet, flags: Flags, a: Answers): (Report, World)
    requires PlansFit(cfg, w, cs.edges) && |cs.dns| <= |cfg.dns|
  {
    match Refusal(cfg, w, cs, flags, a)
    case Some(rep) => (rep, w)
    case None =>
      if SnapshotsFail(cs.edges, a) then (Untouched(false, Some(SnapshotFailed)), w)
      else
        BuiltFit(cfg, w, depth, cs);
        ExecutedOp(cfg, w, BuildSteps(cfg, w, depth, cs), cs.op, cs.edges, flags, a)
  }

  lemma {:induction false} EdgeStepsFit(cfg: Config, w: World, depth: map<string, nat>, edges: seq<EdgePlan>)
    requires PlansFit(cfg, w, edges)
    ensures forall s :: s in EdgeSteps(cfg, w, depth, edges) ==> StepFits(w, s) && EdgeStepSound(cfg, w, edges, s)
  {
    if edges != [] {
      var init, last := edges[..|edges| - 1], edges[|edges| - 1];
      EdgeStepsFit(cfg, w, depth, init);
      assert forall p :: p in init ==> p in edges;
      assert last in edges;
    }
  }

  /** An edge step carries a planned change and its inverse on this world. */
  ghost predicate EdgeStepSound(cfg: Config, w: World, edges: seq<EdgePlan>, s: Step)
    requires PlansFit(cfg, w, edges)
  {
    s.target.EdgeAt? && exists p :: p in edges && CarriesPlan(w, p, s)
  }

  ghost predicate CarriesPlan(w: World, p: EdgePlan, s: Step) {
    && s.target == EdgeAt(p.edge) && p.edge < |w.edges| && !EmptyEdge(p.change)
    && s.fwd == OnEdge(p.change) && s.inv == OnEdge(InvertEdge(p.change, w.edges[p.edge]))
  }

  lemma {:induction false} DnsStepsFit(cfg: Config, w: World, dns: seq<DnsChange>)
    requires Fits(cfg, w) && |dns| <= |cfg.dns|
    ensures forall s :: s in DnsSteps(cfg, dns) ==> StepFits(w, s) && s.target.DnsAt?
  {
    if dns != [] {
      DnsStepsFit(cfg, w, dns[..|dns| - 1]);
    }
  }

  lemma BuiltFit(cfg: Config, w: World, depth: map<string, nat>, cs: ChangeSet)
    requires PlansFit(cfg, w, cs.edges) && |cs.dns| <= |cfg.dns|
    ensures StepsFit(w, BuildSteps(cfg, w, depth, cs))
    ensures forall s :: s in BuildSteps(cfg, w, depth, cs) && s.target.EdgeAt? ==> EdgeStepSound(cfg, w, cs.edges, s)
  {
    var raw := EdgeSteps(cfg, w, depth, cs.edges) + DnsSteps(cfg, cs.dns);
    EdgeStepsFit(cfg, w, depth, cs.edges);
    DnsStepsFit(cfg, w, cs.dns);
    SortKeeps(cs.op.verb == Expose, raw);
    forall i | 0 <= i < |BuildSteps(cfg, w, depth, cs)| ensures StepFits(w, BuildSteps(cfg, w, depth, cs)[i]) {
      assert BuildSteps(cfg, w, depth, cs)[i] in raw;
    }
  }

  // ----- what the flow guarantees -----

  /** A run leaves the world alone and applies nothing, or the gate admits it and it executes
      the built steps. */
  lemma RunsOrRefuses(cfg: Config, w: World, depth: map<string, nat>, cs: ChangeSet, flags: Flags, a: Answers)
    requires PlansFit(cfg, w, cs.edges) && |cs.dns| <= |cfg.dns|
    ensures StepsFit(w, BuildSteps(cfg, w, depth, cs))
    ensures var o := Outcome(cfg, w, depth, cs, flags, a);
      || (o.1 == w && !o.0.applied && !o.0.rolledBack)
      || (GateOwnership(cfg, w, cs.op, cs.edges, flags.force)
          && o == ExecutedOp(cfg, w, BuildSteps(cfg, w, depth, cs), cs.op, cs.edges, flags, a))
  {
    hide ExecutedOp, BuildSteps, StepsFit, GateOwnership;
    BuiltFit(cfg, w, depth, cs);
  }

  /** Every planned edge and every provider shows the operation done. */
  ghost predicate AllShow(cfg: Config, op: Op, edges: seq<EdgePlan>, w: World)
    requires PlansFit(cfg, w, edges)
  {
    && (forall j :: 0 <= j < |edges| ==> EdgeShows(op, edges[j].change, w.edges[edges[j].edge]))
    && (forall i :: 0 <= i < |cfg.dns| ==> ProviderShows(op, cfg.dns[i], w.dns[i]))
  }

  /** The read-back accepts a world exactly when every provider it asks could be re-read and shows
      the operation done, and no probe of a running daemon failed. */
  lemma ReadsBackIff(cfg: Config, op: Op, edges: seq<EdgePlan>, w: World, a: Answers)
    requires PlansFit(cfg, w, edges)
    ensures ReadsBack(cfg, op, edges, w, a) <==> AllShow(cfg, op, edges, w) && Asked(cfg, op, edges, a)
  {
    hide EdgeVerified, DnsVerified, EdgeShows, ProviderShows, Covers, NamedIn;
    forall j | 0 <= j < |edges|
      ensures EdgeVerified(op, edges[j].change, w.edges[edges[j].edge]) <==> EdgeShows(op, edges[j].change, w.edges[edges[j].edge])
    {
      EdgeVerifiedIff(op, edges[j].change, w.edges[edges[j].edge]);
    }
    forall i | 0 <= i < |cfg.dns|
      ensures DnsReadsBack(op, cfg.dns[i], i, w.dns[i], a) <==>
        ProviderShows(op, cfg.dns[i], w.dns[i]) && (Concerned(op, cfg.dns[i]) ==> !a.rereadFails(DnsAt(i)))
    {
      ReadsProviderIff(op, cfg.dns[i], i, w.dns[i], a);
    }
  }

  lemma ReadsProviderIff(op: Op, dp: DnsProvider, i: nat, zone: Zone, a: Answers)
    ensures DnsReadsBack(op, dp, i, zone, a) <==> ProviderShows(op, dp, zone) && (Concerned(op, dp) ==> !a.rereadFails(DnsAt(i)))
  {
    DnsVerifiedIff(op, dp, zone);
    CoversIff(dp, op.host);
  }

  /** The read-back asks a provider whose scope is appointed and whose zone has the host. */
  ghost predicate Concerned(op: Op, dp: DnsProvider) {
    (op.scopes == [] || dp.scope in op.scopes) && NamedIn(op.host, dp.zone)
  }

  /** Every provider the read-back asks could be re-read, and no daemon turned out to run something else. */
  ghost predicate Asked(cfg: Config, op: Op, edges: seq<EdgePlan>, a: Answers) {
    && (forall j :: 0 <= j < |edges| ==> !a.rereadFails(EdgeAt(edges[j].edge)) && a.runtime(edges[j].edge) != Failed)
    && (forall i :: 0 <= i < |cfg.dns| && Concerned(op, cfg.dns[i]) ==> !a.rereadFails(DnsAt(i)))
  }

  /** No silent green: whatever the providers did and reported, a run that ends applied and
      without failure has re-read a world that shows the operation done, on every provider it
      asked, with no probe of a running daemon failed or, unless accepted, missing. */
  lemma NoSilentGreen(cfg: Config, w: World, depth: map<string, nat>, cs: ChangeSet, flags: Flags, a: Answers, o: (Report, World))
    requires PlansFit(cfg, w, cs.edges) && |cs.dns| <= |cfg.dns|
    requires o == Outcome(cfg, w, depth, cs, flags, a) && o.0.applied && o.0.failure.None?
    ensures PlansFit(cfg, o.1, cs.edges)
    // On every planned edge: the deny, and the host reachable, gone or moved.
    ensures forall j :: 0 <= j < |cs.edges| ==> o.1.edges[cs.edges[j].edge].deny
    ensures cs.op.verb == Expose ==> forall j :: 0 <= j < |cs.edges| ==> Find(o.1.edges[cs.edges[j].edge].routes, cs.op.host).Some?
    ensures cs.op.verb == Unexpose ==> forall j :: 0 <= j < |cs.edges| ==> Find(o.1.edges[cs.edges[j].edge].routes, cs.op.host).None?
    ensures cs.op.verb == Rename ==> forall j :: 0 <= j < |cs.edges| ==> var routes := o.1.edges[cs.edges[j].edge].routes;
      && (forall r :: r in cs.edges[j].change.adds ==> Find(routes, r.host).Some?)
      && (forall h :: h in cs.edges[j].change.removes ==> Find(routes, h).None?)
    // Every route written there answers under its policy, "" and the opt-out being one, and over TLS where planned.
    ensures forall j, r :: 0 <= j < |cs.edges| && r in cs.edges[j].change.adds && r.upstream.mode != MeshGrant ==>
      var now := Find(o.1.edges[cs.edges[j].edge].routes, r.host);
      now.Some? && (now.value.upstream.auth == r.upstream.auth || {now.value.upstream.auth, r.upstream.auth} <= {"", "none"})
    ensures forall j, r :: 0 <= j < |cs.edges| && r in cs.edges[j].change.adds && r.upstream.tls ==>
      var now := Find(o.1.edges[cs.edges[j].edge].routes, r.host);
      now.Some? && now.value.upstream.tls
    // At every appointed provider whose zone has the host, the last record there is the target's, or there is none.
    ensures forall i :: 0 <= i < |cfg.dns| && Concerned(cs.op, cfg.dns[i]) ==>
      var last := LastAt(o.1.dns[i], Key(cfg.dns[i].scope, AddressType(cfg.dns[i]), cs.op.host));
      && (cs.op.verb == Expose ==> last.Some? && last.value.value == cfg.dns[i].target)
      && (cs.op.verb == Unexpose ==> last.None?)
      && cs.op.verb != Rename
    ensures forall j :: 0 <= j < |cs.edges| ==> a.runtime(cs.edges[j].edge) != Failed
    ensures forall j :: 0 <= j < |cs.edges| && a.runtime(cs.edges[j].edge) == Unavailable ==> flags.allowUnverified
  {
    hide Outcome, ExecutedOp, ReadsBack, Unavailables, BuildSteps, EdgeShows, ProviderShows, Concerned;
    RunsOrRefuses(cfg, w, depth, cs, flags, a);
    GreenIsRead(cfg, w, BuildSteps(cfg, w, depth, cs), cs.op, cs.edges, flags, a);
    ReadsBackIff(cfg, cs.op, cs.edges, o.1, a);
    NoneUnavailable(cs.edges, a);
    forall j | 0 <= j < |cs.edges| {
      EdgeShown(cs.op, cs.edges[j].change, o.1.edges[cs.edges[j].edge]);
    }
    forall i | 0 <= i < |cfg.dns| && Concerned(cs.op, cfg.dns[i]) {
      ProviderShown(cs.op, cfg.dns[i], o.1.dns[i]);
    }
  }

  lemma EdgeShown(op: Op, c: EdgeChange, live: LiveEdge)
    requires EdgeShows(op, c, live)
    ensures live.deny
    ensures op.verb == Expose ==> Find(live.routes, op.host).Some?
    ensures op.verb == Unexpose ==> Find(live.routes, op.host).None?
    ensures op.verb == Rename ==>
      (forall r :: r in c.adds ==> Find(live.routes, r.host).Some?) && forall h :: h in c.removes ==> Find(live.routes, h).None?
    ensures forall r :: r in c.adds && r.upstream.mode != MeshGrant ==>
      var now := Find(live.routes, r.host);
      now.Some? && (now.value.upstream.auth == r.upstream.auth || {now.value.upstream.auth, r.upstream.auth} <= {"", "none"})
    ensures forall r :: r in c.adds && r.upstream.tls ==> var now := Find(live.routes, r.host); now.Some? && now.value.upstream.tls
  {
    hide FirstRoute, HasRoute;
    forall h ensures HasRoute(live, h) <==> Find(live.routes, h).Some? {
      HasRouteIff(live, h);
    }
    forall h, q ensures FirstRoute(live.routes, h, q) <==> Find(live.routes, h) == Some(q) {
      FirstRouteIff(live.routes, h, q);
    }
  }

  lemma ProviderShown(op: Op, dp: DnsProvider, zone: Zone)
    requires ProviderShows(op, dp, zone) && Concerned(op, dp)
    ensures var last := LastAt(zone, Key(dp.scope, AddressType(dp), op.host));
      && (op.verb == Expose ==> last.Some? && last.value.value == dp.target)
      && (op.verb == Unexpose ==> last.None?)
      && op.verb != Rename
  {
    LastAtListed(zone, Key(dp.scope, AddressType(dp), op.host));
  }

  lemma GreenIsRead(cfg: Config, w: World, steps: seq<Step>, op: Op, edges: seq<EdgePlan>, flags: Flags, a: Answers)
    requires PlansFit(cfg, w, edges) && StepsFit(w, steps)
    requires ExecutedOp(cfg, w, steps, op, edges, flags, a).0.failure.None?
    ensures PlansFit(cfg, ExecutedOp(cfg, w, steps, op, edges, flags, a).1, edges)
    ensures ReadsBack(cfg, op, edges, ExecutedOp(cfg, w, steps, op, edges, flags, a).1, a)
    ensures flags.allowUnverified || Unavailables(edges, a) == []
  {
  }

  /** The probes that were missing are listed in plan order, each once. */
  lemma {:induction false} ProbesListed(edges: seq<EdgePlan>, more: seq<EdgePlan>, p: EdgePlan, a: Answers)
    ensures Unavailables([p], a) == if a.runtime(p.edge) == Unavailable then [p.edge] else []
    ensures Unavailables(edges + more, a) == Unavailables(edges, a) + Unavailables(more, a)
  {
    assert [p][..0] == [];
    if more == [] {
      assert edges + more == edges && Unavailables(edges, a) + [] == Unavailables(edges, a);
    } else {
      assert (edges + more)[..|edges + more| - 1] == edges + more[..|more| - 1];
      ProbesListed(edges, more[..|more| - 1], p, a);
    }
  }

  lemma {:induction false} NoneUnavailable(edges: seq<EdgePlan>, a: Answers)
    ensures Unavailables(edges, a) == [] <==> forall j :: 0 <= j < |edges| ==> a.runtime(edges[j].edge) != Unavailable
  {
    if edges != [] {
      NoneUnavailable(edges[..|edges| - 1], a);
    }
  }

  /** Every other ending after a step was accepted goes through rollback, in reverse, with
      all the steps applied; every ending before the first step leaves the world alone. */
  lemma OtherwiseRollsBack(cfg: Config, w: World, depth: map<string, nat>, cs: ChangeSet, flags: Flags, a: Answers, o: (Report, World))
    requires PlansFit(cfg, w, cs.edges) && |cs.dns| <= |cfg.dns|
    requires o == Outcome(cfg, w, depth, cs, flags, a)
    ensures StepsFit(w, BuildSteps(cfg, w, depth, cs))
    ensures (o.1 == w && !o.0.applied && !o.0.rolledBack) || Ended(w, BuildSteps(cfg, w, depth, cs), flags, a.env, o)
  {
    RunsOrRefuses(cfg, w, depth, cs, flags, a);
    if o.1 != w || o.0.applied || o.0.rolledBack {
      var steps := BuildSteps(cfg, w, depth, cs);
      ExecutedEnds(w, steps, a.env, flags, ReadsBack(cfg, cs.op, cs.edges, Stopped(w, steps, a.env), a), Unavailables(cs.edges, a));
    }
  }

  /** All steps applied and no failure; or a failure and, with rollback enabled and some step
      applied, the reverse compensation of all the applied ones. */
  ghost predicate Ended(w: World, steps: seq<Step>, flags: Flags, env: Env, o: (Report, World))
    requires StepsFit(w, steps)
  {
    var k, w1 := Stops(steps, env), Stopped(w, steps, env);
    && (o.0.applied <==> k == |steps|)
    && (o.0.failure.None? ==> k == |steps| && !o.0.rolledBack && o.1 == w1)
    && (o.0.failure.Some? ==> (o.0.rolledBack <==> flags.rollback && k > 0))
    && (o.0.rolledBack ==> RolledBackTo(w1, steps[..k], env, o))
    && (!o.0.rolledBack ==> o.1 == w1)
  }

  ghost predicate RolledBackTo(w1: World, applied: seq<Step>, env: Env, o: (Report, World)) {
    StepsFit(w1, applied) && o.1 == Back(w1, applied, env, 0) && o.0.errors == RollbackErrors(applied, env, 0)
  }

  lemma ExecutedEnds(w: World, steps: seq<Step>, env: Env, flags: Flags, ok: bool, unavailable: seq<nat>)
    requires StepsFit(w, steps)
    ensures Ended(w, steps, flags, env, Executed(w, steps, env, flags, ok, unavailable))
  {
    assert steps[..|steps|] == steps;
  }

  /** With honest providers and changes that can be undone, a failed run whose rollback
      reports no error leaves every provider answering exactly as before. */
  lemma FailedRunRestores(cfg: Config, w: World, depth: map<string, nat>, cs: ChangeSet, flags: Flags, a: Answers,
                          o: (Report, World), t: Target)
    requires PlansFit(cfg, w, cs.edges) && |cs.dns| <= |cfg.dns| && Within(w, t)
    requires flags.rollback && Honest(a.env)
    requires Undoable(w, BuildSteps(cfg, w, depth, cs))
    requires o == Outcome(cfg, w, depth, cs, flags, a) && o.0.failure.Some? && t !in o.0.errors
    ensures Within(o.1, t) && SameAnswers(Get(w, t), Get(o.1, t))
  {
    OtherwiseRollsBack(cfg, w, depth, cs, flags, a, o);
    if o.1 == w {
      SameAsItself(Get(w, t));
    } else {
      EndedRestores(w, BuildSteps(cfg, w, depth, cs), flags, a.env, o, t);
    }
  }

  lemma EndedRestores(w: World, steps: seq<Step>, flags: Flags, env: Env, o: (Report, World), t: Target)
    requires Undoable(w, steps) && Honest(env) && flags.rollback && Within(w, t)
    requires Ended(w, steps, flags, env, o) && o.0.failure.Some? && t !in o.0.errors
    ensures Within(o.1, t) && SameAnswers(Get(w, t), Get(o.1, t))
  {
    var k := Stops(steps, env);
    RefusedChangesNothing(w, steps, env);
    if k == 0 {
      SameAsItself(Get(w, t));
    } else {
      RollbackRestores(w, steps, env, k, t);
    }
  }

  lemma SameAsItself(s: Slot)
    ensures SameAnswers(s, s)
  {
  }

  /** An honest provider that refuses leaves the world as the steps before it left it. */
  lemma RefusedChangesNothing(w: World, steps: seq<Step>, env: Env)
    requires StepsFit(w, steps) && Honest(env)
    ensures Stopped(w, steps, env) == Forward(w, steps, env, Stops(steps, env))
  {
    var k := Stops(steps, env);
    if k < |steps| {
      var w1, t := Forward(w, steps, env, k), steps[k].target;
      assert env.onDo(t) == Refused;
      match t
      case EdgeAt(i) => assert w1.edges[i := w1.edges[i]] == w1.edges;
      case DnsAt(i) => assert w1.dns[i := w1.dns[i]] == w1.dns;
    }
  }

  /** Ownership safety over whole runs: of all the changes a run can hand an edge, forward or
      compensating, in any flow that asks the gate of the world its steps are built on, none
      reaches a generator-owned edge or touches a route owned elsewhere, if the edge's index
      hides no owner. A file that adopts builds its steps on another world:
      DeclarativeRun.FileTouchesOnlyItsOwn. */
  lemma RunTouchesOnlyItsOwn(cfg: Config, w: World, depth: map<string, nat>, cs: ChangeSet, force: bool, s: Step)
    requires PlansFit(cfg, w, cs.edges) && |cs.dns| <= |cfg.dns|
    requires GateOwnership(cfg, w, cs.op, cs.edges, force)
    requires s in BuildSteps(cfg, w, depth, cs) && s.target.EdgeAt?
    requires s.target.edge < |w.edges| ==> OwnersAgree(w.edges[s.target.edge], force)
    ensures s.target.edge < |w.edges| && s.fwd.OnEdge? && s.inv.OnEdge?
    ensures SafeTouch(w.edges[s.target.edge], s.fwd.edgeChange, force)
    ensures SafeTouch(w.edges[s.target.edge], s.inv.edgeChange, force)
  {
    BuiltFit(cfg, w, depth, cs);
    var p :| p in cs.edges && CarriesPlan(w, p, s);
    var j :| 0 <= j < |cs.edges| && cs.edges[j] == p;
    GateIsSafe(w.edges[p.edge], p.change, force);
  }

  lemma {:induction false} StopsAt(steps: seq<Step>, env: Env, k: nat)
    requires k <= |steps| && forall i :: 0 <= i < k ==> Accepted(env.onDo(steps[i].target))
    requires k < |steps| ==> !Accepted(env.onDo(steps[k].target))
    ensures Stops(steps, env) == k
  {
  }
}
