/** What the step order guarantees at every moment of an expose or unexpose, forward and
    during rollback (internal/core/apply.go). */
module Orders {
  import opened Model
  import opened Zones
  import T = Topology
  import opened Planner
  import opened Steps
  import opened Runs

  function NoChange(t: Target): Change {
    if t.EdgeAt? then OnEdge(NoEdgeChange) else OnDns(NoDnsChange)
  }

  predicate Known(cfg: Config, t: Target) {
    match t
    case EdgeAt(i) => i < |cfg.edges|
    case DnsAt(i) => i < |cfg.dns|
  }

  /** The providers an operation concerns. */
  predicate Concerns(cfg: Config, op: Op, t: Target) {
    Known(cfg, t) &&
    match t
    case EdgeAt(i) => TakesPart(cfg, op, i)
    case DnsAt(i) => DnsTakesPart(cfg, op, cfg.dns[i])
  }

  /** What the planner would still change at a provider in a given state. */
  function PlannedAt(cfg: Config, op: Op, t: Target, s: Slot): Result<Change>
    requires Known(cfg, t) && SlotFits(t, s)
  {
    match t
    case EdgeAt(i) => (match PlanEdge(cfg, op, i, s.live) case Err => Err case Ok(c) => Ok(OnEdge(c)))
    case DnsAt(i) => (match PlanDns(cfg, op, cfg.dns[i], s.zone) case Err => Err case Ok(c) => Ok(OnDns(c)))
  }

  /** The provider shows what the operation wants of it. */
  predicate Satisfied(cfg: Config, op: Op, t: Target, s: Slot)
    requires Known(cfg, t) && SlotFits(t, s)
  {
    PlannedAt(cfg, op, t, s) == Ok(NoChange(t))
  }

  function RankAt(cfg: Config, t: Target): nat
    requires Known(cfg, t)
  {
    if t.EdgeAt? then RANK_EDGE else DnsRank(cfg.dns[t.dns].scope)
  }

  function DepthAt(cfg: Config, depth: map<string, nat>, t: Target): nat
    requires Known(cfg, t)
  {
    if t.EdgeAt? && cfg.edges[t.edge].name in depth then depth[cfg.edges[t.edge].name] else 0
  }

  /** AdGuard zones hold rewrites typed by their answers. */
  ghost predicate ZonesTyped(cfg: Config, w: World) {
    Fits(cfg, w) && forall i :: 0 <= i < |cfg.dns| ==> WellTyped(cfg.dns[i], w.dns[i])
  }

  // ----- the steps of a planned operation -----

  /** An entry of the plan is what its edge's planner says. */
  ghost predicate EntryPlanned(cfg: Config, w: World, op: Op, p: EdgePlan)
    requires Fits(cfg, w)
  {
    p.edge < |cfg.edges| && TakesPart(cfg, op, p.edge) && PlanEdge(cfg, op, p.edge, w.edges[p.edge]) == Ok(p.change)
  }

  ghost predicate Listed(ps: seq<EdgePlan>, edge: nat) {
    exists j :: 0 <= j < |ps| && ps[j].edge == edge
  }

  lemma {:induction false} PlanEdgesListed(cfg: Config, w: World, op: Op, n: nat)
    requires Fits(cfg, w) && n <= |cfg.edges| && PlanEdges(cfg, w, op, n).Ok?
    ensures forall p :: p in PlanEdges(cfg, w, op, n).value ==> EntryPlanned(cfg, w, op, p) && p.edge < n
    ensures forall i :: 0 <= i < n && TakesPart(cfg, op, i) ==> Listed(PlanEdges(cfg, w, op, n).value, i)
  {
    if n > 0 {
      PlanEdgesListed(cfg, w, op, n - 1);
      var rest, ps := PlanEdges(cfg, w, op, n - 1).value, PlanEdges(cfg, w, op, n).value;
      forall i | 0 <= i < n && TakesPart(cfg, op, i) ensures Listed(ps, i) {
        if i < n - 1 {
          var j :| 0 <= j < |rest| && rest[j].edge == i;
          assert ps[j] == rest[j];
        } else {
          assert ps[|rest|].edge == i;
        }
      }
    }
  }

  ghost predicate Increasing(ps: seq<EdgePlan>) {
    forall j, k :: 0 <= j < k < |ps| ==> ps[j].edge < ps[k].edge
  }

  lemma {:induction false} PlanEdgesIncreasing(cfg: Config, w: World, op: Op, n: nat)
    requires Fits(cfg, w) && n <= |cfg.edges| && PlanEdges(cfg, w, op, n).Ok?
    ensures Increasing(PlanEdges(cfg, w, op, n).value)
    ensures forall j :: 0 <= j < |PlanEdges(cfg, w, op, n).value| ==> PlanEdges(cfg, w, op, n).value[j].edge < n
  {
    if n > 0 {
      PlanEdgesIncreasing(cfg, w, op, n - 1);
    }
  }

  lemma {:induction false} PlanAllDnsListed(cfg: Config, w: World, op: Op, n: nat)
    requires Fits(cfg, w) && n <= |cfg.dns| && PlanAllDns(cfg, w, op, n).Ok?
    ensures |PlanAllDns(cfg, w, op, n).value| == n
    ensures forall i :: 0 <= i < n ==> PlanDns(cfg, op, cfg.dns[i], w.dns[i]) == Ok(PlanAllDns(cfg, w, op, n).value[i])
  {
    if n > 0 {
      PlanAllDnsListed(cfg, w, op, n - 1);
    }
  }

  /** A step is the planned, non-empty change of a provider the operation concerns. */
  ghost predicate IsPlanned(cfg: Config, w: World, depth: map<string, nat>, op: Op, s: Step)
    requires Fits(cfg, w)
  {
    && Concerns(cfg, op, s.target) && SlotFits(s.target, Get(w, s.target)) && ChangeFits(s.target, s.fwd)
    && PlannedAt(cfg, op, s.target, Get(w, s.target)) == Ok(s.fwd) && s.fwd != NoChange(s.target)
    && s.rank == RankAt(cfg, s.target) && s.depth == DepthAt(cfg, depth, s.target)
    && s.inv == InverseOf(Get(w, s.target), s.fwd)
  }

  ghost predicate AllPlanned(cfg: Config, w: World, depth: map<string, nat>, op: Op, steps: seq<Step>)
    requires Fits(cfg, w)
  {
    forall s :: s in steps ==> IsPlanned(cfg, w, depth, op, s)
  }

  /** Every concerned provider not yet satisfied has a step. */
  ghost predicate AllCovered(cfg: Config, w: World, op: Op, steps: seq<Step>)
    requires Fits(cfg, w)
  {
    forall t :: Concerns(cfg, op, t) && !Satisfied(cfg, op, t, Get(w, t)) ==> HasStep(steps, t)
  }

  ghost predicate HasStep(steps: seq<Step>, t: Target) {
    exists s :: s in steps && s.target == t
  }

  lemma {:induction false} EdgeStepsPlanned(cfg: Config, w: World, depth: map<string, nat>, op: Op, ps: seq<EdgePlan>)
    requires PlansFit(cfg, w, ps) && forall p :: p in ps ==> EntryPlanned(cfg, w, op, p)
    ensures AllPlanned(cfg, w, depth, op, EdgeSteps(cfg, w, depth, ps))
    ensures forall s :: s in EdgeSteps(cfg, w, depth, ps) ==> s.target.EdgeAt?
  {
    if ps != [] {
      var init, last := ps[..|ps| - 1], ps[|ps| - 1];
      assert forall p :: p in init ==> p in ps;
      EdgeStepsPlanned(cfg, w, depth, op, init);
      assert last in ps;
      assert IsPlanned(cfg, w, depth, op, EdgeStep(last, DepthAt(cfg, depth, EdgeAt(last.edge)), w.edges[last.edge]))
        || EmptyEdge(last.change);
    }
  }

  lemma {:induction false} EdgeStepsDistinct(cfg: Config, w: World, depth: map<string, nat>, ps: seq<EdgePlan>, n: nat)
    requires PlansFit(cfg, w, ps) && Increasing(ps) && forall j :: 0 <= j < |ps| ==> ps[j].edge < n
    ensures DistinctTargets(EdgeSteps(cfg, w, depth, ps))
    ensures forall s :: s in EdgeSteps(cfg, w, depth, ps) ==> s.target.EdgeAt? && s.target.edge < n
  {
    if ps != [] {
      var init, last := ps[..|ps| - 1], ps[|ps| - 1];
      EdgeStepsDistinct(cfg, w, depth, init, last.edge);
      var rest := EdgeSteps(cfg, w, depth, init);
      assert forall i :: 0 <= i < |rest| ==> rest[i] in rest;
    }
  }

  lemma {:induction false} EdgeStepsCover(cfg: Config, w: World, depth: map<string, nat>, ps: seq<EdgePlan>, j: nat)
    requires PlansFit(cfg, w, ps) && j < |ps| && !EmptyEdge(ps[j].change)
    ensures HasStep(EdgeSteps(cfg, w, depth, ps), EdgeAt(ps[j].edge))
  {
    var init, all := ps[..|ps| - 1], EdgeSteps(cfg, w, depth, ps);
    if j < |ps| - 1 {
      EdgeStepsCover(cfg, w, depth, init, j);
      var s :| s in EdgeSteps(cfg, w, depth, init) && s.target == EdgeAt(init[j].edge);
      assert s in all;
    } else {
      assert all[|all| - 1] in all && all[|all| - 1].target == EdgeAt(ps[j].edge);
    }
  }

  lemma DnsStepIsPlanned(cfg: Config, w: World, depth: map<string, nat>, op: Op, i: nat, c: DnsChange)
    requires Fits(cfg, w) && i < |cfg.dns| && PlanDns(cfg, op, cfg.dns[i], w.dns[i]) == Ok(c) && !EmptyDns(c)
    ensures IsPlanned(cfg, w, depth, op, DnsStep(i, cfg.dns[i].scope, c))
  {
  }

  lemma {:induction false} DnsStepsPlanned(cfg: Config, w: World, depth: map<string, nat>, op: Op, dns: seq<DnsChange>)
    requires Fits(cfg, w) && |dns| <= |cfg.dns|
    requires forall i :: 0 <= i < |dns| ==> PlanDns(cfg, op, cfg.dns[i], w.dns[i]) == Ok(dns[i])
    ensures AllPlanned(cfg, w, depth, op, DnsSteps(cfg, dns)) && DistinctTargets(DnsSteps(cfg, dns))
    ensures forall s :: s in DnsSteps(cfg, dns) ==> s.target.DnsAt? && s.target.dns < |dns|
  {
    hide PlanDns, IsPlanned;
    if dns != [] {
      var n := |dns| - 1;
      DnsStepsPlanned(cfg, w, depth, op, dns[..n]);
      var rest := DnsSteps(cfg, dns[..n]);
      assert forall i :: 0 <= i < |rest| ==> rest[i] in rest;
      if !EmptyDns(dns[n]) {
        DnsStepIsPlanned(cfg, w, depth, op, n, dns[n]);
      }
    }
  }

  lemma {:induction false} DnsStepsCover(cfg: Config, dns: seq<DnsChange>, j: nat)
    requires |dns| <= |cfg.dns| && j < |dns| && !EmptyDns(dns[j])
    ensures HasStep(DnsSteps(cfg, dns), DnsAt(j))
  {
    var init, all := dns[..|dns| - 1], DnsSteps(cfg, dns);
    if j < |dns| - 1 {
      DnsStepsCover(cfg, init, j);
      var s :| s in DnsSteps(cfg, init) && s.target == DnsAt(j);
      assert s in all;
    } else {
      assert all[|all| - 1] in all && all[|all| - 1].target == DnsAt(j);
    }
  }

  lemma {:induction false} InsertDistinct(ascending: bool, x: Step, ys: seq<Step>)
    requires DistinctTargets(ys) && forall i :: 0 <= i < |ys| ==> ys[i].target != x.target
    ensures DistinctTargets(Insert(ascending, x, ys))
  {
    hide Less;
    if ys != [] && Less(ascending, ys[0], x) {
      var rest := Insert(ascending, x, ys[1..]);
      InsertDistinct(ascending, x, ys[1..]);
      InsertMembers(ascending, x, ys[1..]);
      forall j | 0 <= j < |rest| ensures rest[j].target != ys[0].target {
        assert rest[j] in multiset(rest);
        assert rest[j] == x || rest[j] in ys[1..];
      }
    }
  }

  lemma {:induction false} SortDistinct(ascending: bool, xs: seq<Step>)
    requires DistinctTargets(xs)
    ensures DistinctTargets(Sort(ascending, xs))
  {
    if xs != [] {
      var rest := Sort(ascending, xs[1..]);
      SortDistinct(ascending, xs[1..]);
      SortMembers(ascending, xs[1..]);
      forall i | 0 <= i < |rest| ensures rest[i].target != xs[0].target {
        assert rest[i] in multiset(rest);
        assert rest[i] in xs[1..];
      }
      InsertDistinct(ascending, xs[0], rest);
    }
  }

  lemma SortKeeps(ascending: bool, xs: seq<Step>)
    ensures forall s :: s in Sort(ascending, xs) <==> s in xs
  {
    SortMembers(ascending, xs);
    forall s ensures s in Sort(ascending, xs) <==> s in xs {
      assert s in multiset(Sort(ascending, xs)) <==> s in multiset(xs);
    }
  }

  lemma RawDistinct(es: seq<Step>, ds: seq<Step>)
    requires DistinctTargets(es) && DistinctTargets(ds)
    requires (forall s :: s in es ==> s.target.EdgeAt?) && forall s :: s in ds ==> s.target.DnsAt?
    ensures DistinctTargets(es + ds)
  {
    assert forall i :: 0 <= i < |es| ==> es[i] in es;
    assert forall i :: 0 <= i < |ds| ==> ds[i] in ds;
  }

  lemma RawCovers(cfg: Config, w: World, depth: map<string, nat>, op: Op, cs: ChangeSet, t: Target)
    requires Fits(cfg, w) && Plan(cfg, w, op) == Ok(cs) && PlansFit(cfg, w, cs.edges) && |cs.dns| == |cfg.dns|
    requires Concerns(cfg, op, t) && !Satisfied(cfg, op, t, Get(w, t))
    ensures HasStep(EdgeSteps(cfg, w, depth, cs.edges), t) || HasStep(DnsSteps(cfg, cs.dns), t)
  {
    match t
    case EdgeAt(e) =>
      PlanEdgesListed(cfg, w, op, |cfg.edges|);
      var j :| 0 <= j < |cs.edges| && cs.edges[j].edge == e;
      assert cs.edges[j] in cs.edges;
      EdgeStepsCover(cfg, w, depth, cs.edges, j);
    case DnsAt(d) =>
      PlanAllDnsListed(cfg, w, op, |cfg.dns|);
      DnsStepsCover(cfg, cs.dns, d);
  }

  /** Before sorting. */
  lemma RawSteps(cfg: Config, w: World, depth: map<string, nat>, op: Op, cs: ChangeSet)
    requires Fits(cfg, w) && Plan(cfg, w, op) == Ok(cs) && PlansFit(cfg, w, cs.edges) && |cs.dns| == |cfg.dns|
    ensures var raw := EdgeSteps(cfg, w, depth, cs.edges) + DnsSteps(cfg, cs.dns);
      AllPlanned(cfg, w, depth, op, raw) && DistinctTargets(raw)
  {
    PlanEdgesListed(cfg, w, op, |cfg.edges|);
    PlanEdgesIncreasing(cfg, w, op, |cfg.edges|);
    PlanAllDnsListed(cfg, w, op, |cfg.dns|);
    EdgeStepsPlanned(cfg, w, depth, op, cs.edges);
    EdgeStepsDistinct(cfg, w, depth, cs.edges, |cfg.edges|);
    DnsStepsPlanned(cfg, w, depth, op, cs.dns);
    RawDistinct(EdgeSteps(cfg, w, depth, cs.edges), DnsSteps(cfg, cs.dns));
  }

  /** What the transaction relies on. */
  ghost predicate Runnable(cfg: Config, w: World, depth: map<string, nat>, op: Op, steps: seq<Step>)
    requires Fits(cfg, w)
  {
    && AllPlanned(cfg, w, depth, op, steps) && DistinctTargets(steps) && AllCovered(cfg, w, op, steps)
    && Sorted(op.verb == Expose, steps) && StepsFit(w, steps) && BuiltOn(w, steps)
  }

  lemma PlanFits(cfg: Config, w: World, op: Op)
    requires Fits(cfg, w) && Plan(cfg, w, op).Ok?
    ensures PlansFit(cfg, w, Plan(cfg, w, op).value.edges) && |Plan(cfg, w, op).value.dns| == |cfg.dns|
  {
    PlanEdgesIncreasing(cfg, w, op, |cfg.edges|);
    PlanAllDnsListed(cfg, w, op, |cfg.dns|);
  }

  /** The ordered steps of an operation that can be planned. */
  function StepsFor(cfg: Config, w: World, depth: map<string, nat>, op: Op): seq<Step>
    requires Fits(cfg, w) && Plan(cfg, w, op).Ok?
  {
    PlanFits(cfg, w, op);
    BuildSteps(cfg, w, depth, Plan(cfg, w, op).value)
  }

  /** The steps built from a plan are the planned changes, one per provider, all of them, in order. */
  lemma BuiltSteps(cfg: Config, w: World, depth: map<string, nat>, op: Op)
    requires Fits(cfg, w) && Plan(cfg, w, op).Ok?
    ensures Runnable(cfg, w, depth, op, StepsFor(cfg, w, depth, op))
  {
    PlanFits(cfg, w, op);
    var cs, ascending := Plan(cfg, w, op).value, op.verb == Expose;
    var raw, steps := EdgeSteps(cfg, w, depth, cs.edges) + DnsSteps(cfg, cs.dns), BuildSteps(cfg, w, depth, cs);
    RawSteps(cfg, w, depth, op, cs);
    SortDistinct(ascending, raw);
    SortSorted(ascending, raw);
    SortKeeps(ascending, raw);
    assert AllPlanned(cfg, w, depth, op, steps);
    forall i | 0 <= i < |steps| ensures IsPlanned(cfg, w, depth, op, steps[i]) {
      assert steps[i] in steps;
    }
    forall t | Concerns(cfg, op, t) && !Satisfied(cfg, op, t, Get(w, t)) ensures HasStep(steps, t) {
      RawCovers(cfg, w, depth, op, cs, t);
      var s :| s in raw && s.target == t;
      assert s in steps;
    }
  }

  // ----- what a step, and undoing it, does to satisfaction -----

  lemma AppliedSatisfies(cfg: Config, w: World, op: Op, t: Target, c: Change)
    requires ZonesTyped(cfg, w) && Concerns(cfg, op, t) && PlannedAt(cfg, op, t, Get(w, t)) == Ok(c)
    ensures ChangeFits(t, c) && Satisfied(cfg, op, t, Effect(Get(w, t), c))
  {
    match t
    case EdgeAt(i) => EdgePlanIsDelta(cfg, op, i, w.edges[i]);
    case DnsAt(i) => DnsPlanIsDelta(cfg, op, cfg.dns[i], w.dns[i]);
  }

  /** An edge's plan adds the host where it is missing or removes it where it is present. */
  lemma PlanEdgeShape(cfg: Config, op: Op, i: nat, live: LiveEdge, c: EdgeChange)
    requires i < |cfg.edges| && PlanEdge(cfg, op, i, live) == Ok(c) && !EmptyEdge(c)
    ensures op.verb == Expose ==> !HasHost(live, op.host) && c.removes == [] && |c.adds| == 1 && c.adds[0].host == op.host
    ensures op.verb == Unexpose ==> HasHost(live, op.host) && c == EdgeChange([], [op.host])
    ensures op.verb != Rename
  {
  }

  lemma EdgeUndoneUnsatisfied(cfg: Config, op: Op, i: nat, live: LiveEdge, c: EdgeChange)
    requires i < |cfg.edges| && PlanEdge(cfg, op, i, live) == Ok(c) && !EmptyEdge(c)
    ensures PlanEdge(cfg, op, i, ApplyEdge(ApplyEdge(live, c), InvertEdge(c, live))) != Ok(NoEdgeChange)
  {
    var back := ApplyEdge(ApplyEdge(live, c), InvertEdge(c, live));
    PlanEdgeShape(cfg, op, i, live, c);
    UndoneRoutes(live, c, op.host);
    assert HasHost(back, op.host) <==> op.verb == Unexpose by {
      if op.verb == Expose {
        assert Added(c.adds, op.host) == Some(c.adds[0]);
      }
    }
  }

  lemma AdGuardUndoneUnsatisfied(verb: Verb, zone: Zone, want: Record, c: DnsChange)
    requires AdGuardDiff(verb, zone, want) == Ok(c) && !EmptyDns(c)
    ensures AdGuardDiff(verb, ApplyDns(ApplyDns(zone, c), InvertDns(c)), want) != Ok(NoDnsChange)
  {
    var back := ApplyDns(ApplyDns(zone, c), InvertDns(c));
    if verb == Expose {
      LastByNameListed(zone, want.name);
      LastByNameListed(back, want.name);
      forall e | e in back && e.ours ensures e.rec.name != want.name {
        UndoneRecords(zone, c, e);
      }
    } else {
      ApplyOne(ApplyDns(zone, c), want);
      assert back[|back| - 1] == Entry(want, true);
    }
  }

  lemma CloudflareExposeUndone(zone: Zone, want: Record, c: DnsChange)
    requires CloudflareDiff(Expose, zone, want) == Ok(c) && !EmptyDns(c)
    ensures CloudflareDiff(Expose, ApplyDns(ApplyDns(zone, c), InvertDns(c)), want) != Ok(NoDnsChange)
  {
    hide ApplyDns, InvertDns;
    var back, key := ApplyDns(ApplyDns(zone, c), InvertDns(c)), KeyOf(want);
    OursAtNone(back, key);
    forall e | e in back ensures !Hits(e, key) {
      UndoneRecords(zone, c, e);
      assert want in c.adds;
    }
  }

  lemma CloudflareUnexposeUndone(zone: Zone, want: Record, c: DnsChange)
    requires CloudflareDiff(Unexpose, zone, want) == Ok(c) && !EmptyDns(c)
    ensures CloudflareDiff(Unexpose, ApplyDns(ApplyDns(zone, c), InvertDns(c)), want) != Ok(NoDnsChange)
  {
    hide ApplyDns, InvertDns;
    var back, key, r := ApplyDns(ApplyDns(zone, c), InvertDns(c)), KeyOf(want), c.removes[0];
    OursAtNone(back, key);
    OursAtMembers(zone, key, r);
    assert r in c.removes && HasKey(c.removes, key);
    AddedRecordIsListed(c.removes, key);
    var last := AddedRecord(c.removes, key).value;
    UndoneRecords(zone, c, Entry(last, true));
    assert Hits(Entry(last, true), key);
  }

  lemma CloudflareUndoneUnsatisfied(verb: Verb, zone: Zone, want: Record, c: DnsChange)
    requires CloudflareDiff(verb, zone, want) == Ok(c) && !EmptyDns(c)
    ensures CloudflareDiff(verb, ApplyDns(ApplyDns(zone, c), InvertDns(c)), want) != Ok(NoDnsChange)
  {
    hide ApplyDns, InvertDns;
    if verb == Expose {
      CloudflareExposeUndone(zone, want, c);
    } else {
      assert verb == Unexpose;
      CloudflareUnexposeUndone(zone, want, c);
    }
  }

  lemma UndoneUnsatisfied(cfg: Config, w: World, op: Op, t: Target, c: Change)
    requires Fits(cfg, w) && Concerns(cfg, op, t) && PlannedAt(cfg, op, t, Get(w, t)) == Ok(c) && c != NoChange(t)
    ensures ChangeFits(t, c)
    ensures !Satisfied(cfg, op, t, Effect(Effect(Get(w, t), c), InverseOf(Get(w, t), c)))
  {
    match t
    case EdgeAt(i) => EdgeUndoneUnsatisfied(cfg, op, i, w.edges[i], c.edgeChange);
    case DnsAt(i) =>
      var dp := cfg.dns[i];
      if dp.kind == AdGuard {
        AdGuardUndoneUnsatisfied(op.verb, w.dns[i], Desired(dp, op.host), c.dnsChange);
      } else {
        CloudflareUndoneUnsatisfied(op.verb, w.dns[i], Desired(dp, op.host), c.dnsChange);
      }
  }

  // ----- order at every moment -----

  /** Provider `a` is served strictly before `b` in the direction the operation moves exposure. */
  predicate Precedes(cfg: Config, depth: map<string, nat>, op: Op, a: Target, b: Target)
    requires Known(cfg, a) && Known(cfg, b)
  {
    var ascending := op.verb == Expose;
    if RankAt(cfg, a) != RankAt(cfg, b) then
      (if ascending then RankAt(cfg, a) < RankAt(cfg, b) else RankAt(cfg, a) > RankAt(cfg, b))
    else if ascending then DepthAt(cfg, depth, a) > DepthAt(cfg, depth, b)
    else DepthAt(cfg, depth, a) < DepthAt(cfg, depth, b)
  }

  /** The compensator of a provider's step, if it has one, is neither skipped nor refused. */
  predicate CleanUndo(steps: seq<Step>, env: Env, t: Target) {
    forall i :: 0 <= i < |steps| && steps[i].target == t ==> Compensated(steps[i], env)
  }

  /** A run of an operation planned on `w`. */
  ghost predicate OpRun(cfg: Config, w: World, depth: map<string, nat>, op: Op, steps: seq<Step>, env: Env, st: Stage) {
    && ZonesTyped(cfg, w) && Plan(cfg, w, op).Ok? && steps == StepsFor(cfg, w, depth, op)
    && Honest(env) && ValidStage(steps, env, st)
  }

  lemma StepIsSatisfied(cfg: Config, w: World, depth: map<string, nat>, op: Op, steps: seq<Step>, env: Env, st: Stage, i: nat)
    requires OpRun(cfg, w, depth, op, steps, env, st) && Runnable(cfg, w, depth, op, steps) && i < |steps|
    ensures Concerns(cfg, op, steps[i].target) && Within(w, steps[i].target)
    ensures Satisfied(cfg, op, steps[i].target, Get(StageWorld(w, steps, env, st), steps[i].target))
       <==> InEffect(steps, env, st, i)
  {
    var s := steps[i];
    assert s in steps && IsPlanned(cfg, w, depth, op, s);
    StageAt(w, steps, env, st, i);
    AppliedSatisfies(cfg, w, op, s.target, s.fwd);
    UndoneUnsatisfied(cfg, w, op, s.target, s.fwd);
  }

  lemma StepsInOrder(cfg: Config, w: World, depth: map<string, nat>, op: Op, steps: seq<Step>, p: nat, q: nat)
    requires Fits(cfg, w) && Runnable(cfg, w, depth, op, steps) && p < |steps| && q < |steps|
    requires Known(cfg, steps[p].target) && Known(cfg, steps[q].target)
    requires Precedes(cfg, depth, op, steps[p].target, steps[q].target)
    ensures p < q
  {
    assert steps[p] in steps && steps[q] in steps;
    assert IsPlanned(cfg, w, depth, op, steps[p]) && IsPlanned(cfg, w, depth, op, steps[q]);
    assert Less(op.verb == Expose, steps[p], steps[q]);
  }

  /** At every moment, forward and during rollback, whoever else is wedged: if `b` has newly
      come to show what the operation wants of it, every `a` served before it shows it too. */
  lemma OrderHolds(cfg: Config, w: World, depth: map<string, nat>, op: Op, steps: seq<Step>, env: Env, st: Stage,
                   a: Target, b: Target)
    requires OpRun(cfg, w, depth, op, steps, env, st)
    requires Concerns(cfg, op, a) && Concerns(cfg, op, b) && Precedes(cfg, depth, op, a, b)
    requires CleanUndo(steps, env, b)
    requires !Satisfied(cfg, op, b, Get(w, b))
    ensures StepsFit(w, steps)
    ensures Satisfied(cfg, op, b, Get(StageWorld(w, steps, env, st), b)) ==>
            Satisfied(cfg, op, a, Get(StageWorld(w, steps, env, st), a))
  {
    hide StepsFor, Satisfied, InEffect, StageWorld;
    BuiltSteps(cfg, w, depth, op);
    var sb :| sb in steps && sb.target == b;
    var q :| 0 <= q < |steps| && steps[q] == sb;
    StepIsSatisfied(cfg, w, depth, op, steps, env, st, q);
    if InEffect(steps, env, st, q) {
      if p :| 0 <= p < |steps| && steps[p].target == a {
        StepsInOrder(cfg, w, depth, op, steps, p, q);
        LaterImpliesEarlier(steps, env, st, p, q);
        StepIsSatisfied(cfg, w, depth, op, steps, env, st, p);
      } else {
        assert !HasStep(steps, a);
        StageElsewhere(w, steps, env, st, a);
      }
    }
  }

  /** `front` forwards to `down` on a topology with exact depths. */
  ghost predicate ChainLink(cfg: Config, depth: map<string, nat>, front: nat, down: nat) {
    && front < |cfg.edges| && down < |cfg.edges|
    && T.Link(cfg.edges, cfg.edges[front].name, cfg.edges[down].name)
    && depth.Keys == T.Names(cfg.edges) && forall v :: v in depth ==> T.LongestRun(cfg.edges, v, depth[v])
  }

  lemma DownFirst(cfg: Config, depth: map<string, nat>, op: Op, front: nat, down: nat)
    requires ChainLink(cfg, depth, front, down)
    ensures op.verb == Expose ==> Precedes(cfg, depth, op, EdgeAt(down), EdgeAt(front))
    ensures op.verb != Expose ==> Precedes(cfg, depth, op, EdgeAt(front), EdgeAt(down))
  {
    assert cfg.edges[front].name in depth && cfg.edges[down].name in depth;
    T.DownstreamIsDeeper(cfg.edges, cfg.edges[front].name, cfg.edges[down].name,
                         depth[cfg.edges[front].name], depth[cfg.edges[down].name]);
  }

  /** On an acyclic chain a front's route newly stands only while its downstream's does,
      when the front's compensator neither is skipped nor fails. */
  lemma ChainExposeOrder(cfg: Config, w: World, depth: map<string, nat>, op: Op, steps: seq<Step>, env: Env, st: Stage,
                         front: nat, down: nat)
    requires OpRun(cfg, w, depth, op, steps, env, st) && op.verb == Expose
    requires Concerns(cfg, op, EdgeAt(front)) && Concerns(cfg, op, EdgeAt(down)) && ChainLink(cfg, depth, front, down)
    requires env.onUndo(EdgeAt(front)) == Done && !env.wedged(front)
    requires !HasHost(w.edges[front], op.host)
    ensures StepsFit(w, steps)
    ensures HasHost(StageWorld(w, steps, env, st).edges[front], op.host) ==>
            HasHost(StageWorld(w, steps, env, st).edges[down], op.host)
  {
    BuiltSteps(cfg, w, depth, op);
    DownFirst(cfg, depth, op, front, down);
    EdgeSatisfied(cfg, w, op, front, w.edges[front]);
    EdgeSatisfied(cfg, w, op, front, StageWorld(w, steps, env, st).edges[front]);
    EdgeSatisfied(cfg, w, op, down, StageWorld(w, steps, env, st).edges[down]);
    OrderHolds(cfg, w, depth, op, steps, env, st, EdgeAt(down), EdgeAt(front));
  }

  /** Unexposing mirrors it: the downstream's route has newly gone only once the front's has. */
  lemma ChainUnexposeOrder(cfg: Config, w: World, depth: map<string, nat>, op: Op, steps: seq<Step>, env: Env, st: Stage,
                           front: nat, down: nat)
    requires OpRun(cfg, w, depth, op, steps, env, st) && op.verb == Unexpose
    requires Concerns(cfg, op, EdgeAt(front)) && Concerns(cfg, op, EdgeAt(down)) && ChainLink(cfg, depth, front, down)
    requires env.onUndo(EdgeAt(down)) == Done && !env.wedged(down)
    requires HasHost(w.edges[down], op.host)
    ensures StepsFit(w, steps)
    ensures !HasHost(StageWorld(w, steps, env, st).edges[down], op.host) ==>
            !HasHost(StageWorld(w, steps, env, st).edges[front], op.host)
  {
    BuiltSteps(cfg, w, depth, op);
    DownFirst(cfg, depth, op, front, down);
    EdgeSatisfied(cfg, w, op, down, w.edges[down]);
    EdgeSatisfied(cfg, w, op, down, StageWorld(w, steps, env, st).edges[down]);
    EdgeSatisfied(cfg, w, op, front, StageWorld(w, steps, env, st).edges[front]);
    OrderHolds(cfg, w, depth, op, steps, env, st, EdgeAt(front), EdgeAt(down));
  }

  /** For an edge, being satisfied means routing the host, or not routing it. */
  lemma EdgeSatisfied(cfg: Config, w: World, op: Op, i: nat, live: LiveEdge)
    requires Fits(cfg, w) && Plan(cfg, w, op).Ok? && Concerns(cfg, op, EdgeAt(i)) && op.verb != Rename
    ensures Satisfied(cfg, op, EdgeAt(i), EdgeSlot(live)) <==> (HasHost(live, op.host) <==> op.verb == Expose)
  {
    PlanEdgesListed(cfg, w, op, |cfg.edges|);
    var j :| 0 <= j < |Plan(cfg, w, op).value.edges| && Plan(cfg, w, op).value.edges[j].edge == i;
    assert Plan(cfg, w, op).value.edges[j] in Plan(cfg, w, op).value.edges;
  }
}
