/** The steps built from any change set, whichever flow planned it, and the world an honest
    run of them ends in. */
module Changes {
  import opened Model
  import opened Zones
  import opened Planner
  import opened Steps
  import opened Runs
  import opened Orders
  import opened Flow

  /** At most one change per edge. */
  ghost predicate Proper(cfg: Config, w: World, cs: ChangeSet) {
    PlansFit(cfg, w, cs.edges) && Increasing(cs.edges) && |cs.dns| <= |cfg.dns|
  }

  lemma {:induction false} DnsStepsSound(cfg: Config, dns: seq<DnsChange>)
    requires |dns| <= |cfg.dns|
    ensures forall s :: s in DnsSteps(cfg, dns) ==> DnsStepSound(dns, s)
    ensures DistinctTargets(DnsSteps(cfg, dns))
  {
    if dns != [] {
      var n := |dns| - 1;
      DnsStepsSound(cfg, dns[..n]);
      var rest := DnsSteps(cfg, dns[..n]);
      assert forall i :: 0 <= i < |rest| ==> rest[i] in rest;
      assert EmptyDns(dns[n]) || DnsStepSound(dns, DnsStep(n, cfg.dns[n].scope, dns[n]));
    }
  }

  ghost predicate DnsStepSound(dns: seq<DnsChange>, s: Step) {
    s.target.DnsAt? && s.target.dns < |dns| && !EmptyDns(dns[s.target.dns])
    && s.fwd == OnDns(dns[s.target.dns]) && s.inv == OnDns(InvertDns(dns[s.target.dns]))
  }

  /** A built step is one of the two kinds. */
  ghost predicate StepSound(cfg: Config, w: World, cs: ChangeSet, s: Step)
    requires PlansFit(cfg, w, cs.edges)
  {
    EdgeStepSound(cfg, w, cs.edges, s) || DnsStepSound(cs.dns, s)
  }

  /** The built steps: one per changed provider, each the planned change with its inverse. */
  lemma BuiltSound(cfg: Config, w: World, depth: map<string, nat>, cs: ChangeSet)
    requires Proper(cfg, w, cs)
    ensures StepsFit(w, BuildSteps(cfg, w, depth, cs)) && DistinctTargets(BuildSteps(cfg, w, depth, cs))
    ensures forall s :: s in BuildSteps(cfg, w, depth, cs) ==> StepSound(cfg, w, cs, s)
    ensures BuiltOn(w, BuildSteps(cfg, w, depth, cs))
  {
    var steps := BuildSteps(cfg, w, depth, cs);
    BuiltDistinct(cfg, w, depth, cs);
    BuiltFit(cfg, w, depth, cs);
    EdgeStepsFit(cfg, w, depth, cs.edges);
    DnsStepsSound(cfg, cs.dns);
    forall i | 0 <= i < |steps| ensures steps[i].inv == InverseOf(Get(w, steps[i].target), steps[i].fwd) {
      assert steps[i] in steps;
      if steps[i].target.EdgeAt? {
        var p :| p in cs.edges && CarriesPlan(w, p, steps[i]);
      }
    }
  }

  lemma BuiltDistinct(cfg: Config, w: World, depth: map<string, nat>, cs: ChangeSet)
    requires Proper(cfg, w, cs)
    ensures DistinctTargets(BuildSteps(cfg, w, depth, cs))
    ensures forall s :: s in BuildSteps(cfg, w, depth, cs) <==>
      s in EdgeSteps(cfg, w, depth, cs.edges) || s in DnsSteps(cfg, cs.dns)
  {
    var es, ds := EdgeSteps(cfg, w, depth, cs.edges), DnsSteps(cfg, cs.dns);
    EdgeStepsDistinct(cfg, w, depth, cs.edges, |cfg.edges|);
    DnsStepsSound(cfg, cs.dns);
    RawDistinct(es, ds);
    SortDistinct(cs.op.verb == Expose, es + ds);
    SortKeeps(cs.op.verb == Expose, es + ds);
  }

  /** What a change set asks of one provider. */
  ghost predicate Asks(cs: ChangeSet, t: Target, c: Change) {
    match t
    case EdgeAt(i) => exists p :: p in cs.edges && p.edge == i && !EmptyEdge(p.change) && c == OnEdge(p.change)
    case DnsAt(i) => i < |cs.dns| && !EmptyDns(cs.dns[i]) && c == OnDns(cs.dns[i])
  }

  lemma AskedHasStep(cfg: Config, w: World, depth: map<string, nat>, cs: ChangeSet, t: Target, c: Change)
    requires Proper(cfg, w, cs) && Asks(cs, t, c)
    ensures HasStep(BuildSteps(cfg, w, depth, cs), t)
  {
    BuiltDistinct(cfg, w, depth, cs);
    match t
    case EdgeAt(i) =>
      var p :| p in cs.edges && p.edge == i && !EmptyEdge(p.change) && c == OnEdge(p.change);
      var j :| 0 <= j < |cs.edges| && cs.edges[j] == p;
      EdgeStepsCover(cfg, w, depth, cs.edges, j);
      var s :| s in EdgeSteps(cfg, w, depth, cs.edges) && s.target == t;
      assert s in BuildSteps(cfg, w, depth, cs);
    case DnsAt(i) =>
      DnsStepsCover(cfg, cs.dns, i);
      var s :| s in DnsSteps(cfg, cs.dns) && s.target == t;
      assert s in BuildSteps(cfg, w, depth, cs);
  }

  /** A step does what the change set asks of its provider, and nothing else is asked of it. */
  lemma StepAsked(cfg: Config, w: World, depth: map<string, nat>, cs: ChangeSet, s: Step)
    requires Proper(cfg, w, cs) && s in BuildSteps(cfg, w, depth, cs)
    ensures Asks(cs, s.target, s.fwd) && forall c :: Asks(cs, s.target, c) ==> c == s.fwd
  {
    BuiltSound(cfg, w, depth, cs);
    if s.target.EdgeAt? {
      var p :| p in cs.edges && CarriesPlan(w, p, s);
      forall q | q in cs.edges && q.edge == p.edge ensures q == p {
        var i, j :| 0 <= i < |cs.edges| && 0 <= j < |cs.edges| && cs.edges[i] == p && cs.edges[j] == q;
      }
    }
  }

  /** An honest run of all the steps leaves each provider as asked, and the others alone. */
  lemma HonestRunMakesChanges(cfg: Config, w: World, depth: map<string, nat>, cs: ChangeSet, steps: seq<Step>, env: Env, t: Target)
    requires Proper(cfg, w, cs) && steps == BuildSteps(cfg, w, depth, cs) && Within(w, t)
    requires Honest(env) && Stops(steps, env) == |steps|
    ensures StepsFit(w, steps)
    ensures forall c :: Asks(cs, t, c) ==> ChangeFits(t, c) && Get(Forward(w, steps, env, |steps|), t) == Effect(Get(w, t), c)
    ensures (forall c :: !Asks(cs, t, c)) ==> Get(Forward(w, steps, env, |steps|), t) == Get(w, t)
  {
    BuiltSound(cfg, w, depth, cs);
    if i :| 0 <= i < |steps| && steps[i].target == t {
      StageAt(w, steps, env, Advancing(|steps|), i);
      StepAsked(cfg, w, depth, cs, steps[i]);
    } else {
      StageElsewhere(w, steps, env, Advancing(|steps|), t);
      forall c | Asks(cs, t, c) ensures false {
        AskedHasStep(cfg, w, depth, cs, t, c);
      }
    }
  }

  // ----- plans that cover every provider -----

  /** One change per edge and one per DNS provider, empty ones included. */
  datatype Passes = Passes(edges: seq<EdgeChange>, dns: seq<DnsChange>)

  function Applied(live: LiveEdge, c: EdgeChange): LiveEdge {
    if EmptyEdge(c) then live else ApplyEdge(live, c)
  }

  predicate NoDrift(p: Passes) {
    (forall i :: 0 <= i < |p.edges| ==> EmptyEdge(p.edges[i])) && forall i :: 0 <= i < |p.dns| ==> EmptyDns(p.dns[i])
  }

  /** The edges that change, in wiring order. */
  function NonEmpty(passes: seq<EdgeChange>): seq<EdgePlan> {
    if passes == [] then []
    else
      var n := |passes| - 1;
      NonEmpty(passes[..n]) + if EmptyEdge(passes[n]) then [] else [EdgePlan(n, passes[n])]
  }

  /** Reconcile and declarative apply name no host and run in the order of an expose. */
  const CORRECTIVE_OP := Op(Expose, "", "", HttpProxy, "", [], [])

  function ChangesOf(p: Passes): ChangeSet {
    ChangeSet(CORRECTIVE_OP, NonEmpty(p.edges), p.dns)
  }

  predicate PassesFit(cfg: Config, w: World, p: Passes) {
    Fits(cfg, w) && |p.edges| == |cfg.edges| && |p.dns| == |cfg.dns|
  }

  /** The world with every change of the plan made. */
  function Corrected(cfg: Config, w: World, p: Passes): (w': World)
    requires PassesFit(cfg, w, p)
    ensures Fits(cfg, w')
  {
    World(seq(|cfg.edges|, i requires 0 <= i < |cfg.edges| => Applied(w.edges[i], p.edges[i])),
          seq(|cfg.dns|, i requires 0 <= i < |cfg.dns| => ApplyDns(w.dns[i], p.dns[i])))
  }

  lemma {:induction false} PlannedIsAPass(passes: seq<EdgeChange>, p: EdgePlan)
    requires p in NonEmpty(passes)
    ensures p.edge < |passes| && p.change == passes[p.edge] && !EmptyEdge(p.change)
  {
    var n := |passes| - 1;
    if p in NonEmpty(passes[..n]) {
      PlannedIsAPass(passes[..n], p);
    }
  }

  lemma {:induction false} ChangedIsPlanned(passes: seq<EdgeChange>, i: nat)
    requires i < |passes| && !EmptyEdge(passes[i])
    ensures EdgePlan(i, passes[i]) in NonEmpty(passes)
  {
    var n := |passes| - 1;
    if i < n {
      ChangedIsPlanned(passes[..n], i);
    }
  }

  lemma {:induction false} PlannedInOrder(passes: seq<EdgeChange>)
    ensures Increasing(NonEmpty(passes))
  {
    if passes != [] {
      var n := |passes| - 1;
      PlannedInOrder(passes[..n]);
      var rest := NonEmpty(passes[..n]);
      forall j | 0 <= j < |rest| ensures rest[j].edge < n {
        PlannedIsAPass(passes[..n], rest[j]);
      }
    }
  }

  lemma NonEmptyListed(passes: seq<EdgeChange>)
    ensures var ps := NonEmpty(passes);
      && Increasing(ps)
      && (forall p :: p in ps ==> p.edge < |passes| && p.change == passes[p.edge] && !EmptyEdge(p.change))
      && (forall i :: 0 <= i < |passes| && !EmptyEdge(passes[i]) ==> EdgePlan(i, passes[i]) in ps)
  {
    PlannedInOrder(passes);
    forall p | p in NonEmpty(passes) ensures p.edge < |passes| && p.change == passes[p.edge] && !EmptyEdge(p.change) {
      PlannedIsAPass(passes, p);
    }
    forall i | 0 <= i < |passes| && !EmptyEdge(passes[i]) ensures EdgePlan(i, passes[i]) in NonEmpty(passes) {
      ChangedIsPlanned(passes, i);
    }
  }

  lemma PlanIsProper(cfg: Config, w: World, p: Passes)
    requires PassesFit(cfg, w, p)
    ensures Proper(cfg, w, ChangesOf(p))
  {
    NonEmptyListed(p.edges);
    var ps := NonEmpty(p.edges);
    forall j | 0 <= j < |ps| ensures ps[j].edge < |cfg.edges| {
      assert ps[j] in ps;
    }
  }

  ghost predicate CompleteRun(cfg: Config, w: World, depth: map<string, nat>, p: Passes, steps: seq<Step>, env: Env) {
    && PassesFit(cfg, w, p) && PlansFit(cfg, w, ChangesOf(p).edges) && steps == BuildSteps(cfg, w, depth, ChangesOf(p))
    && Honest(env) && Stops(steps, env) == |steps|
  }

  lemma RunCorrectsEdge(cfg: Config, w: World, depth: map<string, nat>, p: Passes, steps: seq<Step>, env: Env, i: nat)
    requires CompleteRun(cfg, w, depth, p, steps, env) && i < |cfg.edges|
    ensures StepsFit(w, steps) && Forward(w, steps, env, |steps|).edges[i] == Applied(w.edges[i], p.edges[i])
  {
    hide Stops, Honest, Forward;
    var cs := ChangesOf(p);
    PlanIsProper(cfg, w, p);
    NonEmptyListed(p.edges);
    HonestRunMakesChanges(cfg, w, depth, cs, steps, env, EdgeAt(i));
    if !EmptyEdge(p.edges[i]) {
      assert EdgePlan(i, p.edges[i]) in cs.edges && Asks(cs, EdgeAt(i), OnEdge(p.edges[i]));
    }
  }

  lemma RunCorrectsDns(cfg: Config, w: World, depth: map<string, nat>, p: Passes, steps: seq<Step>, env: Env, i: nat)
    requires CompleteRun(cfg, w, depth, p, steps, env) && i < |cfg.dns|
    ensures StepsFit(w, steps) && Forward(w, steps, env, |steps|).dns[i] == ApplyDns(w.dns[i], p.dns[i])
  {
    var cs := ChangesOf(p);
    PlanIsProper(cfg, w, p);
    HonestRunMakesChanges(cfg, w, depth, cs, steps, env, DnsAt(i));
    if EmptyDns(p.dns[i]) {
      ApplyNone(w.dns[i], p.dns[i]);
    } else {
      assert Asks(cs, DnsAt(i), OnDns(p.dns[i]));
    }
  }

  /** An honest run of a plan's steps ends in the corrected world. */
  lemma RunCorrects(cfg: Config, w: World, depth: map<string, nat>, p: Passes, steps: seq<Step>, env: Env)
    requires CompleteRun(cfg, w, depth, p, steps, env)
    ensures StepsFit(w, steps) && Forward(w, steps, env, |steps|) == Corrected(cfg, w, p)
  {
    BuiltFit(cfg, w, depth, ChangesOf(p));
    var w', target := Forward(w, steps, env, |steps|), Corrected(cfg, w, p);
    forall i | 0 <= i < |cfg.edges| ensures w'.edges[i] == target.edges[i] {
      RunCorrectsEdge(cfg, w, depth, p, steps, env, i);
    }
    forall i | 0 <= i < |cfg.dns| ensures w'.dns[i] == target.dns[i] {
      RunCorrectsDns(cfg, w, depth, p, steps, env, i);
    }
    assert w'.edges == target.edges && w'.dns == target.dns;
  }

  // ----- which corrective passes can be undone -----

  /** What the corrective flows ask of a DNS provider: removals that take every record of a
      name, additions of other names, new rewrites only where none answers. */
  ghost predicate SoundPass(dp: DnsProvider, zone: Zone, c: DnsChange) {
    && c == ChangeFor(dp, c.adds, c.removes)
    && (forall r :: r in c.removes ==> Entry(r, true) in zone)
    && (forall e, r :: e in zone && e.ours && r in c.removes && r.name == e.rec.name ==> e.rec in c.removes)
    && (forall r, q :: r in c.adds && q in c.removes ==> r.name != q.name)
    && (forall r :: r in c.adds && dp.kind == AdGuard ==> IsRewrite(dp, Entry(r, true)) && !Answered(zone, KeyOf(r)))
  }

  ghost predicate OneEach(recs: seq<Record>) {
    forall r, q :: r in recs && q in recs && KeyOf(r) == KeyOf(q) ==> r == q
  }

  /** At Cloudflare, no record is updated in place and no key loses two different records. */
  ghost predicate PassUndoable(dp: DnsProvider, zone: Zone, c: DnsChange) {
    dp.kind == Cloudflare ==> (forall r :: r in c.adds ==> !Answered(zone, KeyOf(r))) && OneEach(c.removes)
  }

  lemma PassRestorableIff(dp: DnsProvider, zone: Zone, c: DnsChange)
    requires WellTyped(dp, zone) && SoundPass(dp, zone, c)
    ensures Restorable(DnsSlot(zone), OnDns(c)) <==> PassUndoable(dp, zone, c)
  {
    if dp.kind == AdGuard {
      forall e | e in zone ensures HasAnswer(c.removes, e.rec) || HasAnswer(c.adds, e.rec) ==> e.rec in c.removes {
        assert IsRewrite(dp, e);
        forall q | q in c.adds ensures SameAnswer(q, e.rec) ==> Hits(e, KeyOf(q)) {
          assert IsRewrite(dp, Entry(q, true));
        }
      }
    } else {
      KeyedPassIff(dp, zone, c);
    }
  }

  lemma KeyedPassIff(dp: DnsProvider, zone: Zone, c: DnsChange)
    requires dp.kind == Cloudflare && SoundPass(dp, zone, c)
    ensures RestorableByKey(zone, c) <==> PassUndoable(dp, zone, c)
  {
    if RestorableByKey(zone, c) {
      forall r | r in c.adds ensures !Answered(zone, KeyOf(r)) {
        assert HasKey(c.adds, KeyOf(r)) && !HasKey(c.removes, KeyOf(r));
      }
      forall r, q | r in c.removes && q in c.removes && KeyOf(r) == KeyOf(q) ensures r == q {
        assert Entry(r, true) in zone && Entry(q, true) in zone;
        assert HasKey(c.removes, KeyOf(Entry(r, true).rec)) && HasKey(c.removes, KeyOf(Entry(q, true).rec));
      }
    } else if PassUndoable(dp, zone, c) {
      forall e | e in zone && e.ours && HasKey(c.removes, KeyOf(e.rec)) ensures AddedRecord(c.removes, KeyOf(e.rec)) == Some(e.rec) {
        AddedRecordIsListed(c.removes, KeyOf(e.rec));
        var last := AddedRecord(c.removes, KeyOf(e.rec)).value;
        assert last.name == e.rec.name;
      }
      forall e | e in zone && e.ours ensures !HasKey(c.adds, KeyOf(e.rec)) {
        if r :| r in c.adds && KeyOf(r) == KeyOf(e.rec) {
          assert Hits(e, KeyOf(r));
        }
      }
    }
  }

  /** A corrective run whose edge passes can be undone can be undone as a whole exactly when
      each of its DNS passes can. */
  lemma PassesUndoableIff(cfg: Config, w: World, depth: map<string, nat>, p: Passes)
    requires PassesFit(cfg, w, p)
    requires forall i :: 0 <= i < |cfg.edges| ==> Restorable(EdgeSlot(w.edges[i]), OnEdge(p.edges[i]))
    requires forall i :: 0 <= i < |cfg.dns| ==> WellTyped(cfg.dns[i], w.dns[i]) && SoundPass(cfg.dns[i], w.dns[i], p.dns[i])
    ensures Proper(cfg, w, ChangesOf(p))
    ensures Undoable(w, BuildSteps(cfg, w, depth, ChangesOf(p))) <==>
      forall i :: 0 <= i < |cfg.dns| ==> PassUndoable(cfg.dns[i], w.dns[i], p.dns[i])
  {
    var cs := ChangesOf(p);
    PlanIsProper(cfg, w, p);
    var steps := BuildSteps(cfg, w, depth, cs);
    BuiltSound(cfg, w, depth, cs);
    forall j | 0 <= j < |steps|
      ensures Restorable(Get(w, steps[j].target), steps[j].fwd) <==>
        (steps[j].target.DnsAt? ==> PassUndoable(cfg.dns[steps[j].target.dns], w.dns[steps[j].target.dns], p.dns[steps[j].target.dns]))
    {
      assert steps[j] in steps && StepSound(cfg, w, cs, steps[j]);
      PassStepRestorableIff(cfg, w, p, steps[j]);
    }
    forall i | 0 <= i < |cfg.dns| && !PassUndoable(cfg.dns[i], w.dns[i], p.dns[i]) ensures exists j :: 0 <= j < |steps| && steps[j].target == DnsAt(i) {
      assert !EmptyDns(p.dns[i]);
      assert Asks(cs, DnsAt(i), OnDns(p.dns[i]));
      AskedHasStep(cfg, w, depth, cs, DnsAt(i), OnDns(p.dns[i]));
    }
  }

  lemma PassStepRestorableIff(cfg: Config, w: World, p: Passes, s: Step)
    requires PassesFit(cfg, w, p) && PlansFit(cfg, w, ChangesOf(p).edges) && StepSound(cfg, w, ChangesOf(p), s) && StepFits(w, s)
    requires forall i :: 0 <= i < |cfg.edges| ==> Restorable(EdgeSlot(w.edges[i]), OnEdge(p.edges[i]))
    requires forall i :: 0 <= i < |cfg.dns| ==> WellTyped(cfg.dns[i], w.dns[i]) && SoundPass(cfg.dns[i], w.dns[i], p.dns[i])
    ensures Restorable(Get(w, s.target), s.fwd) <==>
      (s.target.DnsAt? ==> PassUndoable(cfg.dns[s.target.dns], w.dns[s.target.dns], p.dns[s.target.dns]))
  {
    match s.target
    case EdgeAt(i) => NonEmptyListed(p.edges);
    case DnsAt(i) => PassRestorableIff(cfg.dns[i], w.dns[i], p.dns[i]);
  }
}
