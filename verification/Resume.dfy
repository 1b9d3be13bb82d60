/** Crash and resume (internal/core/resume.go): planning again from any half-applied world
    plans exactly the steps that were left, in the same order. */
module Resume {
  import opened Model
  import opened Planner
  import opened Steps
  import opened Runs
  import opened Orders

  /** Every provider does what it is asked. */
  const Obliging := Env(t => Done, t => Done, i => false)

  /** The world in which the providers in `done` have had their planned change applied. */
  ghost predicate HalfApplied(cfg: Config, w: World, w': World, op: Op, done: set<Target>)
    requires Fits(cfg, w) && Fits(cfg, w')
  {
    forall t :: Known(cfg, t) ==>
      if t in done
      then Concerns(cfg, op, t) && PlannedAt(cfg, op, t, Get(w, t)).Ok?
        && var c := PlannedAt(cfg, op, t, Get(w, t)).value; ChangeFits(t, c) && Get(w', t) == Effect(Get(w, t), c)
      else Get(w', t) == Get(w, t)
  }

  /** The same edge plans, with nothing left to do on the edges in `done`. */
  ghost predicate Thinned(ps: seq<EdgePlan>, ps': seq<EdgePlan>, done: set<Target>) {
    && |ps| == |ps'|
    && forall j :: 0 <= j < |ps| ==>
         ps'[j] == EdgePlan(ps[j].edge, if EdgeAt(ps[j].edge) in done then NoEdgeChange else ps[j].change)
  }

  ghost predicate ThinnedDns(cs: seq<DnsChange>, cs': seq<DnsChange>, done: set<Target>) {
    |cs| == |cs'| && forall j :: 0 <= j < |cs| ==> cs'[j] == if DnsAt(j) in done then NoDnsChange else cs[j]
  }

  lemma EdgeReplanned(cfg: Config, w: World, w': World, op: Op, done: set<Target>, i: nat)
    requires Fits(cfg, w) && Fits(cfg, w') && ZonesTyped(cfg, w) && HalfApplied(cfg, w, w', op, done)
    requires i < |cfg.edges| && PlanEdge(cfg, op, i, w.edges[i]).Ok?
    ensures PlanEdge(cfg, op, i, w'.edges[i])
         == if EdgeAt(i) in done then Ok(NoEdgeChange) else PlanEdge(cfg, op, i, w.edges[i])
  {
    assert Known(cfg, EdgeAt(i));
    if EdgeAt(i) in done {
      EdgePlanIsDelta(cfg, op, i, w.edges[i]);
      assert Get(w', EdgeAt(i)) == EdgeSlot(w'.edges[i]);
    } else {
      assert Get(w', EdgeAt(i)) == Get(w, EdgeAt(i));
    }
  }

  lemma DnsReplanned(cfg: Config, w: World, w': World, op: Op, done: set<Target>, i: nat)
    requires Fits(cfg, w) && Fits(cfg, w') && ZonesTyped(cfg, w) && HalfApplied(cfg, w, w', op, done)
    requires i < |cfg.dns| && PlanDns(cfg, op, cfg.dns[i], w.dns[i]).Ok?
    ensures PlanDns(cfg, op, cfg.dns[i], w'.dns[i])
         == if DnsAt(i) in done then Ok(NoDnsChange) else PlanDns(cfg, op, cfg.dns[i], w.dns[i])
  {
    assert Known(cfg, DnsAt(i));
    if DnsAt(i) in done {
      DnsPlanIsDelta(cfg, op, cfg.dns[i], w.dns[i]);
      assert Get(w', DnsAt(i)) == DnsSlot(w'.dns[i]);
    } else {
      assert Get(w', DnsAt(i)) == Get(w, DnsAt(i));
    }
  }

  lemma {:induction false} EdgesReplanned(cfg: Config, w: World, w': World, op: Op, done: set<Target>, n: nat)
    requires Fits(cfg, w) && Fits(cfg, w') && ZonesTyped(cfg, w) && HalfApplied(cfg, w, w', op, done)
    requires n <= |cfg.edges| && PlanEdges(cfg, w, op, n).Ok?
    ensures PlanEdges(cfg, w', op, n).Ok?
    ensures Thinned(PlanEdges(cfg, w, op, n).value, PlanEdges(cfg, w', op, n).value, done)
  {
    if n > 0 {
      EdgesReplanned(cfg, w, w', op, done, n - 1);
      if TakesPart(cfg, op, n - 1) {
        EdgeReplanned(cfg, w, w', op, done, n - 1);
      }
    }
  }

  lemma {:induction false} AllDnsReplanned(cfg: Config, w: World, w': World, op: Op, done: set<Target>, n: nat)
    requires Fits(cfg, w) && Fits(cfg, w') && ZonesTyped(cfg, w) && HalfApplied(cfg, w, w', op, done)
    requires n <= |cfg.dns| && PlanAllDns(cfg, w, op, n).Ok?
    ensures PlanAllDns(cfg, w', op, n).Ok? && |PlanAllDns(cfg, w, op, n).value| == n
    ensures ThinnedDns(PlanAllDns(cfg, w, op, n).value, PlanAllDns(cfg, w', op, n).value, done)
  {
    hide HalfApplied, ZonesTyped;
    if n > 0 {
      AllDnsReplanned(cfg, w, w', op, done, n - 1);
      DnsReplanned(cfg, w, w', op, done, n - 1);
    }
  }

  lemma {:induction false} EdgeStepsThinned(cfg: Config, w: World, w': World, depth: map<string, nat>,
                                            ps: seq<EdgePlan>, ps': seq<EdgePlan>, done: set<Target>)
    requires PlansFit(cfg, w, ps) && PlansFit(cfg, w', ps') && Thinned(ps, ps', done)
    requires forall i :: 0 <= i < |cfg.edges| && EdgeAt(i) !in done ==> w'.edges[i] == w.edges[i]
    ensures EdgeSteps(cfg, w', depth, ps') == Skip(EdgeSteps(cfg, w, depth, ps), done)
  {
    if ps != [] {
      var init, init', last := ps[..|ps| - 1], ps'[..|ps| - 1], ps[|ps| - 1];
      EdgeStepsThinned(cfg, w, w', depth, init, init', done);
      var one := if EmptyEdge(last.change) then []
                 else [EdgeStep(last, DepthAt(cfg, depth, EdgeAt(last.edge)), w.edges[last.edge])];
      SkipAppend(EdgeSteps(cfg, w, depth, init), one, done);
      assert EdgeSteps(cfg, w, depth, ps) == EdgeSteps(cfg, w, depth, init) + one;
    }
  }

  lemma {:induction false} DnsStepsThinned(cfg: Config, cs: seq<DnsChange>, cs': seq<DnsChange>, done: set<Target>)
    requires |cs| <= |cfg.dns| && ThinnedDns(cs, cs', done)
    ensures DnsSteps(cfg, cs') == Skip(DnsSteps(cfg, cs), done)
  {
    if cs != [] {
      var n := |cs| - 1;
      DnsStepsThinned(cfg, cs[..n], cs'[..n], done);
      var one := if EmptyDns(cs[n]) then [] else [DnsStep(n, cfg.dns[n].scope, cs[n])];
      SkipAppend(DnsSteps(cfg, cs[..n]), one, done);
      assert DnsSteps(cfg, cs) == DnsSteps(cfg, cs[..n]) + one;
    }
  }

  /** Planning on a half-applied world plans what was left. */
  lemma Replanned(cfg: Config, w: World, w': World, depth: map<string, nat>, op: Op, done: set<Target>)
    requires Fits(cfg, w) && Fits(cfg, w') && ZonesTyped(cfg, w) && HalfApplied(cfg, w, w', op, done)
    requires Plan(cfg, w, op).Ok?
    ensures Plan(cfg, w', op).Ok?
    ensures StepsFor(cfg, w', depth, op) == Skip(StepsFor(cfg, w, depth, op), done)
  {
    EdgesReplanned(cfg, w, w', op, done, |cfg.edges|);
    AllDnsReplanned(cfg, w, w', op, done, |cfg.dns|);
    PlanFits(cfg, w, op);
    PlanFits(cfg, w', op);
    var cs, cs' := Plan(cfg, w, op).value, Plan(cfg, w', op).value;
    forall i | 0 <= i < |cfg.edges| && EdgeAt(i) !in done ensures w'.edges[i] == w.edges[i] {
      assert Known(cfg, EdgeAt(i)) && Get(w', EdgeAt(i)) == Get(w, EdgeAt(i));
    }
    EdgeStepsThinned(cfg, w, w', depth, cs.edges, cs'.edges, done);
    DnsStepsThinned(cfg, cs.dns, cs'.dns, done);
    var es, ds := EdgeSteps(cfg, w, depth, cs.edges), DnsSteps(cfg, cs.dns);
    SkipAppend(es, ds, done);
    SkipSort(op.verb == Expose, es + ds, done);
  }

  /** After `k` accepted steps the world is half-applied. */
  lemma PrefixHalfApplies(cfg: Config, w: World, depth: map<string, nat>, op: Op, steps: seq<Step>, env: Env, k: nat)
    requires Fits(cfg, w) && Runnable(cfg, w, depth, op, steps) && Honest(env) && k <= Stops(steps, env)
    ensures Fits(cfg, Forward(w, steps, env, k))
    ensures HalfApplied(cfg, w, Forward(w, steps, env, k), op, TargetsOf(steps[..k]))
  {
    var w', done := Forward(w, steps, env, k), TargetsOf(steps[..k]);
    forall t | Known(cfg, t)
      ensures if t in done
              then Concerns(cfg, op, t) && PlannedAt(cfg, op, t, Get(w, t)).Ok?
                && var c := PlannedAt(cfg, op, t, Get(w, t)).value; ChangeFits(t, c) && Get(w', t) == Effect(Get(w, t), c)
              else Get(w', t) == Get(w, t)
    {
      ForwardAt(w, steps, env, k, t);
      if t in done {
        var i :| 0 <= i < |steps[..k]| && steps[..k][i].target == t;
        assert steps[i] == steps[..k][i] && steps[i] in steps;
      } else {
        forall i | 0 <= i < k ensures steps[i].target != t {
          assert steps[..k][i] == steps[i];
        }
      }
    }
  }

  lemma {:induction false} ForwardSplits(w: World, steps: seq<Step>, env: Env, k: nat, m: nat)
    requires k + m <= |steps| && StepsFit(w, steps)
    ensures StepsFit(Forward(w, steps, env, k), steps[k..])
    ensures Forward(Forward(w, steps, env, k), steps[k..], env, m) == Forward(w, steps, env, k + m)
  {
    assert forall i :: 0 <= i < |steps[k..]| ==> steps[k..][i] == steps[k + i];
    if m > 0 {
      ForwardSplits(w, steps, env, k, m - 1);
    }
  }

  lemma {:induction false} ForwardAgrees(w: World, steps: seq<Step>, env: Env, k: nat)
    requires StepsFit(w, steps) && Honest(env) && k <= Stops(steps, env)
    ensures Forward(w, steps, env, k) == Forward(w, steps, Obliging, k)
  {
    if k > 0 {
      ForwardAgrees(w, steps, env, k - 1);
      assert env.onDo(steps[k - 1].target) == Done;
    }
  }

  /** Wherever a run stops, planning the same operation from the half-applied world plans
      exactly the remaining steps, compensators included, in the same order. */
  lemma ResumePlansTheRest(cfg: Config, w: World, depth: map<string, nat>, op: Op, steps: seq<Step>, env: Env, k: nat)
    requires Fits(cfg, w) && ZonesTyped(cfg, w) && Plan(cfg, w, op).Ok? && steps == StepsFor(cfg, w, depth, op)
    requires Honest(env) && k <= Stops(steps, env)
    ensures StepsFit(w, steps)
    ensures var w' := Forward(w, steps, env, k);
      Fits(cfg, w') && Plan(cfg, w', op).Ok? && StepsFor(cfg, w', depth, op) == steps[k..]
  {
    hide Plan, ZonesTyped, HalfApplied;
    BuiltSteps(cfg, w, depth, op);
    PrefixHalfApplies(cfg, w, depth, op, steps, env, k);
    Replanned(cfg, w, Forward(w, steps, env, k), depth, op, TargetsOf(steps[..k]));
    SkipPrefix(steps, k);
  }

  /** And completing those steps reaches the state the uninterrupted run reaches. */
  lemma ResumeCompletes(cfg: Config, w: World, depth: map<string, nat>, op: Op, steps: seq<Step>, env: Env, k: nat)
    requires Fits(cfg, w) && ZonesTyped(cfg, w) && Plan(cfg, w, op).Ok? && steps == StepsFor(cfg, w, depth, op)
    requires Honest(env) && k <= Stops(steps, env)
    ensures StepsFit(w, steps)
    ensures var w' := Forward(w, steps, env, k);
      && Fits(cfg, w') && Plan(cfg, w', op).Ok? && StepsFit(w', StepsFor(cfg, w', depth, op))
      && Forward(w', StepsFor(cfg, w', depth, op), Obliging, |StepsFor(cfg, w', depth, op)|)
         == Forward(w, steps, Obliging, |steps|)
  {
    hide Plan, StepsFor, ZonesTyped, Honest, Forward;
    ResumePlansTheRest(cfg, w, depth, op, steps, env, k);
    assert k <= |steps| && |steps[k..]| == |steps| - k;
    ForwardAgrees(w, steps, env, k);
    ForwardSplits(w, steps, Obliging, k, |steps| - k);
  }
}
