/** The order guarantees in terms of what clients see (internal/core/apply.go): which routes and
    records are live at every moment of an expose or unexpose, forward and during rollback. */
module Announce {
  import opened Model
  import opened Zones
  import opened Planner
  import opened Steps
  import opened Runs
  import opened Orders
  import opened Verify

  predicate IsPublic(cfg: Config, t: Target) {
    t.DnsAt? && t.dns < |cfg.dns| && cfg.dns[t.dns].scope == Public
  }

  /** The edge routes the host, or the provider answers it with the wanted value. */
  predicate Live(cfg: Config, op: Op, t: Target, s: Slot)
    requires Known(cfg, t) && SlotFits(t, s)
  {
    match t
    case EdgeAt(_) => HasHost(s.live, op.host)
    case DnsAt(i) => DnsShows(Expose, Desired(cfg.dns[i], op.host), s.zone)
  }

  /** A provider that shows what the operation wants is as it was, or as its step left it. */
  lemma SatisfiedSlot(cfg: Config, w: World, depth: map<string, nat>, op: Op, steps: seq<Step>, env: Env, st: Stage, t: Target)
    requires OpRun(cfg, w, depth, op, steps, env, st) && Concerns(cfg, op, t)
    requires StepsFit(w, steps) && Satisfied(cfg, op, t, Get(StageWorld(w, steps, env, st), t))
    ensures PlannedAt(cfg, op, t, Get(w, t)).Ok?
    ensures var c := PlannedAt(cfg, op, t, Get(w, t)).value;
      Get(StageWorld(w, steps, env, st), t) == if c == NoChange(t) then Get(w, t) else Effect(Get(w, t), c)
  {
    BuiltSteps(cfg, w, depth, op);
    ConcernedIsPlanned(cfg, w, op, t);
    if i :| 0 <= i < |steps| && steps[i].target == t {
      assert steps[i] in steps && IsPlanned(cfg, w, depth, op, steps[i]);
      StepIsSatisfied(cfg, w, depth, op, steps, env, st, i);
      StageAt(w, steps, env, st, i);
    } else {
      assert !HasStep(steps, t);
      StageElsewhere(w, steps, env, st, t);
    }
  }

  /** While exposing, what shows is live. */
  lemma ShownIsLive(cfg: Config, w: World, depth: map<string, nat>, op: Op, steps: seq<Step>, env: Env, st: Stage, t: Target)
    requires OpRun(cfg, w, depth, op, steps, env, st) && op.verb == Expose && Concerns(cfg, op, t) && StepsFit(w, steps)
    ensures Satisfied(cfg, op, t, Get(StageWorld(w, steps, env, st), t)) ==> Live(cfg, op, t, Get(StageWorld(w, steps, env, st), t))
    ensures Satisfied(cfg, op, t, Get(w, t)) ==> Live(cfg, op, t, Get(w, t))
  {
    var s := Get(StageWorld(w, steps, env, st), t);
    match t
    case EdgeAt(i) =>
      EdgeSatisfied(cfg, w, op, i, s.live);
      EdgeSatisfied(cfg, w, op, i, w.edges[i]);
    case DnsAt(i) =>
      if Satisfied(cfg, op, t, s) {
        SatisfiedSlot(cfg, w, depth, op, steps, env, st, t);
        DnsPlanIsDelta(cfg, op, cfg.dns[i], w.dns[i]);
        SatisfiedShows(cfg, op, cfg.dns[i], s.zone);
      }
      if Satisfied(cfg, op, t, Get(w, t)) {
        SatisfiedShows(cfg, op, cfg.dns[i], w.dns[i]);
      }
  }

  /** Undoing an announcement leaves no record at the key. */
  lemma UndoneIsSilent(cfg: Config, op: Op, dp: DnsProvider, zone: Zone, c: DnsChange)
    requires DnsTakesPart(cfg, op, dp) && op.verb == Expose && WellTyped(dp, zone)
    requires PlanDns(cfg, op, dp, zone) == Ok(c) && !EmptyDns(c)
    ensures LastAt(ApplyDns(ApplyDns(zone, c), InvertDns(c)), KeyOf(Desired(dp, op.host))).None?
  {
    var want, back := Desired(dp, op.host), ApplyDns(ApplyDns(zone, c), InvertDns(c));
    LastAtListed(back, KeyOf(want));
    LastByNameListed(zone, want.name);
    forall e | e in back ensures !Hits(e, KeyOf(want)) {
      UndoneRecords(zone, c, e);
      assert want in c.adds;
    }
  }

  /** The step of a provider, if it has one. */
  lemma DnsStepAt(cfg: Config, w: World, depth: map<string, nat>, op: Op, steps: seq<Step>, i: nat) returns (q: nat)
    requires Fits(cfg, w) && Runnable(cfg, w, depth, op, steps)
    requires Concerns(cfg, op, DnsAt(i)) && !Satisfied(cfg, op, DnsAt(i), Get(w, DnsAt(i)))
    ensures q < |steps| && steps[q].target == DnsAt(i) && steps[q].fwd.OnDns? && steps[q].inv == OnDns(InvertDns(steps[q].fwd.dnsChange))
    ensures PlanDns(cfg, op, cfg.dns[i], w.dns[i]) == Ok(steps[q].fwd.dnsChange) && steps[q].fwd.dnsChange != NoDnsChange
  {
    var s :| s in steps && s.target == DnsAt(i);
    q :| q < |steps| && steps[q] == s;
    assert IsPlanned(cfg, w, depth, op, s);
  }

  lemma PlannedNotEmpty(cfg: Config, op: Op, dp: DnsProvider, zone: Zone, c: DnsChange)
    requires PlanDns(cfg, op, dp, zone) == Ok(c) && c != NoDnsChange
    ensures !EmptyDns(c)
  {
  }

  /** While exposing, an answer that has newly gone live shows that its step is in effect. */
  lemma LiveIsShown(cfg: Config, w: World, depth: map<string, nat>, op: Op, steps: seq<Step>, env: Env, st: Stage, i: nat)
    requires OpRun(cfg, w, depth, op, steps, env, st) && op.verb == Expose && Concerns(cfg, op, DnsAt(i)) && StepsFit(w, steps)
    requires !Live(cfg, op, DnsAt(i), Get(w, DnsAt(i)))
    ensures !Satisfied(cfg, op, DnsAt(i), Get(w, DnsAt(i)))
    ensures Live(cfg, op, DnsAt(i), Get(StageWorld(w, steps, env, st), DnsAt(i))) ==>
            Satisfied(cfg, op, DnsAt(i), Get(StageWorld(w, steps, env, st), DnsAt(i)))
  {
    hide Satisfied, StageWorld, InEffect, PlanDns, StepsFor, LastAt, Plan;
    var t := DnsAt(i);
    ShownIsLive(cfg, w, depth, op, steps, env, st, t);
    BuiltSteps(cfg, w, depth, op);
    var q := DnsStepAt(cfg, w, depth, op, steps, i);
    StepIsSatisfied(cfg, w, depth, op, steps, env, st, q);
    if !InEffect(steps, env, st, q) {
      StageAt(w, steps, env, st, q);
      PlannedNotEmpty(cfg, op, cfg.dns[i], w.dns[i], steps[q].fwd.dnsChange);
      UndoneIsSilent(cfg, op, cfg.dns[i], w.dns[i], steps[q].fwd.dnsChange);
    }
  }

  /** Announce last: while exposing, a public answer that was not there before is live only
      while every edge that takes part routes the host and every internal provider that takes
      part answers it, even when wedged edges are skipped in rollback. */
  lemma AnnounceLast(cfg: Config, w: World, depth: map<string, nat>, op: Op, steps: seq<Step>, env: Env, st: Stage,
                     pub: Target, other: Target)
    requires OpRun(cfg, w, depth, op, steps, env, st) && op.verb == Expose
    requires Concerns(cfg, op, pub) && IsPublic(cfg, pub) && Concerns(cfg, op, other) && !IsPublic(cfg, other)
    requires env.onUndo(pub) == Done
    requires !Live(cfg, op, pub, Get(w, pub))
    ensures StepsFit(w, steps)
    ensures Live(cfg, op, pub, Get(StageWorld(w, steps, env, st), pub)) ==>
            Live(cfg, op, other, Get(StageWorld(w, steps, env, st), other))
  {
    BuiltSteps(cfg, w, depth, op);
    LiveIsShown(cfg, w, depth, op, steps, env, st, pub.dns);
    ShownIsLive(cfg, w, depth, op, steps, env, st, other);
    OrderHolds(cfg, w, depth, op, steps, env, st, other, pub);
  }

  /** Withdraw first: while unexposing, an edge's route has newly gone only once every DNS
      provider has made its planned removal, so that the provider reports no record of the host
      exactly when that removal leaves none; all this when the edge's compensator neither is
      skipped nor fails. */
  lemma WithdrawFirst(cfg: Config, w: World, depth: map<string, nat>, op: Op, steps: seq<Step>, env: Env, st: Stage,
                      edge: nat, dns: nat)
    requires OpRun(cfg, w, depth, op, steps, env, st) && op.verb == Unexpose
    requires Concerns(cfg, op, EdgeAt(edge)) && Concerns(cfg, op, DnsAt(dns))
    requires !env.wedged(edge) && env.onUndo(EdgeAt(edge)) == Done
    requires HasHost(w.edges[edge], op.host)
    ensures StepsFit(w, steps) && PlanDns(cfg, op, cfg.dns[dns], w.dns[dns]).Ok?
    ensures var now := StageWorld(w, steps, env, st);
      !HasHost(now.edges[edge], op.host) ==>
        && now.dns[dns] == ApplyDns(w.dns[dns], PlanDns(cfg, op, cfg.dns[dns], w.dns[dns]).value)
        && var want := Desired(cfg.dns[dns], op.host);
           LastAt(now.dns[dns], KeyOf(want)).None? <==> LeavesNone(cfg.dns[dns], want, w.dns[dns])
  {
    BuiltSteps(cfg, w, depth, op);
    ConcernedIsPlanned(cfg, w, op, DnsAt(dns));
    var now := StageWorld(w, steps, env, st);
    EdgeSatisfied(cfg, w, op, edge, w.edges[edge]);
    EdgeSatisfied(cfg, w, op, edge, now.edges[edge]);
    if !HasHost(now.edges[edge], op.host) {
      OrderHolds(cfg, w, depth, op, steps, env, st, DnsAt(dns), EdgeAt(edge));
      SatisfiedSlot(cfg, w, depth, op, steps, env, st, DnsAt(dns));
      ApplyNone(w.dns[dns], NoDnsChange);
      RemovalShowsIff(cfg, op, cfg.dns[dns], w.dns[dns]);
    }
  }
}
