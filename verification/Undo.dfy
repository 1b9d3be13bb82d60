/** Which planned changes can be undone, for every flow that runs through the transaction:
    expose, unexpose and rename. */
module Undo {
  import opened Model
  import opened Zones
  import opened Planner
  import opened Steps
  import opened Runs
  import opened Orders
  import opened Verify
  import opened Renaming
  import opened Flow
  import opened Changes

  // ----- expose and unexpose -----

  lemma PlannedEdgeRestorable(cfg: Config, op: Op, i: nat, live: LiveEdge, c: EdgeChange)
    requires i < |cfg.edges| && PlanEdge(cfg, op, i, live) == Ok(c)
    ensures Restorable(EdgeSlot(live), OnEdge(c))
  {
    if !EmptyEdge(c) {
      PlanEdgeShape(cfg, op, i, live, c);
    }
  }

  /** The DNS changes whose compensator restores: every rewrite; at Cloudflare, no update in
      place, and no removal of several own records that differ. */
  predicate DnsUndoable(op: Op, dp: DnsProvider, zone: Zone) {
    var ours := OursAt(zone, KeyOf(Desired(dp, op.host)));
    dp.kind == AdGuard || if op.verb == Expose then ours == [] else forall r :: r in ours ==> r == ours[0]
  }

  lemma PlannedDnsRestorableIff(cfg: Config, op: Op, dp: DnsProvider, zone: Zone, c: DnsChange)
    requires DnsTakesPart(cfg, op, dp) && WellTyped(dp, zone) && PlanDns(cfg, op, dp, zone) == Ok(c) && !EmptyDns(c)
    ensures Restorable(DnsSlot(zone), OnDns(c)) <==> DnsUndoable(op, dp, zone)
  {
    hide Covers, Desired;
    var want := Desired(dp, op.host);
    if dp.kind == AdGuard {
      assert want.name == op.host && want == Record(want.name, dp.typeOf(want.value), want.value, dp.scope, 0, false) by {
        RewriteWanted(dp, op.host);
      }
      RewriteRestorable(dp, zone, want, c);
    } else if op.verb == Expose {
      OursAtNone(zone, KeyOf(want));
      AddRestorableIff(zone, want);
    } else {
      RemovedOurs(zone, KeyOf(want), c);
    }
  }

  lemma RewriteWanted(dp: DnsProvider, host: Host)
    requires dp.kind == AdGuard
    ensures Desired(dp, host) == Record(host, dp.typeOf(dp.target), dp.target, dp.scope, 0, false)
  {
  }

  lemma RewriteRestorable(dp: DnsProvider, zone: Zone, want: Record, c: DnsChange)
    requires dp.kind == AdGuard && WellTyped(dp, zone) && !EmptyDns(c)
    requires want == Record(want.name, dp.typeOf(want.value), want.value, dp.scope, 0, false)
    requires AdGuardDiff(Expose, zone, want) == Ok(c) || AdGuardDiff(Unexpose, zone, want) == Ok(c)
    ensures RestorableByAnswer(zone, c) && c.RewriteChange?
  {
    LastByNameListed(zone, want.name);
    forall e | e in zone && SameAnswer(want, e.rec) ensures e.rec == want {
      assert IsRewrite(dp, e);
    }
    if c.removes != [] {
      var last := LastByName(zone, want.name).value;
      assert Entry(last, true) in zone && SameAnswer(want, last);
    }
  }

  lemma AddRestorableIff(zone: Zone, want: Record)
    ensures RestorableByKey(zone, DnsChange([want], [])) <==> !Answered(zone, KeyOf(want))
  {
    var c := DnsChange([want], []);
    assert want in c.adds;
    if e :| e in zone && Hits(e, KeyOf(want)) {
      assert HasKey(c.adds, KeyOf(e.rec)) && !HasKey(c.removes, KeyOf(e.rec));
    }
  }

  lemma RemovedOurs(zone: Zone, key: Key, c: DnsChange)
    requires c == DnsChange([], OursAt(zone, key)) && c.removes != []
    ensures RestorableByKey(zone, c) <==> forall r :: r in c.removes ==> r == c.removes[0]
  {
    forall r ensures r in c.removes <==> KeyOf(r) == key && Entry(r, true) in zone {
      OursAtMembers(zone, key, r);
    }
    AddedRecordIsListed(c.removes, key);
    assert c.removes[0] in c.removes && HasKey(c.removes, key);
    var last := AddedRecord(c.removes, key).value;
    if RestorableByKey(zone, c) {
      forall r | r in c.removes ensures r == last {
        assert Entry(r, true) in zone && HasKey(c.removes, KeyOf(Entry(r, true).rec));
      }
    } else if forall r :: r in c.removes ==> r == c.removes[0] {
      forall e | e in zone && e.ours && HasKey(c.removes, KeyOf(e.rec)) ensures AddedRecord(c.removes, KeyOf(e.rec)) == Some(e.rec) {
        assert e == Entry(e.rec, true);
      }
    }
  }

  /** The whole run of an expose or unexpose can be undone exactly when each of its DNS
      changes can; an edge change always can. */
  lemma OpUndoableIff(cfg: Config, w: World, depth: map<string, nat>, op: Op)
    requires Fits(cfg, w) && ZonesTyped(cfg, w) && Plan(cfg, w, op).Ok?
    ensures Undoable(w, StepsFor(cfg, w, depth, op)) <==>
      forall s :: s in StepsFor(cfg, w, depth, op) && s.target.DnsAt? ==>
        s.target.dns < |cfg.dns| && DnsUndoable(op, cfg.dns[s.target.dns], w.dns[s.target.dns])
  {
    var steps := StepsFor(cfg, w, depth, op);
    BuiltSteps(cfg, w, depth, op);
    forall i | 0 <= i < |steps|
      ensures steps[i] in steps && IsPlanned(cfg, w, depth, op, steps[i])
      ensures Restorable(Get(w, steps[i].target), steps[i].fwd) <==>
        (steps[i].target.DnsAt? ==> DnsUndoable(op, cfg.dns[steps[i].target.dns], w.dns[steps[i].target.dns]))
    {
      assert steps[i] in steps;
      StepRestorableIff(cfg, w, depth, op, steps[i]);
    }
  }

  lemma StepRestorableIff(cfg: Config, w: World, depth: map<string, nat>, op: Op, s: Step)
    requires Fits(cfg, w) && ZonesTyped(cfg, w) && IsPlanned(cfg, w, depth, op, s)
    ensures Restorable(Get(w, s.target), s.fwd) <==>
      (s.target.DnsAt? ==> DnsUndoable(op, cfg.dns[s.target.dns], w.dns[s.target.dns]))
  {
    match s.target
    case EdgeAt(i) => PlannedEdgeRestorable(cfg, op, i, w.edges[i], s.fwd.edgeChange);
    case DnsAt(i) => PlannedDnsRestorableIff(cfg, op, cfg.dns[i], w.dns[i], s.fwd.dnsChange);
  }

  /** A failed run of an expose or unexpose whose DNS changes can be undone leaves every
      provider rollback does not name answering as before. */
  lemma FailedOpRestores(cfg: Config, w: World, depth: map<string, nat>, op: Op, flags: Flags, a: Answers, o: (Report, World), t: Target)
    requires Fits(cfg, w) && ZonesTyped(cfg, w) && Plan(cfg, w, op).Ok? && Within(w, t)
    requires flags.rollback && Honest(a.env)
    requires forall s :: s in StepsFor(cfg, w, depth, op) && s.target.DnsAt? ==>
      s.target.dns < |cfg.dns| && DnsUndoable(op, cfg.dns[s.target.dns], w.dns[s.target.dns])
    requires PlansFit(cfg, w, Plan(cfg, w, op).value.edges) && |Plan(cfg, w, op).value.dns| == |cfg.dns|
    requires o == Outcome(cfg, w, depth, Plan(cfg, w, op).value, flags, a) && o.0.failure.Some? && t !in o.0.errors
    ensures Within(o.1, t) && SameAnswers(Get(w, t), Get(o.1, t))
  {
    OpUndoableIff(cfg, w, depth, op);
    FailedRunRestores(cfg, w, depth, Plan(cfg, w, op).value, flags, a, o, t);
  }

  // ----- rename -----

  lemma RenameIsProper(cfg: Config, w: World, oldHost: Host, newHost: Host, cs: ChangeSet)
    requires Fits(cfg, w) && PlanRename(w, oldHost, newHost) == Ok(cs)
    ensures Proper(cfg, w, cs) && cs.dns == []
    ensures forall p :: p in cs.edges ==> EntryMoves(w, oldHost, newHost, p)
  {
    RenameEdgesListed(w, oldHost, newHost, |w.edges|);
  }

  /** Renames are always undone in full: the new host was free and the old route is put back. */
  lemma RenameUndoable(cfg: Config, w: World, depth: map<string, nat>, oldHost: Host, newHost: Host, cs: ChangeSet)
    requires Fits(cfg, w) && PlanRename(w, oldHost, newHost) == Ok(cs)
    ensures PlansFit(cfg, w, cs.edges) && Undoable(w, BuildSteps(cfg, w, depth, cs))
  {
    RenameIsProper(cfg, w, oldHost, newHost, cs);
    BuiltSound(cfg, w, depth, cs);
    var steps := BuildSteps(cfg, w, depth, cs);
    forall i | 0 <= i < |steps| ensures Restorable(Get(w, steps[i].target), steps[i].fwd) {
      assert steps[i] in steps && EdgeStepSound(cfg, w, cs.edges, steps[i]);
      var p :| p in cs.edges && CarriesPlan(w, p, steps[i]);
      RenameRestorable(w, oldHost, newHost, p);
    }
  }

  lemma FailedRenameRestores(cfg: Config, w: World, depth: map<string, nat>, oldHost: Host, newHost: Host, cs: ChangeSet,
                             flags: Flags, a: Answers, o: (Report, World), t: Target)
    requires Fits(cfg, w) && PlanRename(w, oldHost, newHost) == Ok(cs) && PlansFit(cfg, w, cs.edges) && |cs.dns| == 0
    requires flags.rollback && Honest(a.env) && Within(w, t)
    requires o == Outcome(cfg, w, depth, cs, flags, a) && o.0.failure.Some? && t !in o.0.errors
    ensures Within(o.1, t) && SameAnswers(Get(w, t), Get(o.1, t))
  {
    RenameUndoable(cfg, w, depth, oldHost, newHost, cs);
    FailedRunRestores(cfg, w, depth, cs, flags, a, o, t);
  }

  /** An honest rename that is fully applied reads back exactly when no DNS provider's zone
      covers the new host. */
  lemma HonestRenameVerifiesIff(cfg: Config, w: World, depth: map<string, nat>, oldHost: Host, newHost: Host, cs: ChangeSet, env: Env)
    requires Fits(cfg, w) && PlanRename(w, oldHost, newHost) == Ok(cs) && PlansFit(cfg, w, cs.edges)
    requires StepsFit(w, BuildSteps(cfg, w, depth, cs)) && Honest(env)
    requires Stops(BuildSteps(cfg, w, depth, cs), env) == |BuildSteps(cfg, w, depth, cs)|
    ensures var steps := BuildSteps(cfg, w, depth, cs);
      PlansFit(cfg, Forward(w, steps, env, |steps|), cs.edges) &&
      (WorldVerified(cfg, cs.op, cs.edges, Forward(w, steps, env, |steps|))
       <==> forall i :: 0 <= i < |cfg.dns| ==> !Covers(cfg.dns[i], newHost))
  {
    var steps := BuildSteps(cfg, w, depth, cs);
    var w' := Forward(w, steps, env, |steps|);
    RenameIsProper(cfg, w, oldHost, newHost, cs);
    forall j | 0 <= j < |cs.edges| ensures EdgeVerified(cs.op, cs.edges[j].change, w'.edges[cs.edges[j].edge]) {
      var p := cs.edges[j];
      assert p in cs.edges;
      HonestRunMakesChanges(cfg, w, depth, cs, steps, env, EdgeAt(p.edge));
      assert Asks(cs, EdgeAt(p.edge), OnEdge(p.change));
      MovedEdgeVerifies(w, oldHost, newHost, p);
    }
    RenameNeedsUncoveredHost(cfg, cs.op, cs.edges, w');
  }
}
