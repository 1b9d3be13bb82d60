/** Read-back verification (internal/core/apply.go): when a re-read world counts as matching
    the operation, and exactly when an honest run's does. */
module Verify {
  import opened Model
  import opened Zones
  import opened Planner
  import opened Steps
  import opened Runs
  import opened Orders

  /** A file driver's probe of the running daemon; other drivers have none. */
  datatype Runtime = NotChecked | Confirmed | Failed | Unavailable

  /** "" and the explicit opt-out both mean no policy attached. */
  function AuthPresence(auth: string): string {
    if auth == AUTH_NONE then "" else auth
  }

  /** Every added route but a mesh grant reads back with its planned policy. */
  predicate AuthVerified(live: LiveEdge, adds: seq<Route>) {
    forall r :: r in adds && r.upstream.mode != MeshGrant ==>
      HasHost(live, r.host) &&
      AuthPresence(Find(live.routes, r.host).value.upstream.auth) == AuthPresence(r.upstream.auth)
  }

  /** Every added route planned to dial upstream TLS reads back dialling it. */
  predicate TlsVerified(live: LiveEdge, adds: seq<Route>) {
    forall r :: r in adds && r.upstream.tls ==> HasHost(live, r.host) && Find(live.routes, r.host).value.upstream.tls
  }

  predicate HostVerified(op: Op, c: EdgeChange, live: LiveEdge) {
    match op.verb
    case Expose => Reachable(live, op.host)
    case Unexpose => !HasHost(live, op.host)
    case Rename => (forall r :: r in c.adds ==> Reachable(live, r.host)) && (forall h :: h in c.removes ==> !HasHost(live, h))
  }

  predicate EdgeVerified(op: Op, c: EdgeChange, live: LiveEdge) {
    live.deny && HostVerified(op, c, live) && AuthVerified(live, c.adds) && TlsVerified(live, c.adds)
  }

  predicate DnsShows(verb: Verb, want: Record, zone: Zone) {
    match verb
    case Expose => LastAt(zone, KeyOf(want)).Some? && LastAt(zone, KeyOf(want)).value.value == want.value
    case Unexpose => LastAt(zone, KeyOf(want)).None?
    case Rename => false
  }

  /** Two of the planner's three reasons to leave a provider out excuse it here too; an
      internal-only service does not. */
  predicate DnsVerified(op: Op, dp: DnsProvider, zone: Zone) {
    !ScopeSelected(op.scopes, dp.scope) || !Covers(dp, op.host) || DnsShows(op.verb, Desired(dp, op.host), zone)
  }

  /** What the read-back accepts. */
  predicate WorldVerified(cfg: Config, op: Op, edges: seq<EdgePlan>, w: World)
    requires PlansFit(cfg, w, edges)
  {
    && (forall j :: 0 <= j < |edges| ==> EdgeVerified(op, edges[j].change, w.edges[edges[j].edge]))
    && (forall i :: 0 <= i < |cfg.dns| ==> DnsVerified(op, cfg.dns[i], w.dns[i]))
  }

  // ----- when an honest run verifies -----

  /** The last record at a key of a name all of whose records have that key is the name's last. */
  lemma {:induction false} LastAtTyped(dp: DnsProvider, zone: Zone, want: Record)
    requires dp.kind == AdGuard && WellTyped(dp, zone)
    requires want.scope == dp.scope && want.rtype == dp.typeOf(want.value)
    requires LastByName(zone, want.name).Some? && LastByName(zone, want.name).value.value == want.value
    ensures LastAt(zone, KeyOf(want)).Some? && LastAt(zone, KeyOf(want)).value.value == want.value
  {
    var n := |zone| - 1;
    assert IsRewrite(dp, zone[n]);
    if !(zone[n].ours && zone[n].rec.name == want.name) {
      LastAtTyped(dp, zone[..n], want);
    }
  }

  lemma {:induction false} LastIsLastOurs(zone: Zone, key: Key)
    ensures OursAt(zone, key) != [] ==> LastAt(zone, key) == Some(OursAt(zone, key)[|OursAt(zone, key)| - 1])
    ensures OursAt(zone, key) == [] ==> LastAt(zone, key) == None
  {
    if zone != [] {
      var n := |zone| - 1;
      LastIsLastOurs(zone[..n], key);
      OursAtAppend(zone[..n], [zone[n]], key);
      assert zone == zone[..n] + [zone[n]] && [zone[n]][1..] == [];
    }
  }

  /** A satisfied provider shows the exposed record. */
  lemma SatisfiedShows(cfg: Config, op: Op, dp: DnsProvider, zone: Zone)
    requires DnsTakesPart(cfg, op, dp) && WellTyped(dp, zone) && op.verb == Expose
    requires PlanDns(cfg, op, dp, zone) == Ok(NoDnsChange)
    ensures DnsShows(Expose, Desired(dp, op.host), zone)
  {
    if dp.kind == AdGuard {
      LastAtTyped(dp, zone, Desired(dp, op.host));
    } else {
      LastIsLastOurs(zone, KeyOf(Desired(dp, op.host)));
    }
  }

  /** The world an honest, uninterrupted run ends in: every concerned provider has made its
      planned change, every other is untouched. */
  lemma CompletedRun(cfg: Config, w: World, depth: map<string, nat>, op: Op, steps: seq<Step>, env: Env, t: Target)
    requires OpRun(cfg, w, depth, op, steps, env, Advancing(|steps|)) && Known(cfg, t)
    ensures StepsFit(w, steps)
    ensures Concerns(cfg, op, t) ==> PlannedAt(cfg, op, t, Get(w, t)).Ok?
    ensures Get(Forward(w, steps, env, |steps|), t)
         == if Concerns(cfg, op, t) && !Satisfied(cfg, op, t, Get(w, t))
            then Effect(Get(w, t), PlannedAt(cfg, op, t, Get(w, t)).value) else Get(w, t)
  {
    BuiltSteps(cfg, w, depth, op);
    ConcernedIsPlanned(cfg, w, op, t);
    if i :| 0 <= i < |steps| && steps[i].target == t {
      assert steps[i] in steps && IsPlanned(cfg, w, depth, op, steps[i]);
      StageAt(w, steps, env, Advancing(|steps|), i);
    } else {
      assert !HasStep(steps, t);
      StageElsewhere(w, steps, env, Advancing(|steps|), t);
    }
  }

  lemma ConcernedIsPlanned(cfg: Config, w: World, op: Op, t: Target)
    requires Fits(cfg, w) && Plan(cfg, w, op).Ok? && Known(cfg, t)
    ensures Concerns(cfg, op, t) ==> PlannedAt(cfg, op, t, Get(w, t)).Ok?
  {
    if Concerns(cfg, op, t) {
      match t
      case EdgeAt(i) =>
        PlanEdgesListed(cfg, w, op, |cfg.edges|);
        var edges := Plan(cfg, w, op).value.edges;
        var j :| 0 <= j < |edges| && edges[j].edge == i;
        assert edges[j] in edges;
      case DnsAt(i) =>
        PlanAllDnsListed(cfg, w, op, |cfg.dns|);
    }
  }

  /** A provider the read-back asks but the planner never did: it is public, and the service
      is declared internal-only. */
  predicate AskedButNotPlanned(cfg: Config, op: Op, dp: DnsProvider) {
    ScopeSelected(op.scopes, dp.scope) && Covers(dp, op.host) && dp.scope == Public && op.service in cfg.internal
  }

  lemma ExposedEdge(cfg: Config, op: Op, i: nat, live: LiveEdge, c: EdgeChange)
    requires i < |cfg.edges| && op.verb == Expose && PlanEdge(cfg, op, i, live) == Ok(c)
    ensures HasHost(live, op.host) ==> EmptyEdge(c) && (EdgeVerified(op, c, live) <==> live.deny)
    ensures !HasHost(live, op.host) ==> !EmptyEdge(c) && EdgeVerified(op, c, ApplyEdge(live, c))
  {
    if !HasHost(live, op.host) {
      FindApplied(live, c, op.host);
      assert c.adds == [c.adds[0]];
      assert Added(c.adds, op.host) == Some(c.adds[0]);
    }
  }

  /** An exposed edge verifies unless it already had the host but lacked the deny. */
  lemma ExposedEdgeVerifies(cfg: Config, w: World, depth: map<string, nat>, op: Op, steps: seq<Step>, env: Env, p: EdgePlan)
    requires OpRun(cfg, w, depth, op, steps, env, Advancing(|steps|)) && op.verb == Expose
    requires p in Plan(cfg, w, op).value.edges
    ensures StepsFit(w, steps) && p.edge < |cfg.edges|
    ensures EdgeVerified(op, p.change, Forward(w, steps, env, |steps|).edges[p.edge])
       <==> (HasHost(w.edges[p.edge], op.host) ==> w.edges[p.edge].deny)
  {
    PlanEdgesListed(cfg, w, op, |cfg.edges|);
    CompletedRun(cfg, w, depth, op, steps, env, EdgeAt(p.edge));
    ExposedEdge(cfg, op, p.edge, w.edges[p.edge], p.change);
  }

  lemma ExposedDnsVerifies(cfg: Config, w: World, depth: map<string, nat>, op: Op, steps: seq<Step>, env: Env, i: nat)
    requires OpRun(cfg, w, depth, op, steps, env, Advancing(|steps|)) && op.verb == Expose && i < |cfg.dns|
    ensures StepsFit(w, steps)
    ensures DnsVerified(op, cfg.dns[i], Forward(w, steps, env, |steps|).dns[i])
       <==> (AskedButNotPlanned(cfg, op, cfg.dns[i]) ==> DnsShows(Expose, Desired(cfg.dns[i], op.host), w.dns[i]))
  {
    CompletedRun(cfg, w, depth, op, steps, env, DnsAt(i));
    if DnsTakesPart(cfg, op, cfg.dns[i]) {
      DnsPlanIsDelta(cfg, op, cfg.dns[i], w.dns[i]);
      SatisfiedShows(cfg, op, cfg.dns[i], Forward(w, steps, env, |steps|).dns[i]);
    }
  }

  /** Nothing stands in the way of the read-back: the deny was present on every participating
      edge that had the host already, and every provider that the read-back asks but the
      planner left out happens to answer the wanted value already. */
  ghost predicate ReadBackReady(cfg: Config, w: World, op: Op)
    requires Fits(cfg, w)
  {
    && (forall i :: 0 <= i < |cfg.edges| && TakesPart(cfg, op, i) && HasHost(w.edges[i], op.host) ==> w.edges[i].deny)
    && (forall i :: 0 <= i < |cfg.dns| && AskedButNotPlanned(cfg, op, cfg.dns[i]) ==>
          DnsShows(Expose, Desired(cfg.dns[i], op.host), w.dns[i]))
  }

  lemma EdgesVerifyIff(cfg: Config, w: World, depth: map<string, nat>, op: Op, steps: seq<Step>, env: Env, edges: seq<EdgePlan>)
    requires OpRun(cfg, w, depth, op, steps, env, Advancing(|steps|)) && op.verb == Expose
    requires edges == Plan(cfg, w, op).value.edges && PlansFit(cfg, w, edges)
    ensures StepsFit(w, steps)
    ensures (forall j :: 0 <= j < |edges| ==> EdgeVerified(op, edges[j].change, Forward(w, steps, env, |steps|).edges[edges[j].edge]))
       <==> (forall i :: 0 <= i < |cfg.edges| && TakesPart(cfg, op, i) && HasHost(w.edges[i], op.host) ==> w.edges[i].deny)
  {
    hide EdgeVerified, TakesPart, Forward;
    BuiltSteps(cfg, w, depth, op);
    PlanEdgesListed(cfg, w, op, |cfg.edges|);
    forall j | 0 <= j < |edges|
      ensures EdgeVerified(op, edges[j].change, Forward(w, steps, env, |steps|).edges[edges[j].edge])
         <==> (HasHost(w.edges[edges[j].edge], op.host) ==> w.edges[edges[j].edge].deny)
    {
      ExposedEdgeVerifies(cfg, w, depth, op, steps, env, edges[j]);
    }
    forall i | 0 <= i < |cfg.edges| && TakesPart(cfg, op, i) ensures exists j :: 0 <= j < |edges| && edges[j].edge == i {
      assert Listed(edges, i);
    }
    forall j | 0 <= j < |edges| ensures TakesPart(cfg, op, edges[j].edge) {
      assert edges[j] in edges;
    }
  }

  lemma ProvidersVerifyIff(cfg: Config, w: World, depth: map<string, nat>, op: Op, steps: seq<Step>, env: Env)
    requires OpRun(cfg, w, depth, op, steps, env, Advancing(|steps|)) && op.verb == Expose
    ensures StepsFit(w, steps)
    ensures (forall i :: 0 <= i < |cfg.dns| ==> DnsVerified(op, cfg.dns[i], Forward(w, steps, env, |steps|).dns[i]))
       <==> (forall i :: 0 <= i < |cfg.dns| && AskedButNotPlanned(cfg, op, cfg.dns[i]) ==>
               DnsShows(Expose, Desired(cfg.dns[i], op.host), w.dns[i]))
  {
    BuiltSteps(cfg, w, depth, op);
    forall i | 0 <= i < |cfg.dns|
      ensures DnsVerified(op, cfg.dns[i], Forward(w, steps, env, |steps|).dns[i])
         <==> (AskedButNotPlanned(cfg, op, cfg.dns[i]) ==> DnsShows(Expose, Desired(cfg.dns[i], op.host), w.dns[i]))
    {
      ExposedDnsVerifies(cfg, w, depth, op, steps, env, i);
    }
  }

  /** An honest expose, fully applied, verifies exactly when nothing stood in the way before
      it. In particular exposing an internal-only service never verifies while a public
      provider covers it without already answering it. */
  lemma HonestExposeVerifiesIff(cfg: Config, w: World, depth: map<string, nat>, op: Op, steps: seq<Step>, env: Env)
    requires OpRun(cfg, w, depth, op, steps, env, Advancing(|steps|)) && op.verb == Expose
    ensures StepsFit(w, steps) && PlansFit(cfg, Forward(w, steps, env, |steps|), Plan(cfg, w, op).value.edges)
    ensures WorldVerified(cfg, op, Plan(cfg, w, op).value.edges, Forward(w, steps, env, |steps|)) <==> ReadBackReady(cfg, w, op)
  {
    BuiltSteps(cfg, w, depth, op);
    PlanFits(cfg, w, op);
    EdgesVerifyIff(cfg, w, depth, op, steps, env, Plan(cfg, w, op).value.edges);
    ProvidersVerifyIff(cfg, w, depth, op, steps, env);
  }

  // ----- unexpose -----

  /** What the planned removal leaves at the wanted key: nothing, unless a rewrite of the host
      answers something else, which AdGuard's driver leaves alone, along with everything when
      that rewrite is the last reported one. */
  predicate LeavesNone(dp: DnsProvider, want: Record, zone: Zone) {
    Answered(zone, KeyOf(want)) && dp.kind == AdGuard ==>
      && LastByName(zone, want.name).Some? && LastByName(zone, want.name).value.value == want.value
      && forall e :: e in zone && Hits(e, KeyOf(want)) ==> e.rec.value == want.value
  }

  lemma RemovalShowsIff(cfg: Config, op: Op, dp: DnsProvider, zone: Zone)
    requires DnsTakesPart(cfg, op, dp) && op.verb == Unexpose && PlanDns(cfg, op, dp, zone).Ok?
    ensures DnsShows(Unexpose, Desired(dp, op.host), ApplyDns(zone, PlanDns(cfg, op, dp, zone).value))
       <==> LeavesNone(dp, Desired(dp, op.host), zone)
  {
    var want, c := Desired(dp, op.host), PlanDns(cfg, op, dp, zone).value;
    var key := KeyOf(want);
    LastAtListed(ApplyDns(zone, c), key);
    LastApplied(zone, c, key);
    if dp.kind == AdGuard {
      RewriteRemovalShowsIff(zone, want, c);
    } else {
      forall e | e in zone && Hits(e, key) ensures Removes(c, e) {
        OursAtMembers(zone, key, e.rec);
      }
    }
  }

  lemma RewriteRemovalShowsIff(zone: Zone, want: Record, c: DnsChange)
    requires AdGuardDiff(Unexpose, zone, want) == Ok(c)
    ensures LastAt(ApplyDns(zone, c), KeyOf(want)).None? <==>
      (Answered(zone, KeyOf(want)) ==>
        && LastByName(zone, want.name).Some? && LastByName(zone, want.name).value.value == want.value
        && forall e :: e in zone && Hits(e, KeyOf(want)) ==> e.rec.value == want.value)
  {
    var key, zone' := KeyOf(want), ApplyDns(zone, c);
    LastAtListed(zone', key);
    if c == NoDnsChange {
      ApplyNone(zone, c);
    } else {
      forall e ensures e in zone' <==> e in zone && !Removes(c, e) {
        AppliedMembers(zone, c, e);
      }
      forall e | Hits(e, key) ensures Removes(c, e) <==> e.rec.value == want.value {
        assert SameAnswer(want, e.rec) <==> e.rec.value == want.value;
        assert want in c.removes;
      }
      if e :| e in zone && Hits(e, key) && e.rec.value != want.value {
        assert e in zone' && Hits(e, key);
      }
    }
  }

  /** Nothing stands in the way of an unexpose's read-back: the deny was present on every
      participating edge that lacked the host already, and every provider the read-back asks
      that reports a record of the host was planned for, and its removal leaves none. */
  ghost predicate UnexposeReady(cfg: Config, w: World, op: Op)
    requires Fits(cfg, w)
  {
    && (forall i :: 0 <= i < |cfg.edges| && TakesPart(cfg, op, i) && !HasHost(w.edges[i], op.host) ==> w.edges[i].deny)
    && (forall i :: 0 <= i < |cfg.dns| ==> Withdrawable(cfg, op, cfg.dns[i], w.dns[i]))
  }

  ghost predicate Withdrawable(cfg: Config, op: Op, dp: DnsProvider, zone: Zone) {
    var want := Desired(dp, op.host);
    ScopeSelected(op.scopes, dp.scope) && Covers(dp, op.host) && Answered(zone, KeyOf(want)) ==>
      DnsTakesPart(cfg, op, dp) && LeavesNone(dp, want, zone)
  }

  lemma UnexposedEdge(cfg: Config, op: Op, i: nat, live: LiveEdge, c: EdgeChange)
    requires i < |cfg.edges| && op.verb == Unexpose && PlanEdge(cfg, op, i, live) == Ok(c)
    ensures !HasHost(live, op.host) ==> EmptyEdge(c) && (EdgeVerified(op, c, live) <==> live.deny)
    ensures HasHost(live, op.host) ==> !EmptyEdge(c) && EdgeVerified(op, c, ApplyEdge(live, c))
  {
    FindApplied(live, c, op.host);
  }

  lemma UnexposedEdgeVerifies(cfg: Config, w: World, depth: map<string, nat>, op: Op, steps: seq<Step>, env: Env, p: EdgePlan)
    requires OpRun(cfg, w, depth, op, steps, env, Advancing(|steps|)) && op.verb == Unexpose
    requires p in Plan(cfg, w, op).value.edges
    ensures StepsFit(w, steps) && p.edge < |cfg.edges|
    ensures EdgeVerified(op, p.change, Forward(w, steps, env, |steps|).edges[p.edge])
       <==> (!HasHost(w.edges[p.edge], op.host) ==> w.edges[p.edge].deny)
  {
    PlanEdgesListed(cfg, w, op, |cfg.edges|);
    CompletedRun(cfg, w, depth, op, steps, env, EdgeAt(p.edge));
    UnexposedEdge(cfg, op, p.edge, w.edges[p.edge], p.change);
  }

  lemma UnexposedDnsVerifies(cfg: Config, w: World, depth: map<string, nat>, op: Op, steps: seq<Step>, env: Env, i: nat)
    requires OpRun(cfg, w, depth, op, steps, env, Advancing(|steps|)) && op.verb == Unexpose && i < |cfg.dns|
    ensures StepsFit(w, steps)
    ensures DnsVerified(op, cfg.dns[i], Forward(w, steps, env, |steps|).dns[i]) <==> Withdrawable(cfg, op, cfg.dns[i], w.dns[i])
  {
    CompletedRun(cfg, w, depth, op, steps, env, DnsAt(i));
    if DnsTakesPart(cfg, op, cfg.dns[i]) {
      RemovalShowsIff(cfg, op, cfg.dns[i], w.dns[i]);
      ApplyNone(w.dns[i], NoDnsChange);
    } else {
      LastAtListed(w.dns[i], KeyOf(Desired(cfg.dns[i], op.host)));
    }
  }

  lemma UnexposedEdgesVerifyIff(cfg: Config, w: World, depth: map<string, nat>, op: Op, steps: seq<Step>, env: Env, edges: seq<EdgePlan>)
    requires OpRun(cfg, w, depth, op, steps, env, Advancing(|steps|)) && op.verb == Unexpose
    requires edges == Plan(cfg, w, op).value.edges && PlansFit(cfg, w, edges)
    ensures StepsFit(w, steps)
    ensures (forall j :: 0 <= j < |edges| ==> EdgeVerified(op, edges[j].change, Forward(w, steps, env, |steps|).edges[edges[j].edge]))
       <==> (forall i :: 0 <= i < |cfg.edges| && TakesPart(cfg, op, i) && !HasHost(w.edges[i], op.host) ==> w.edges[i].deny)
  {
    hide EdgeVerified, TakesPart, Forward;
    BuiltSteps(cfg, w, depth, op);
    PlanEdgesListed(cfg, w, op, |cfg.edges|);
    forall j | 0 <= j < |edges|
      ensures EdgeVerified(op, edges[j].change, Forward(w, steps, env, |steps|).edges[edges[j].edge])
         <==> (!HasHost(w.edges[edges[j].edge], op.host) ==> w.edges[edges[j].edge].deny)
    {
      UnexposedEdgeVerifies(cfg, w, depth, op, steps, env, edges[j]);
    }
    forall i | 0 <= i < |cfg.edges| && TakesPart(cfg, op, i) ensures exists j :: 0 <= j < |edges| && edges[j].edge == i {
      assert Listed(edges, i);
    }
    forall j | 0 <= j < |edges| ensures TakesPart(cfg, op, edges[j].edge) {
      assert edges[j] in edges;
    }
  }

  /** An honest unexpose, fully applied, verifies exactly when nothing stood in the way before
      it. In particular it never verifies while an AdGuard rewrite answers the host with
      something else of the same type, nor, for an internal-only service, while a covering
      public provider reports the record. */
  lemma HonestUnexposeVerifiesIff(cfg: Config, w: World, depth: map<string, nat>, op: Op, steps: seq<Step>, env: Env)
    requires OpRun(cfg, w, depth, op, steps, env, Advancing(|steps|)) && op.verb == Unexpose
    ensures StepsFit(w, steps) && PlansFit(cfg, Forward(w, steps, env, |steps|), Plan(cfg, w, op).value.edges)
    ensures WorldVerified(cfg, op, Plan(cfg, w, op).value.edges, Forward(w, steps, env, |steps|)) <==> UnexposeReady(cfg, w, op)
  {
    BuiltSteps(cfg, w, depth, op);
    PlanFits(cfg, w, op);
    UnexposedEdgesVerifyIff(cfg, w, depth, op, steps, env, Plan(cfg, w, op).value.edges);
    forall i | 0 <= i < |cfg.dns|
      ensures DnsVerified(op, cfg.dns[i], Forward(w, steps, env, |steps|).dns[i]) <==> Withdrawable(cfg, op, cfg.dns[i], w.dns[i])
    {
      UnexposedDnsVerifies(cfg, w, depth, op, steps, env, i);
    }
  }

  // ----- rename -----

  /** A rename can never verify while some provider covers the new host: the read-back of a
      provider knows no rename. */
  lemma RenameNeedsUncoveredHost(cfg: Config, op: Op, edges: seq<EdgePlan>, w: World)
    requires PlansFit(cfg, w, edges) && op.verb == Rename
    ensures WorldVerified(cfg, op, edges, w) <==>
      && (forall i :: 0 <= i < |cfg.dns| ==> !(ScopeSelected(op.scopes, cfg.dns[i].scope) && Covers(cfg.dns[i], op.host)))
      && (forall j :: 0 <= j < |edges| ==> EdgeVerified(op, edges[j].change, w.edges[edges[j].edge]))
  {
  }
}
