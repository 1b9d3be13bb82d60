/** The transactional engine (internal/core): the providers as the mutable objects they are,
    and the engine's operations over them, each proved against its specification. */
module Engine {
  import opened Model
  import opened Zones
  import T = Topology
  import opened Planner
  import opened Steps
  import opened Runs
  import opened Orders
  import opened Verify
  import opened Gate
  import opened Flow
  import opened Changes
  import opened Renaming
  import opened Canonical
  import opened Reconcile
  import opened ReconcileDns
  import opened Converge
  import opened Declarative
  import opened DeclarativeRun

  class EdgeProvider {
    var live: LiveEdge

    constructor (initial: LiveEdge)
      ensures live == initial
    {
      live := initial;
    }

    method ReadLiveState(fails: bool) returns (r: Result<LiveEdge>)
      ensures r == if fails then Err else Ok(live)
    {
      r := if fails then Err else Ok(live);
    }

    /** Removes precede adds. */
    method Apply(c: EdgeChange, reply: Reply) returns (ok: bool)
      modifies this
      ensures ok == Accepted(reply)
      ensures EdgeSlot(live) == Reacted(EdgeSlot(old(live)), OnEdge(c), reply)
    {
      match reply
      case Done =>
        var kept := Without(live.routes, c.removes);
        var i := 0;
        while i < |c.adds|
          invariant 0 <= i <= |c.adds|
          invariant kept == PutAll(Without(live.routes, c.removes), c.adds[..i])
        {
          assert c.adds[..i + 1][..i] == c.adds[..i];
          kept := Put(kept, c.adds[i]);
          i := i + 1;
        }
        assert c.adds[..|c.adds|] == c.adds;
        live := live.(routes := kept, deny := true);
        ok := true;
      case Refused => ok := false;
      case Rogue(reported, after) =>
        if after.EdgeSlot? { live := after.live; }
        ok := reported;
    }

    /** Stamps the marker on the routes of the named hosts. */
    method Adopt(hosts: seq<Host>, fails: bool) returns (ok: bool)
      modifies this
      ensures ok == !fails
      ensures live == if fails then old(live) else AdoptedEdge(old(live), hosts)
    {
      if fails {
        return false;
      }
      var routes := live.routes;
      for i := 0 to |routes|
        invariant |routes| == |live.routes|
        invariant forall k :: 0 <= k < |routes| ==>
          routes[k] == if k < i && live.routes[k].host in hosts then Marked(live.routes[k]) else live.routes[k]
      {
        if routes[i].host in hosts {
          routes := routes[i := Marked(routes[i])];
        }
      }
      assert routes == Adopted(live.routes, hosts);
      live := live.(routes := routes);
      return true;
    }
  }

  class DnsBackend {
    var zone: Zone

    constructor (initial: Zone)
      ensures zone == initial
    {
      zone := initial;
    }

    method Apply(c: DnsChange, reply: Reply) returns (ok: bool)
      modifies this
      ensures ok == Accepted(reply)
      ensures DnsSlot(zone) == Reacted(DnsSlot(old(zone)), OnDns(c), reply)
    {
      match reply
      case Done =>
        var kept := Remaining(zone, c);
        var i := 0;
        while i < |c.adds|
          invariant 0 <= i <= |c.adds|
          invariant kept == if c.DnsChange? then PutRecords(Remaining(zone, c), c.adds[..i]) else AppendRecords(Remaining(zone, c), c.adds[..i])
        {
          assert c.adds[..i + 1][..i] == c.adds[..i];
          kept := if c.DnsChange? then PutRecord(kept, c.adds[i]) else kept + [Entry(c.adds[i], true)];
          i := i + 1;
        }
        assert c.adds[..|c.adds|] == c.adds;
        zone := kept;
        ok := true;
      case Refused => ok := false;
      case Rogue(reported, after) =>
        if after.DnsSlot? { zone := after.zone; }
        ok := reported;
    }
  }

  class Engine {
    const cfg: Config
    const edges: seq<EdgeProvider>
    const dns: seq<DnsBackend>
    const flags: Flags

    ghost predicate Valid() {
      && |edges| == |cfg.edges| && |dns| == |cfg.dns|
      && (forall i, j :: 0 <= i < j < |edges| ==> edges[i] != edges[j])
      && (forall i, j :: 0 <= i < j < |dns| ==> dns[i] != dns[j])
    }

    /** The live state of every provider. */
    ghost function Snapshot(): World
      reads edges, dns
    {
      World(seq(|edges|, i requires 0 <= i < |edges| reads edges => edges[i].live),
            seq(|dns|, i requires 0 <= i < |dns| reads dns => dns[i].zone))
    }

    constructor (cfg: Config, edges: seq<EdgeProvider>, dns: seq<DnsBackend>, flags: Flags)
      requires |edges| == |cfg.edges| && |dns| == |cfg.dns|
      requires forall i, j :: 0 <= i < j < |edges| ==> edges[i] != edges[j]
      requires forall i, j :: 0 <= i < j < |dns| ==> dns[i] != dns[j]
      ensures Valid() && this.cfg == cfg && this.edges == edges && this.dns == dns && this.flags == flags
    {
      this.cfg, this.edges, this.dns, this.flags := cfg, edges, dns, flags;
    }

    /** One Apply call on the target provider. */
    method Call(t: Target, c: Change, reply: Reply) returns (ok: bool)
      requires Valid() && Within(Snapshot(), t) && ChangeFits(t, c)
      modifies edges, dns
      ensures ok == Accepted(reply)
      ensures Snapshot() == React(old(Snapshot()), t, c, reply)
    {
      match t
      case EdgeAt(i) => ok := edges[i].Apply(c.edgeChange, reply);
      case DnsAt(i) => ok := dns[i].Apply(c.dnsChange, reply);
    }

    /** The forward loop: stops at the first step not accepted. */
    method RunSteps(steps: seq<Step>, env: Env) returns (k: nat)
      requires Valid() && StepsFit(Snapshot(), steps)
      modifies edges, dns
      ensures k == Stops(steps, env)
      ensures Snapshot() == Stopped(old(Snapshot()), steps, env)
    {
      hide Stops, React;
      k := 0;
      while k < |steps|
        invariant k <= |steps|
        invariant forall i :: 0 <= i < k ==> Accepted(env.onDo(steps[i].target))
        invariant Snapshot() == Forward(old(Snapshot()), steps, env, k)
      {
        var ok := Call(steps[k].target, steps[k].fwd, env.onDo(steps[k].target));
        if !ok {
          StopsAt(steps, env, k);
          return;
        }
        k := k + 1;
      }
      StopsAt(steps, env, k);
    }

    /** Reverse-order compensation; each edge is probed at most once, and a wedged one is
        skipped and named. */
    method Rollback(applied: seq<Step>, env: Env) returns (errors: seq<Target>)
      requires Valid() && StepsFit(Snapshot(), applied)
      modifies edges, dns
      ensures errors == RollbackErrors(applied, env, 0)
      ensures Snapshot() == Back(old(Snapshot()), applied, env, 0)
    {
      errors := [];
      var wedged: map<nat, bool> := map[];
      var i := |applied|;
      while i > 0
        invariant 0 <= i <= |applied|
        invariant forall e :: e in wedged ==> wedged[e] == env.wedged(e)
        invariant errors == RollbackErrors(applied, env, i)
        invariant Snapshot() == Back(old(Snapshot()), applied, env, i)
      {
        i := i - 1;
        var s := applied[i];
        if s.target.EdgeAt? && s.target.edge !in wedged {
          wedged := wedged[s.target.edge := env.wedged(s.target.edge)];
        }
        if s.target.EdgeAt? && wedged[s.target.edge] {
          errors := errors + [s.target];
        } else {
          var ok := Call(s.target, s.inv, env.onUndo(s.target));
          if !ok {
            errors := errors + [s.target];
          }
        }
      }
    }

    /** Re-reads every participating provider. */
    method ReadBack(op: Op, plans: seq<EdgePlan>, a: Answers) returns (ok: bool, unavailable: seq<nat>)
      requires Valid() && PlansFit(cfg, Snapshot(), plans)
      ensures ok == ReadsBack(cfg, op, plans, Snapshot(), a)
      ensures unavailable == Unavailables(plans, a)
    {
      hide EdgeReadsBack, DnsReadsBack;
      var edgesOk, dnsOk;
      edgesOk, unavailable := ReadBackEdges(op, plans, a);
      dnsOk := ReadBackRecords(op, a);
      ok := edgesOk && dnsOk;
    }

    method ReadBackEdges(op: Op, plans: seq<EdgePlan>, a: Answers) returns (ok: bool, unavailable: seq<nat>)
      requires Valid() && PlansFit(cfg, Snapshot(), plans)
      ensures ok == forall j :: 0 <= j < |plans| ==> EdgeReadsBack(op, plans[j], Snapshot().edges[plans[j].edge], a)
      ensures unavailable == Unavailables(plans, a)
    {
      hide EdgeVerified;
      ok, unavailable := true, [];
      for j := 0 to |plans|
        invariant ok == forall k :: 0 <= k < j ==> EdgeReadsBack(op, plans[k], Snapshot().edges[plans[k].edge], a)
        invariant unavailable == Unavailables(plans[..j], a)
      {
        var p := plans[j];
        var live := edges[p.edge].ReadLiveState(a.rereadFails(EdgeAt(p.edge)));
        if live.Err? || !EdgeVerified(op, p.change, live.value) || a.runtime(p.edge) == Failed {
          ok := false;
        }
        assert plans[..j + 1][..j] == plans[..j];
        if a.runtime(p.edge) == Unavailable {
          unavailable := unavailable + [p.edge];
        }
      }
      assert plans[..|plans|] == plans;
    }

    method ReadBackRecords(op: Op, a: Answers) returns (ok: bool)
      requires Valid()
      ensures ok == forall i :: 0 <= i < |cfg.dns| ==> DnsReadsBack(op, cfg.dns[i], i, Snapshot().dns[i], a)
    {
      hide DnsReadsBack;
      ok := true;
      for i := 0 to |dns|
        invariant ok == forall k :: 0 <= k < i ==> DnsReadsBack(op, cfg.dns[k], k, Snapshot().dns[k], a)
      {
        if !DnsReadsBack(op, cfg.dns[i], i, dns[i].zone, a) {
          ok := false;
        }
      }
    }

    /** Rolls back, if that is enabled and anything was applied. */
    method Unwind(applied: seq<Step>, env: Env, through: bool, why: Failure) returns (rep: Report)
      requires Valid() && StepsFit(Snapshot(), applied)
      modifies edges, dns
      ensures (rep, Snapshot()) == RolledBack(old(Snapshot()), applied, env, flags, through, why)
    {
      rep := Report(through, false, false, [], Some(why));
      if flags.rollback && applied != [] {
        var errors := Rollback(applied, env);
        rep := rep.(rolledBack := true, errors := errors);
      }
    }

    /** Rolls back after a failed or unconfirmed read-back. */
    method Conclude(steps: seq<Step>, env: Env, ok: bool, unavailable: seq<nat>) returns (rep: Report)
      requires Valid() && StepsFit(Snapshot(), steps)
      modifies edges, dns
      ensures !ok ==> (rep, Snapshot()) == RolledBack(old(Snapshot()), steps, env, flags, true, VerifyFailed)
      ensures ok && !flags.allowUnverified && unavailable != [] ==>
        (rep, Snapshot()) == RolledBack(old(Snapshot()), steps, env, flags, true, RuntimeUnconfirmed(unavailable))
      ensures ok && (flags.allowUnverified || unavailable == []) ==>
        rep == Report(true, false, false, [], None) && Snapshot() == old(Snapshot())
    {
      if !ok {
        rep := Unwind(steps, env, true, VerifyFailed);
      } else if !flags.allowUnverified && unavailable != [] {
        rep := Unwind(steps, env, true, RuntimeUnconfirmed(unavailable));
      } else {
        rep := Report(true, false, false, [], None);
      }
    }

    /** Apply, read back and, if need be, roll back. */
    method Execute(steps: seq<Step>, op: Op, plans: seq<EdgePlan>, a: Answers) returns (rep: Report)
      requires Valid() && PlansFit(cfg, Snapshot(), plans) && StepsFit(Snapshot(), steps)
      modifies edges, dns
      ensures (rep, Snapshot()) == ExecutedOp(cfg, old(Snapshot()), steps, op, plans, flags, a)
    {
      var k := RunSteps(steps, a.env);
      if k < |steps| {
        rep := Unwind(steps[..k], a.env, false, StepFailed);
        return;
      }
      var ok, unavailable := ReadBack(op, plans, a);
      rep := Conclude(steps, a.env, ok, unavailable);
    }

    /** The whole flow for a change set already planned. */
    method ApplyPlanned(cs: ChangeSet, a: Answers) returns (rep: Report, depth: map<string, nat>)
      requires Valid() && PlansFit(cfg, Snapshot(), cs.edges) && |cs.dns| <= |cfg.dns|
      modifies edges, dns
      ensures T.ExactDepth(cfg.edges, depth)
      ensures (rep, Snapshot()) == Outcome(cfg, old(Snapshot()), depth, cs, flags, a)
    {
      hide Refusal, ExecutedOp, BuildSteps, Stopped;
      depth := T.ChainDepth(cfg.edges);
      var refusal := Admit(cs, a);
      if refusal.Some? {
        return refusal.value, depth;
      }
      if SnapshotsFail(cs.edges, a) {
        return Untouched(false, Some(SnapshotFailed)), depth;
      }
      var now := Read();
      BuiltFit(cfg, now, depth, cs);
      rep := Execute(BuildSteps(cfg, now, depth, cs), cs.op, cs.edges, a);
    }

    /** The checks before anything is touched. */
    method Admit(cs: ChangeSet, a: Answers) returns (refusal: Option<Report>)
      requires Valid() && PlansFit(cfg, Snapshot(), cs.edges)
      ensures refusal == Refusal(cfg, Snapshot(), cs, flags, a)
    {
      if EmptySet(cs) {
        return Some(Untouched(true, None));
      }
      refusal := AskGateAndConfirm(cs, a);
    }

    method AskGateAndConfirm(cs: ChangeSet, a: Answers) returns (refusal: Option<Report>)
      requires Valid() && PlansFit(cfg, Snapshot(), cs.edges)
      ensures refusal == GateAndConfirm(cfg, Snapshot(), cs, flags, a)
    {
      var admitted := AskGate(cs);
      if !admitted {
        return Some(Untouched(false, Some(GateRefused)));
      }
      match a.confirms
      case Broken => return Some(Untouched(false, Some(ConfirmBroken)));
      case No => return Some(Untouched(false, None));
      case Yes => return None;
    }

    /** Reads the whole live state. */
    method Read() returns (w: World)
      requires Valid()
      ensures w == Snapshot()
    {
      var es, zs := [], [];
      for i := 0 to |edges|
        invariant |es| == i && forall k :: 0 <= k < i ==> es[k] == edges[k].live
      {
        es := es + [edges[i].live];
      }
      for i := 0 to |dns|
        invariant |zs| == i && forall k :: 0 <= k < i ==> zs[k] == dns[k].zone
      {
        zs := zs + [dns[i].zone];
      }
      w := World(es, zs);
    }

    method AskGate(cs: ChangeSet) returns (ok: bool)
      requires Valid() && PlansFit(cfg, Snapshot(), cs.edges)
      ensures ok == GateOwnership(cfg, Snapshot(), cs.op, cs.edges, flags.force)
    {
      var w := Read();
      if !GateChain(cfg, w, cs.op, flags.force) {
        return false;
      }
      for j := 0 to |cs.edges|
        invariant forall k :: 0 <= k < j ==> GateEdge(w.edges[cs.edges[k].edge], cs.edges[k].change, flags.force)
      {
        if !GateEdge(w.edges[cs.edges[j].edge], cs.edges[j].change, flags.force) {
          return false;
        }
      }
      return true;
    }

    /** Plans an operation against live state, edge by edge and provider by provider. */
    method PlanOp(op: Op) returns (r: Result<ChangeSet>)
      requires Valid()
      ensures r == Plan(cfg, Snapshot(), op)
    {
      hide PlanEdge, PlanDns, TakesPart;
      if !AuthFits(op.mode, op.auth) || (op.service in cfg.internal && Public in op.scopes) {
        return Err;
      }
      ghost var w := Snapshot();
      var plans: seq<EdgePlan> := [];
      for i := 0 to |edges|
        invariant PlanEdges(cfg, w, op, i) == Ok(plans)
      {
        if TakesPart(cfg, op, i) {
          var c := PlanEdge(cfg, op, i, edges[i].live);
          if c.Err? {
            PlanEdgesErr(cfg, w, op, i + 1, |edges|);
            return Err;
          }
          plans := plans + [EdgePlan(i, c.value)];
        }
      }
      if op.verb == Expose && plans == [] {
        return Err;
      }
      var changes: seq<DnsChange> := [];
      for i := 0 to |dns|
        invariant PlanAllDns(cfg, w, op, i) == Ok(changes)
      {
        var c := PlanDns(cfg, op, cfg.dns[i], dns[i].zone);
        if c.Err? {
          PlanAllDnsErr(cfg, w, op, i + 1, |dns|);
          return Err;
        }
        changes := changes + [c.value];
      }
      return Ok(ChangeSet(op, plans, changes));
    }

    /** Re-drives an operation from whatever state the world is in: plan, then the same flow. */
    method Resume(op: Op, a: Answers) returns (r: Result<Report>, depth: map<string, nat>)
      requires Valid()
      modifies edges, dns
      ensures Plan(cfg, old(Snapshot()), op).Err? ==> r == Err && Snapshot() == old(Snapshot())
      ensures Plan(cfg, old(Snapshot()), op).Ok? ==>
        var cs := Plan(cfg, old(Snapshot()), op).value;
        && PlansFit(cfg, old(Snapshot()), cs.edges) && |cs.dns| == |cfg.dns|
        && r == Ok(Outcome(cfg, old(Snapshot()), depth, cs, flags, a).0)
        && Snapshot() == Outcome(cfg, old(Snapshot()), depth, cs, flags, a).1
      ensures r.Ok? ==> T.ExactDepth(cfg.edges, depth)
    {
      var cs := PlanOp(op);
      if cs.Err? {
        return Err, map[];
      }
      PlanFits(cfg, Snapshot(), op);
      var rep;
      rep, depth := ApplyPlanned(cs.value, a);
      r := Ok(rep);
    }

    /** Plans a rename, edge by edge. */
    method PlanMove(oldHost: Host, newHost: Host) returns (r: Result<ChangeSet>)
      requires Valid()
      ensures r == PlanRename(Snapshot(), oldHost, newHost)
    {
      if oldHost == "" || newHost == "" || oldHost == newHost {
        return Err;
      }
      ghost var w := Snapshot();
      var plans: seq<EdgePlan> := [];
      for i := 0 to |edges|
        invariant RenameEdges(w, oldHost, newHost, i) == Ok(plans)
      {
        var src := Find(edges[i].live.routes, oldHost);
        if src.Some? {
          if HasHost(edges[i].live, newHost) || src.value.upstream.auth == AUTH_DETECTED {
            RenameEdgesErr(w, oldHost, newHost, i + 1, |edges|);
            return Err;
          }
          plans := plans + [EdgePlan(i, EdgeChange([Renamed(src.value, newHost)], [oldHost]))];
        } else {
          assert plans + [] == plans;
        }
      }
      if plans == [] {
        return Err;
      }
      return Ok(ChangeSet(RenameOp(newHost), plans, []));
    }

    /** A rename runs through the same flow as every other change. */
    method Move(oldHost: Host, newHost: Host, a: Answers) returns (r: Result<Report>, depth: map<string, nat>)
      requires Valid()
      modifies edges, dns
      ensures PlanRename(old(Snapshot()), oldHost, newHost).Err? ==> r == Err && Snapshot() == old(Snapshot())
      ensures PlanRename(old(Snapshot()), oldHost, newHost).Ok? ==>
        var cs := PlanRename(old(Snapshot()), oldHost, newHost).value;
        && PlansFit(cfg, old(Snapshot()), cs.edges) && |cs.dns| <= |cfg.dns|
        && r == Ok(Outcome(cfg, old(Snapshot()), depth, cs, flags, a).0)
        && Snapshot() == Outcome(cfg, old(Snapshot()), depth, cs, flags, a).1
      ensures r.Ok? ==> T.ExactDepth(cfg.edges, depth)
    {
      var cs := PlanMove(oldHost, newHost);
      if cs.Err? {
        return Err, map[];
      }
      RenameEdgesListed(Snapshot(), oldHost, newHost, |edges|);
      var rep;
      rep, depth := ApplyPlanned(cs.value, a);
      r := Ok(rep);
    }

    // ----- reconcile -----

    /** Scans the edges in order, route by route. */
    method DeriveCanon() returns (canon: Canon)
      requires Valid()
      ensures canon == CanonOf(cfg, Snapshot())
    {
      ghost var w := Snapshot();
      canon := map[];
      for i := 0 to |edges|
        invariant canon == Scan(cfg, w, i)
      {
        var routes := edges[i].live.routes;
        ghost var before := canon;
        for j := 0 to |routes|
          invariant canon == ScanEdge(cfg, i, before, routes[..j])
        {
          assert routes[..j + 1][..j] == routes[..j];
          canon := Notice(cfg, i, canon, routes[j]);
        }
        assert routes[..|routes|] == routes;
      }
    }

    /** Lists the canonical hosts. The source sorts them; nothing proved depends on the order. */
    method ListHosts(canon: Canon) returns (order: seq<Host>)
      ensures Lists(order, canon)
    {
      order := [];
      var left := canon.Keys;
      while left != {}
        invariant left <= canon.Keys
        invariant forall h :: h in order <==> h in canon && h !in left
        invariant forall i, j :: 0 <= i < j < |order| ==> order[i] != order[j]
        decreases |left|
      {
        var h :| h in left;
        assert h !in order;
        order := order + [h];
        left := left - {h};
      }
    }

    /** The corrections one edge needs. */
    method CorrectEdge(canon: Canon, order: seq<Host>, i: nat) returns (r: Result<EdgeChange>)
      requires Valid() && i < |edges| && forall h :: h in order ==> h in canon
      ensures r == EdgePass(cfg, canon, order, i, edges[i].live)
    {
      var live, ec := edges[i].live, NoEdgeChange;
      for j := 0 to |order|
        invariant EdgePass(cfg, canon, order[..j], i, live) == Ok(ec)
      {
        assert order[..j + 1][..j] == order[..j];
        var c := Correction(cfg, i, live, order[j], canon[order[j]]);
        if c.Err? {
          EdgePassErr(cfg, canon, order, i, live, j + 1);
          return Err;
        }
        ec := EdgeChange(ec.adds + c.value.adds, ec.removes + c.value.removes);
      }
      assert order[..|order|] == order;
      return Ok(ec);
    }

    /** The missing, misdirected and stale records of one provider. */
    method CorrectDns(canon: Canon, order: seq<Host>, i: nat) returns (r: Result<DnsChange>)
      requires Valid() && i < |dns|
      ensures r == DnsPass(cfg, canon, order, cfg.dns[i], dns[i].zone)
    {
      var dp, zone, adds, removes := cfg.dns[i], dns[i].zone, [], [];
      for j := 0 to |order|
        invariant DnsAdds(cfg, dp, zone, order[..j]) == Ok(adds)
      {
        assert order[..j + 1][..j] == order[..j];
        if Demanded(cfg, dp, order[j]) {
          if order[j] == "" {
            DnsAddsErr(cfg, dp, zone, order, j + 1);
            return Err;
          }
          if Corrects(dp, zone, Desired(dp, order[j])) {
            adds := adds + [Desired(dp, order[j])];
          } else {
            assert adds + [] == adds;
          }
        }
      }
      assert order[..|order|] == order;
      for j := 0 to |zone|
        invariant removes == StaleRecords(cfg, canon, zone[..j])
      {
        assert zone[..j + 1][..j] == zone[..j];
        if IsStale(cfg, canon, zone[j]) {
          removes := removes + [zone[j].rec];
        }
      }
      assert zone[..|zone|] == zone;
      return Ok(ChangeFor(dp, adds, removes));
    }

    method CorrectEdges(canon: Canon, order: seq<Host>) returns (r: Result<seq<EdgeChange>>)
      requires Valid() && forall h :: h in order ==> h in canon
      ensures r == EdgePasses(cfg, canon, order, Snapshot(), |cfg.edges|)
    {
      hide EdgePass;
      ghost var w := Snapshot();
      var es := [];
      for i := 0 to |edges|
        invariant EdgePasses(cfg, canon, order, w, i) == Ok(es)
      {
        var c := CorrectEdge(canon, order, i);
        if c.Err? {
          EdgePassesErr(cfg, canon, order, w, i + 1, |edges|);
          return Err;
        }
        es := es + [c.value];
      }
      return Ok(es);
    }

    method CorrectAllDns(canon: Canon, order: seq<Host>) returns (r: Result<seq<DnsChange>>)
      requires Valid()
      ensures r == DnsPasses(cfg, canon, order, Snapshot(), |cfg.dns|)
    {
      hide DnsPass;
      ghost var w := Snapshot();
      var ds := [];
      for i := 0 to |dns|
        invariant DnsPasses(cfg, canon, order, w, i) == Ok(ds)
      {
        var c := CorrectDns(canon, order, i);
        if c.Err? {
          DnsPassesErr(cfg, canon, order, w, i + 1, |dns|);
          return Err;
        }
        ds := ds + [c.value];
      }
      return Ok(ds);
    }

    /** Detects drift without changing anything. */
    method DetectDrift(canon: Canon, order: seq<Host>) returns (r: Result<Passes>)
      requires Valid() && canon == CanonOf(cfg, Snapshot()) && forall h :: h in order ==> h in canon
      ensures r == PlanReconcile(cfg, Snapshot(), order)
    {
      var es := CorrectEdges(canon, order);
      if es.Err? {
        return Err;
      }
      var ds := CorrectAllDns(canon, order);
      if ds.Err? {
        return Err;
      }
      return Ok(Passes(es.value, ds.value));
    }

    /** Re-reads every provider against the canonical set the plan was made for. */
    method ReadBackReconcile(canon: Canon, order: seq<Host>, p: Passes, a: Answers) returns (ok: bool)
      requires Valid() && Lists(order, canon) && PassesFit(cfg, Snapshot(), p)
      ensures ok == (AllReread(cfg, a) && WorldAccepted(cfg, canon, p, Snapshot()))
    {
      ok := true;
      for i := 0 to |edges|
        invariant ok == forall k :: 0 <= k < i ==> !a.rereadFails(EdgeAt(k)) && EdgeAccepted(cfg, canon, k, edges[k].live, p.edges[k])
      {
        var live := edges[i].live;
        if a.rereadFails(EdgeAt(i)) || !live.deny {
          ok := false;
        } else {
          var j, fine := 0, true;
          while j < |order| && fine
            invariant j <= |order|
            invariant fine == forall k :: 0 <= k < j ==> HostConverged(cfg, i, live, order[k], canon[order[k]])
          {
            fine := HostConverged(cfg, i, live, order[j], canon[order[j]]);
            j := j + 1;
          }
          assert fine <==> forall h :: h in canon ==> HostConverged(cfg, i, live, h, canon[h]);
          if !fine || !(forall r :: r in p.edges[i].adds ==>
                          HasHost(live, r.host) && Find(live.routes, r.host).value.upstream.auth == r.upstream.auth) {
            ok := false;
          }
        }
      }
      var edgesOk := ok;
      for i := 0 to |dns|
        invariant ok == (edgesOk && forall k :: 0 <= k < i ==> !a.rereadFails(DnsAt(k)) && DnsAccepted(dns[k].zone, p.dns[k]))
      {
        if a.rereadFails(DnsAt(i)) || !DnsAccepted(dns[i].zone, p.dns[i]) {
          ok := false;
        }
      }
    }

    /** Applies a reconcile's steps and reads them back. */
    method RunReconcile(canon: Canon, order: seq<Host>, p: Passes, steps: seq<Step>, a: Answers) returns (rep: Report)
      requires Valid() && Lists(order, canon) && PassesFit(cfg, Snapshot(), p) && StepsFit(Snapshot(), steps)
      modifies edges, dns
      ensures PassesFit(cfg, Stopped(old(Snapshot()), steps, a.env), p)
      ensures (rep, Snapshot()) == Executed(old(Snapshot()), steps, a.env, flags,
                                            AllReread(cfg, a) && WorldAccepted(cfg, canon, p, Stopped(old(Snapshot()), steps, a.env)), [])
    {
      var k := RunSteps(steps, a.env);
      if k < |steps| {
        rep := Unwind(steps[..k], a.env, false, StepFailed);
      } else {
        var ok := ReadBackReconcile(canon, order, p, a);
        rep := Conclude(steps, a.env, ok, []);
      }
    }

    /** The checks, then the transaction. */
    method ApplyPasses(canon: Canon, order: seq<Host>, p: Passes, a: Answers) returns (rep: Report, depth: map<string, nat>)
      requires Valid() && Lists(order, canon) && PassesFit(cfg, Snapshot(), p)
      modifies edges, dns
      ensures T.ExactDepth(cfg.edges, depth)
      ensures (rep, Snapshot()) == PlannedReconcileOutcome(cfg, old(Snapshot()), depth, canon, p, flags, a)
    {
      hide Refusal, Executed, BuildSteps, Stopped, AllReread, WorldAccepted;
      depth := T.ChainDepth(cfg.edges);
      var cs := ChangesOf(p);
      PlanIsProper(cfg, Snapshot(), p);
      var refusal := Admit(cs, a);
      if refusal.Some? {
        return refusal.value, depth;
      }
      if SnapshotsFail(cs.edges, a) {
        return Untouched(false, Some(SnapshotFailed)), depth;
      }
      var now := Read();
      BuiltFit(cfg, now, depth, cs);
      rep := RunReconcile(canon, order, p, BuildSteps(cfg, now, depth, cs), a);
    }

    /** Detect and fix all drift, in one transaction. */
    method ReconcileAll(a: Answers) returns (r: Result<Report>, ghost order: seq<Host>, depth: map<string, nat>)
      requires Valid()
      modifies edges, dns
      ensures Lists(order, CanonOf(cfg, old(Snapshot())))
      ensures var o := ReconcileOutcome(cfg, old(Snapshot()), depth, order, flags, a);
        (o.Err? ==> r.Err? && Snapshot() == old(Snapshot())) && (o.Ok? ==> r == Ok(o.value.0) && Snapshot() == o.value.1)
      ensures T.ExactDepth(cfg.edges, depth)
    {
      hide PlannedReconcileOutcome, PlanReconcile, CanonOf, PassesFit;
      depth := T.ChainDepth(cfg.edges);
      var canon := DeriveCanon();
      var listed := ListHosts(canon);
      order := listed;
      var plan := DetectDrift(canon, listed);
      if plan.Err? {
        return Err, order, depth;
      }
      PlanFitsWorld(cfg, Snapshot(), listed);
      var rep;
      rep, depth := ApplyPasses(canon, listed, plan.value, a);
      r := Ok(rep);
    }

    // ----- declarative apply -----

    /** One more entry of the file, against every edge it lands on. */
    method PlaceEntry(exps: seq<Exposure>, k: nat, opts: Options, before: seq<Draft>) returns (r: Result<seq<Draft>>)
      requires Valid() && k < |exps| && |before| == |edges|
      requires forall m :: 0 <= m < |edges| ==> Placed(cfg, exps[..k], opts, m, edges[m].live) == Ok(before[m])
      ensures r.Err? ==> exists m :: 0 <= m < |edges| && Placed(cfg, exps[..k + 1], opts, m, edges[m].live).Err?
      ensures r.Ok? ==> |r.value| == |edges|
      ensures r.Ok? ==> forall m :: 0 <= m < |edges| ==> Placed(cfg, exps[..k + 1], opts, m, edges[m].live) == Ok(r.value[m])
    {
      var ex, drafts := exps[k], before;
      assert exps[..k + 1][..k] == exps[..k];
      for i := 0 to |edges|
        invariant |drafts| == |edges| && drafts[i..] == before[i..]
        invariant forall m :: 0 <= m < i ==> Placed(cfg, exps[..k + 1], opts, m, edges[m].live) == Ok(drafts[m])
      {
        var place := Place(cfg, ex, opts, i, edges[i].live);
        assert drafts[i] == drafts[i..][0] == before[i];
        if place.Fails? {
          assert Placed(cfg, exps[..k + 1], opts, i, edges[i].live).Err?;
          return Err;
        }
        drafts := drafts[i := Extended(drafts[i], ex.host, place)];
      }
      return Ok(drafts);
    }

    /** Every entry of the file against every edge it lands on. */
    method PlaceAll(exps: seq<Exposure>, opts: Options) returns (r: Result<seq<Draft>>)
      requires Valid()
      ensures r.Err? ==> PlanFile(cfg, Snapshot(), exps, opts).Err?
      ensures r.Ok? ==> FileValid(exps) && |r.value| == |edges|
      ensures r.Ok? ==> forall m :: 0 <= m < |edges| ==> Placed(cfg, exps, opts, m, edges[m].live) == Ok(r.value[m])
    {
      var drafts := seq(|edges|, i => EmptyDraft);
      for k := 0 to |exps|
        invariant |drafts| == |edges| && FileValid(exps[..k])
        invariant forall m :: 0 <= m < |edges| ==> Placed(cfg, exps[..k], opts, m, edges[m].live) == Ok(drafts[m])
      {
        if exps[k].host == "" || !AuthFits(exps[k].mode, exps[k].auth) {
          return Err;
        }
        var next := PlaceEntry(exps, k, opts, drafts);
        if next.Err? {
          ghost var m :| 0 <= m < |edges| && Placed(cfg, exps[..k + 1], opts, m, edges[m].live).Err?;
          PlacedErr(cfg, exps, opts, m, edges[m].live, k + 1);
          assert DraftEdge(cfg, exps, opts, m, Snapshot().edges[m]).Err?;
          DraftsAt(cfg, Snapshot(), exps, opts, |edges|);
          return Err;
        }
        drafts := next.value;
      }
      assert exps[..|exps|] == exps;
      return Ok(drafts);
    }

    /** The prune half of one edge's change. */
    method PruneEdge(exps: seq<Exposure>, i: nat) returns (removes: seq<Host>)
      requires Valid() && i < |edges|
      ensures removes == PrunedHosts(exps, edges[i].live.routes)
    {
      var routes := edges[i].live.routes;
      removes := [];
      for j := 0 to |routes|
        invariant removes == PrunedHosts(exps, routes[..j])
      {
        assert routes[..j + 1][..j] == routes[..j];
        if routes[j].managed && !InFile(exps, routes[j].host) {
          removes := removes + [routes[j].host];
        }
      }
      assert routes[..|routes|] == routes;
    }

    method DraftAllEdges(exps: seq<Exposure>, opts: Options) returns (r: Result<seq<Draft>>)
      requires Valid()
      ensures r.Err? ==> PlanFile(cfg, Snapshot(), exps, opts).Err?
      ensures r.Ok? ==> FileValid(exps) && r == Drafts(cfg, Snapshot(), exps, opts, |cfg.edges|)
    {
      r := PlaceAll(exps, opts);
      if r.Err? {
        return;
      }
      var drafts := r.value;
      for i := 0 to |edges|
        invariant |drafts| == |edges|
        invariant forall m :: 0 <= m < i ==> DraftEdge(cfg, exps, opts, m, edges[m].live) == Ok(drafts[m])
        invariant forall m :: i <= m < |edges| ==> Placed(cfg, exps, opts, m, edges[m].live) == Ok(drafts[m])
      {
        var removes := [];
        if opts.prune {
          removes := PruneEdge(exps, i);
        }
        drafts := drafts[i := drafts[i].(change := drafts[i].change.(removes := removes))];
      }
      DraftsAt(cfg, Snapshot(), exps, opts, |edges|);
      assert Drafts(cfg, Snapshot(), exps, opts, |edges|).value == drafts;
      return Ok(drafts);
    }

    method DraftProvider(exps: seq<Exposure>, opts: Options, i: nat) returns (r: Result<DnsChange>)
      requires Valid() && i < |dns|
      ensures r == DraftDns(cfg, exps, opts, cfg.dns[i], dns[i].zone)
    {
      var dp, zone, adds, removes := cfg.dns[i], dns[i].zone, [], [];
      for j := 0 to |exps|
        invariant FileAdds(exps[..j], dp, zone) == Ok(adds)
      {
        assert exps[..j + 1][..j] == exps[..j];
        if WantsRecord(exps[j], dp) {
          if exps[j].host == "" {
            FileAddsErr(exps, dp, zone, j + 1);
            return Err;
          }
          if !Answered(zone, KeyOf(Desired(dp, exps[j].host))) {
            adds := adds + [Desired(dp, exps[j].host)];
          } else {
            assert adds + [] == adds;
          }
        }
      }
      assert exps[..|exps|] == exps;
      if opts.prune {
        for j := 0 to |zone|
          invariant removes == PrunedRecords(cfg, exps, zone[..j])
        {
          assert zone[..j + 1][..j] == zone[..j];
          if zone[j].ours && Managed(cfg, zone[j].rec.name) && !InFile(exps, zone[j].rec.name) {
            removes := removes + [zone[j].rec];
          }
        }
        assert zone[..|zone|] == zone;
      }
      return Ok(ChangeFor(dp, adds, removes));
    }

    /** The previewed diff of the file against live state. */
    method PlanDeclarative(exps: seq<Exposure>, opts: Options) returns (r: Result<FilePlan>)
      requires Valid()
      ensures r == PlanFile(cfg, Snapshot(), exps, opts)
    {
      hide DraftDns, DraftEdge, FileValid;
      ghost var w := Snapshot();
      var drafts := DraftAllEdges(exps, opts);
      if drafts.Err? {
        return Err;
      }
      var changes := [];
      for i := 0 to |dns|
        invariant DnsDrafts(cfg, w, exps, opts, i) == Ok(changes)
      {
        var c := DraftProvider(exps, opts, i);
        if c.Err? {
          DnsDraftsErr(cfg, w, exps, opts, i + 1, |dns|);
          return Err;
        }
        changes := changes + [c.value];
      }
      return Ok(FilePlan(drafts.value, changes));
    }

    /** Adopts edge by edge, stopping at the first failure. */
    method AdoptInline(p: FilePlan, a: Answers) returns (ok: bool)
      requires Valid() && PlanShaped(cfg, Snapshot(), p)
      modifies edges
      ensures ok == (AdoptStops(p, a, |p.drafts|) == |p.drafts|)
      ensures Snapshot() == AdoptedUpTo(cfg, old(Snapshot()), p, AdoptStops(p, a, |p.drafts|))
    {
      hide PassesOf, AdoptedUpTo;
      ghost var w := Snapshot();
      AdoptedNone(cfg, w, p);
      for i := 0 to |edges|
        invariant AdoptStops(p, a, i) == i
        invariant Snapshot() == AdoptedUpTo(cfg, w, p, i)
      {
        ghost var was := Snapshot();
        if p.drafts[i].adopts != [] {
          var done := edges[i].Adopt(p.drafts[i].adopts, a.adoptFails(i));
          if !done {
            AdoptStopsAt(p, a, i, |p.drafts|);
            return false;
          }
        } else {
          assert Adopted(edges[i].live.routes, []) == edges[i].live.routes;
        }
        assert Snapshot().edges == was.edges[i := AdoptedEdge(was.edges[i], p.drafts[i].adopts)];
        AdoptedOneMore(cfg, w, p, i);
      }
      return true;
    }

    method ReadBackFile(p: FilePlan, a: Answers) returns (ok: bool)
      requires Valid() && PlanShaped(cfg, Snapshot(), p)
      ensures ok == (AllReread(cfg, a) && FileAccepted(cfg, p, Snapshot()))
    {
      ok := true;
      for i := 0 to |edges|
        invariant ok == forall k :: 0 <= k < i ==> !a.rereadFails(EdgeAt(k)) && FileEdgeAccepted(p, p.drafts[k], edges[k].live)
      {
        if a.rereadFails(EdgeAt(i)) || !FileEdgeAccepted(p, p.drafts[i], edges[i].live) {
          ok := false;
        }
      }
      var edgesOk := ok;
      for i := 0 to |dns|
        invariant ok == (edgesOk && forall k :: 0 <= k < i ==> !a.rereadFails(DnsAt(k)) && FileDnsAccepted(dns[k].zone, p.dns[k]))
      {
        if a.rereadFails(DnsAt(i)) || !FileDnsAccepted(dns[i].zone, p.dns[i]) {
          ok := false;
        }
      }
    }

    /** Applies a file's steps and reads them back. */
    method RunFile(p: FilePlan, steps: seq<Step>, a: Answers) returns (rep: Report)
      requires Valid() && PlanShaped(cfg, Snapshot(), p) && StepsFit(Snapshot(), steps)
      modifies edges, dns
      ensures PlanShaped(cfg, Stopped(old(Snapshot()), steps, a.env), p)
      ensures (rep, Snapshot()) == Executed(old(Snapshot()), steps, a.env, flags,
                                            AllReread(cfg, a) && FileAccepted(cfg, p, Stopped(old(Snapshot()), steps, a.env)), [])
    {
      var k := RunSteps(steps, a.env);
      if k < |steps| {
        rep := Unwind(steps[..k], a.env, false, StepFailed);
      } else {
        var ok := ReadBackFile(p, a);
        rep := Conclude(steps, a.env, ok, []);
      }
    }

    /** The gate, the confirmation, inline adoption, then the transaction. */
    method ApplyFilePlan(p: FilePlan, a: Answers) returns (rep: Report, depth: map<string, nat>)
      requires Valid() && PlanShaped(cfg, Snapshot(), p)
      modifies edges, dns
      ensures T.ExactDepth(cfg.edges, depth)
      ensures (rep, Snapshot()) == PlannedFileOutcome(cfg, old(Snapshot()), depth, p, flags, a)
    {
      hide GateAndConfirm, Executed, BuildSteps, Stopped, AllReread, FileAccepted;
      depth := T.ChainDepth(cfg.edges);
      var cs := ChangesOf(PassesOf(p));
      PlanIsProper(cfg, Snapshot(), PassesOf(p));
      var refusal := AskGateAndConfirm(cs, a);
      if refusal.Some? {
        return refusal.value, depth;
      }
      var ok := AdoptInline(p, a);
      if !ok {
        return Untouched(false, Some(AdoptFailed)), depth;
      }
      if SnapshotsFail(cs.edges, a) {
        return Untouched(false, Some(SnapshotFailed)), depth;
      }
      var now := Read();
      BuiltFit(cfg, now, depth, cs);
      rep := RunFile(p, BuildSteps(cfg, now, depth, cs), a);
    }

    /** Converges the managed set to the file. */
    method ApplyDeclarative(exps: seq<Exposure>, opts: Options, a: Answers) returns (r: Result<Report>, depth: map<string, nat>)
      requires Valid()
      modifies edges, dns
      ensures var o := FileOutcome(cfg, old(Snapshot()), depth, exps, opts, flags, a);
        (o.Err? ==> r.Err? && Snapshot() == old(Snapshot())) && (o.Ok? ==> r == Ok(o.value.0) && Snapshot() == o.value.1)
      ensures T.ExactDepth(cfg.edges, depth)
    {
      hide PlannedFileOutcome, PlanFile, IsBlocked, NothingToDo, PlanShaped;
      depth := T.ChainDepth(cfg.edges);
      var plan := PlanDeclarative(exps, opts);
      if plan.Err? {
        return Err, depth;
      }
      FilePlanAt(cfg, Snapshot(), exps, opts);
      if IsBlocked(plan.value) {
        return Ok(Untouched(false, Some(FileBlocked))), depth;
      }
      if NothingToDo(plan.value) {
        return Ok(Untouched(true, None)), depth;
      }
      var rep;
      rep, depth := ApplyFilePlan(plan.value, a);
      r := Ok(rep);
    }
  }

  lemma AdoptedNone(cfg: Config, w: World, p: FilePlan)
    requires PlanShaped(cfg, w, p)
    ensures AdoptedUpTo(cfg, w, p, 0) == w
  {
    assert AdoptedUpTo(cfg, w, p, 0).edges == w.edges;
  }

  lemma AdoptedOneMore(cfg: Config, w: World, p: FilePlan, i: nat)
    requires PlanShaped(cfg, w, p) && i < |cfg.edges|
    ensures var was := AdoptedUpTo(cfg, w, p, i);
      AdoptedUpTo(cfg, w, p, i + 1) == was.(edges := was.edges[i := AdoptedEdge(was.edges[i], p.drafts[i].adopts)])
  {
    var was, now := AdoptedUpTo(cfg, w, p, i), AdoptedUpTo(cfg, w, p, i + 1);
    assert now.edges == was.edges[i := AdoptedEdge(was.edges[i], p.drafts[i].adopts)];
  }

  lemma {:induction false} PlacedErr(cfg: Config, exps: seq<Exposure>, opts: Options, i: nat, live: LiveEdge, n: nat)
    requires i < |cfg.edges| && n <= |exps| && Placed(cfg, exps[..n], opts, i, live).Err?
    ensures Placed(cfg, exps, opts, i, live).Err?
    decreases |exps|
  {
    if n < |exps| {
      assert exps[..|exps| - 1][..n] == exps[..n];
      PlacedErr(cfg, exps[..|exps| - 1], opts, i, live, n);
    } else {
      assert exps[..n] == exps;
    }
  }

  lemma {:induction false} FileAddsErr(exps: seq<Exposure>, dp: DnsProvider, zone: Zone, n: nat)
    requires n <= |exps| && FileAdds(exps[..n], dp, zone).Err?
    ensures FileAdds(exps, dp, zone).Err?
    decreases |exps|
  {
    if n < |exps| {
      assert exps[..|exps| - 1][..n] == exps[..n];
      FileAddsErr(exps[..|exps| - 1], dp, zone, n);
    } else {
      assert exps[..n] == exps;
    }
  }

  lemma {:induction false} DnsDraftsErr(cfg: Config, w: World, exps: seq<Exposure>, opts: Options, n: nat, m: nat)
    requires Fits(cfg, w) && n <= m <= |cfg.dns| && DnsDrafts(cfg, w, exps, opts, n).Err?
    ensures DnsDrafts(cfg, w, exps, opts, m).Err?
  {
    if n < m {
      DnsDraftsErr(cfg, w, exps, opts, n, m - 1);
    }
  }

  lemma {:induction false} AdoptStopsAt(p: FilePlan, a: Answers, k: nat, n: nat)
    requires k < n <= |p.drafts| && AdoptStops(p, a, k) == k && p.drafts[k].adopts != [] && a.adoptFails(k)
    ensures AdoptStops(p, a, n) == k
  {
    if n > k + 1 {
      AdoptStopsAt(p, a, k, n - 1);
    }
  }

  lemma {:induction false} EdgePassesErr(cfg: Config, canon: Canon, order: seq<Host>, w: World, n: nat, m: nat)
    requires Fits(cfg, w) && n <= m <= |cfg.edges| && (forall h :: h in order ==> h in canon)
    requires EdgePasses(cfg, canon, order, w, n).Err?
    ensures EdgePasses(cfg, canon, order, w, m).Err?
  {
    if n < m {
      EdgePassesErr(cfg, canon, order, w, n, m - 1);
    }
  }

  lemma {:induction false} DnsPassesErr(cfg: Config, canon: Canon, order: seq<Host>, w: World, n: nat, m: nat)
    requires Fits(cfg, w) && n <= m <= |cfg.dns| && DnsPasses(cfg, canon, order, w, n).Err?
    ensures DnsPasses(cfg, canon, order, w, m).Err?
  {
    if n < m {
      DnsPassesErr(cfg, canon, order, w, n, m - 1);
    }
  }

  lemma {:induction false} EdgePassErr(cfg: Config, canon: Canon, order: seq<Host>, i: nat, live: LiveEdge, n: nat)
    requires i < |cfg.edges| && (forall h :: h in order ==> h in canon) && n <= |order|
    requires EdgePass(cfg, canon, order[..n], i, live).Err?
    ensures EdgePass(cfg, canon, order, i, live).Err?
    decreases |order|
  {
    if n < |order| {
      assert order[..|order| - 1][..n] == order[..n];
      EdgePassErr(cfg, canon, order[..|order| - 1], i, live, n);
    } else {
      assert order[..n] == order;
    }
  }

  lemma {:induction false} DnsAddsErr(cfg: Config, dp: DnsProvider, zone: Zone, order: seq<Host>, n: nat)
    requires n <= |order| && DnsAdds(cfg, dp, zone, order[..n]).Err?
    ensures DnsAdds(cfg, dp, zone, order).Err?
    decreases |order|
  {
    if n < |order| {
      assert order[..|order| - 1][..n] == order[..n];
      DnsAddsErr(cfg, dp, zone, order[..|order| - 1], n);
    } else {
      assert order[..n] == order;
    }
  }

  lemma {:induction false} PlanEdgesErr(cfg: Config, w: World, op: Op, n: nat, m: nat)
    requires Fits(cfg, w) && n <= m <= |cfg.edges| && PlanEdges(cfg, w, op, n).Err?
    ensures PlanEdges(cfg, w, op, m).Err?
  {
    if n < m {
      PlanEdgesErr(cfg, w, op, n, m - 1);
    }
  }

  lemma {:induction false} PlanAllDnsErr(cfg: Config, w: World, op: Op, n: nat, m: nat)
    requires Fits(cfg, w) && n <= m <= |cfg.dns| && PlanAllDns(cfg, w, op, n).Err?
    ensures PlanAllDns(cfg, w, op, m).Err?
  {
    if n < m {
      PlanAllDnsErr(cfg, w, op, n, m - 1);
    }
  }
}
