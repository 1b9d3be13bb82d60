/** What a run of apply steps and its rollback do to the world (internal/core/apply.go).
    The environment decides how every provider answers every call. */
module Runs {
  import opened Model
  import opened Zones
  import opened Planner
  import opened Steps

  /** A provider's answer to one Apply: it does what it was asked, it refuses and changes
      nothing, or it reports whatever it likes and does whatever it likes. */
  datatype Reply = Done | Refused | Rogue(ok: bool, after: Slot)

  /** `wedged` are the edges whose admin API does not answer the health probe. */
  datatype Env = Env(onDo: Target -> Reply, onUndo: Target -> Reply, wedged: nat -> bool)

  ghost predicate Honest(env: Env) {
    forall t :: !env.onDo(t).Rogue? && !env.onUndo(t).Rogue?
  }

  predicate Accepted(r: Reply) {
    r.Done? || (r.Rogue? && r.ok)
  }

  predicate StepFits(w: World, s: Step) {
    Within(w, s.target) && ChangeFits(s.target, s.fwd) && ChangeFits(s.target, s.inv)
  }

  predicate StepsFit(w: World, steps: seq<Step>) {
    forall i :: 0 <= i < |steps| ==> StepFits(w, steps[i])
  }

  predicate SameShape(a: World, b: World) {
    |a.edges| == |b.edges| && |a.dns| == |b.dns|
  }

  /** What one provider makes of one change, given its answer. */
  function Reacted(s: Slot, c: Change, r: Reply): (s': Slot)
    requires s.EdgeSlot? <==> c.OnEdge?
    ensures s'.EdgeSlot? <==> s.EdgeSlot?
  {
    match r
    case Done => Effect(s, c)
    case Refused => s
    case Rogue(_, after) => if after.EdgeSlot? <==> s.EdgeSlot? then after else s
  }

  /** The world after one provider answered one change. */
  function React(w: World, t: Target, c: Change, r: Reply): (w': World)
    requires Within(w, t) && ChangeFits(t, c)
    ensures SameShape(w, w')
  {
    Set(w, t, Reacted(Get(w, t), c, r))
  }

  /** The world after the first `k` steps. */
  function Forward(w: World, steps: seq<Step>, env: Env, k: nat): (w': World)
    requires k <= |steps| && StepsFit(w, steps)
    ensures SameShape(w, w')
  {
    if k == 0 then w
    else
      var s := steps[k - 1];
      React(Forward(w, steps, env, k - 1), s.target, s.fwd, env.onDo(s.target))
  }

  /** The first step that is not accepted, or the number of steps. */
  function Stops(steps: seq<Step>, env: Env): (k: nat)
    ensures k <= |steps|
    ensures forall i :: 0 <= i < k ==> Accepted(env.onDo(steps[i].target))
    ensures k < |steps| ==> !Accepted(env.onDo(steps[k].target))
  {
    if steps == [] then 0
    else if !Accepted(env.onDo(steps[0].target)) then 0
    else 1 + Stops(steps[1..], env)
  }

  /** A wedged edge's compensator is skipped; any other is run. */
  predicate Attempted(s: Step, env: Env) {
    !(s.target.EdgeAt? && env.wedged(s.target.edge))
  }

  predicate Compensated(s: Step, env: Env) {
    Attempted(s, env) && Accepted(env.onUndo(s.target))
  }

  /** The world after the compensators of `steps[j..]` ran in reverse order. */
  function Back(w: World, steps: seq<Step>, env: Env, j: nat): (w': World)
    requires j <= |steps| && StepsFit(w, steps)
    ensures SameShape(w, w')
    decreases |steps| - j
  {
    if j == |steps| then w
    else
      var later := Back(w, steps, env, j + 1);
      if Attempted(steps[j], env) then React(later, steps[j].target, steps[j].inv, env.onUndo(steps[j].target)) else later
  }

  /** The providers rollback names in its errors, in the order it meets them. */
  function RollbackErrors(steps: seq<Step>, env: Env, j: nat): seq<Target>
    requires j <= |steps|
    decreases |steps| - j
  {
    if j == |steps| then []
    else RollbackErrors(steps, env, j + 1) + if Compensated(steps[j], env) then [] else [steps[j].target]
  }

  // ----- where each provider stands at every moment of an honest run -----

  /** A moment of a run: after `k` steps forward, or, `k` having been applied, with the
      compensators of all but the first `j` of them already behind. */
  datatype Stage = Advancing(k: nat) | Retreating(k: nat, j: nat)

  predicate ValidStage(steps: seq<Step>, env: Env, st: Stage) {
    st.k <= Stops(steps, env) && (st.Retreating? ==> st.j <= st.k)
  }

  function StageWorld(w: World, steps: seq<Step>, env: Env, st: Stage): (w': World)
    requires StepsFit(w, steps) && ValidStage(steps, env, st)
    ensures SameShape(w, w')
  {
    var w1 := Forward(w, steps, env, st.k);
    if st.Advancing? then w1 else Back(w1, steps[..st.k], env, st.j)
  }

  /** Whether step `i` is applied and not undone. */
  predicate InEffect(steps: seq<Step>, env: Env, st: Stage, i: nat)
    requires i < |steps|
  {
    i < st.k && (st.Advancing? || i < st.j || !Compensated(steps[i], env))
  }

  /** The law behind every ordering claim: a later step's change stands only while every
      earlier one's does, provided the later one's compensator is neither skipped nor refused. */
  lemma LaterImpliesEarlier(steps: seq<Step>, env: Env, st: Stage, p: nat, q: nat)
    requires p < q < |steps| && InEffect(steps, env, st, q) && Compensated(steps[q], env)
    ensures InEffect(steps, env, st, p)
  {
  }

  lemma {:induction false} ForwardAt(w: World, steps: seq<Step>, env: Env, k: nat, t: Target)
    requires StepsFit(w, steps) && Honest(env) && DistinctTargets(steps) && k <= Stops(steps, env) && Within(w, t)
    ensures forall i :: 0 <= i < k && steps[i].target == t ==>
      Get(Forward(w, steps, env, k), t) == Effect(Get(w, t), steps[i].fwd)
    ensures (forall i :: 0 <= i < k ==> steps[i].target != t) ==> Get(Forward(w, steps, env, k), t) == Get(w, t)
  {
    if k > 0 {
      ForwardAt(w, steps, env, k - 1, t);
      assert env.onDo(steps[k - 1].target) == Done;
    }
  }

  lemma {:induction false} BackAt(w: World, steps: seq<Step>, env: Env, j: nat, t: Target)
    requires StepsFit(w, steps) && Honest(env) && DistinctTargets(steps) && j <= |steps| && Within(w, t)
    ensures forall i :: j <= i < |steps| && steps[i].target == t ==>
      Get(Back(w, steps, env, j), t) == if Compensated(steps[i], env) then Effect(Get(w, t), steps[i].inv) else Get(w, t)
    ensures (forall i :: j <= i < |steps| ==> steps[i].target != t) ==> Get(Back(w, steps, env, j), t) == Get(w, t)
    decreases |steps| - j
  {
    if j < |steps| {
      BackAt(w, steps, env, j + 1, t);
    }
  }

  /** At every moment of an honest run, each provider is as it was, as its step left it, or
      as its compensator left it. */
  lemma StageAt(w: World, steps: seq<Step>, env: Env, st: Stage, i: nat)
    requires StepsFit(w, steps) && Honest(env) && DistinctTargets(steps) && ValidStage(steps, env, st) && i < |steps|
    ensures Get(StageWorld(w, steps, env, st), steps[i].target)
         == if InEffect(steps, env, st, i) then Effect(Get(w, steps[i].target), steps[i].fwd)
            else if i < st.k then Effect(Effect(Get(w, steps[i].target), steps[i].fwd), steps[i].inv)
            else Get(w, steps[i].target)
  {
    var t := steps[i].target;
    ForwardAt(w, steps, env, st.k, t);
    if st.Retreating? {
      BackAt(Forward(w, steps, env, st.k), steps[..st.k], env, st.j, t);
      if i < st.k {
        assert steps[..st.k][i] == steps[i];
      }
    }
  }

  /** A provider no step targets never changes. */
  lemma StageElsewhere(w: World, steps: seq<Step>, env: Env, st: Stage, t: Target)
    requires StepsFit(w, steps) && Honest(env) && DistinctTargets(steps) && ValidStage(steps, env, st) && Within(w, t)
    requires forall i :: 0 <= i < |steps| ==> steps[i].target != t
    ensures Get(StageWorld(w, steps, env, st), t) == Get(w, t)
  {
    ForwardAt(w, steps, env, st.k, t);
    if st.Retreating? {
      BackAt(Forward(w, steps, env, st.k), steps[..st.k], env, st.j, t);
    }
  }

  // ----- compensators restore -----

  function Serves(live: LiveEdge, host: Host): Option<Upstream> {
    match Find(live.routes, host)
    case None => None
    case Some(r) => Some(r.upstream)
  }

  /** The same route, or the same with crenel's mark now on it. */
  predicate AsBefore(was: Option<Route>, now: Option<Route>) {
    match was
    case None => now.None?
    case Some(r) => now == Some(r) || now == Some(Marked(r))
  }

  /** The same answers: on an edge the same route behind every host, but for a mark put on it,
      and no lost deny; on a DNS provider the same records reported and the same foreign ones. */
  ghost predicate SameAnswers(a: Slot, b: Slot) {
    match (a, b)
    case (EdgeSlot(x), EdgeSlot(y)) =>
      (forall h :: AsBefore(Find(x.routes, h), Find(y.routes, h))) && x.generator == y.generator && (x.deny ==> y.deny)
    case (DnsSlot(x), DnsSlot(y)) =>
      (forall e :: e in x <==> e in y) && ForeignOf(x) == ForeignOf(y)
    case _ => false
  }

  /** A change whose inverse undoes it. On an edge, an added host is fresh or replaces a removed
      one. On a DNS provider, what is removed is listed as it was live and what is added was not
      there: by key, the removed record is the only one at its key and an added key was free
      unless also removed; by answer, removed rewrites were there and no other rewrite has the
      name and value of a removed or added one. */
  ghost predicate Restorable(s: Slot, c: Change)
    requires s.EdgeSlot? <==> c.OnEdge?
  {
    match s
    case EdgeSlot(live) =>
      forall r :: r in c.edgeChange.adds ==> r.host in c.edgeChange.removes || !HasHost(live, r.host)
    case DnsSlot(zone) =>
      if c.dnsChange.DnsChange? then RestorableByKey(zone, c.dnsChange) else RestorableByAnswer(zone, c.dnsChange)
  }

  ghost predicate RestorableByKey(zone: Zone, c: DnsChange) {
    && (forall e :: e in zone && e.ours && HasKey(c.removes, KeyOf(e.rec)) ==> AddedRecord(c.removes, KeyOf(e.rec)) == Some(e.rec))
    && (forall r :: r in c.removes && AddedRecord(c.removes, KeyOf(r)) == Some(r) ==> Entry(r, true) in zone)
    && (forall e :: e in zone && e.ours && HasKey(c.adds, KeyOf(e.rec)) ==> HasKey(c.removes, KeyOf(e.rec)))
  }

  ghost predicate RestorableByAnswer(zone: Zone, c: DnsChange) {
    && (forall r :: r in c.removes ==> Entry(r, true) in zone)
    && (forall e :: e in zone && e.ours && (HasAnswer(c.removes, e.rec) || HasAnswer(c.adds, e.rec)) ==> e.rec in c.removes)
  }

  lemma {:induction false} PriorRoutesFind(snapshot: seq<Route>, hosts: seq<Host>, host: Host)
    ensures Added(PriorRoutes(snapshot, hosts), host) == if host in hosts then Find(snapshot, host) else None
  {
    if hosts != [] {
      var init, last := hosts[..|hosts| - 1], hosts[|hosts| - 1];
      PriorRoutesFind(snapshot, init, host);
      FindIsListed(snapshot, last);
      assert hosts == init + [last];
      var prior := PriorRoutes(snapshot, init);
      match Find(snapshot, last) {
        case None => assert PriorRoutes(snapshot, hosts) == prior;
        case Some(r) => assert (prior + [r])[..|prior + [r]| - 1] == prior;
      }
    }
  }

  lemma HostsOfAdded(adds: seq<Route>, host: Host)
    ensures host in HostsOf(adds) <==> Added(adds, host).Some?
    ensures Added(adds, host).Some? ==> exists r :: r in adds && r.host == host
  {
    AddedIsListed(adds, host);
    if host in HostsOf(adds) {
      var i :| 0 <= i < |adds| && HostsOf(adds)[i] == host;
      assert adds[i] in adds;
    }
    if Added(adds, host).Some? {
      var r := Added(adds, host).value;
      var i :| 0 <= i < |adds| && adds[i] == r;
      assert HostsOf(adds)[i] == host;
    }
  }

  /** The routes of an edge once its change has been undone: a removed host's own route is back,
      marked; an added one's is gone; every other is as it was. */
  lemma UndoneRoutes(live: LiveEdge, c: EdgeChange, host: Host)
    ensures Find(ApplyEdge(ApplyEdge(live, c), InvertEdge(c, live)).routes, host)
         == if host in c.removes then (match Find(live.routes, host) case None => None case Some(r) => Some(Marked(r)))
            else if Added(c.adds, host).Some? then None
            else Find(live.routes, host)
  {
    var inv := InvertEdge(c, live);
    FindApplied(live, c, host);
    FindApplied(ApplyEdge(live, c), inv, host);
    PriorRoutesFind(live.routes, c.removes, host);
    HostsOfAdded(c.adds, host);
  }

  /** An edge compensator restores every answer exactly when no added host was already
      there, unless it was also removed; and then nothing is other than before but the mark on
      the routes of removed hosts. */
  lemma EdgeUndoRestoresIff(live: LiveEdge, c: EdgeChange)
    ensures var back := ApplyEdge(ApplyEdge(live, c), InvertEdge(c, live));
      && ((forall h :: Serves(back, h) == Serves(live, h)) <==> Restorable(EdgeSlot(live), OnEdge(c)))
      && ((forall h :: AsBefore(Find(live.routes, h), Find(back.routes, h))) <==> Restorable(EdgeSlot(live), OnEdge(c)))
  {
    var back := ApplyEdge(ApplyEdge(live, c), InvertEdge(c, live));
    if Restorable(EdgeSlot(live), OnEdge(c)) {
      forall h ensures AsBefore(Find(live.routes, h), Find(back.routes, h)) && Serves(back, h) == Serves(live, h) {
        UndoneRoutes(live, c, h);
        HostsOfAdded(c.adds, h);
      }
    } else {
      var r :| r in c.adds && r.host !in c.removes && HasHost(live, r.host);
      AddedIsListed(c.adds, r.host);
      UndoneRoutes(live, c, r.host);
      assert Serves(back, r.host) != Serves(live, r.host) && !AsBefore(Find(live.routes, r.host), Find(back.routes, r.host));
    }
  }

  /** What a provider reports or holds once its change has been undone. */
  ghost predicate UndoneHolds(zone: Zone, c: DnsChange, e: Entry) {
    if c.DnsChange? then
      (if e.ours && HasKey(c.removes, KeyOf(e.rec)) then AddedRecord(c.removes, KeyOf(e.rec)) == Some(e.rec)
       else e in zone && !(e.ours && HasKey(c.adds, KeyOf(e.rec))))
    else (e in zone && !(e.ours && (HasAnswer(c.removes, e.rec) || HasAnswer(c.adds, e.rec)))) || (e.ours && e.rec in c.removes)
  }

  lemma UndoneRecords(zone: Zone, c: DnsChange, e: Entry)
    ensures e in ApplyDns(ApplyDns(zone, c), InvertDns(c)) <==> UndoneHolds(zone, c, e)
  {
    AppliedMembers(zone, c, e);
    AppliedMembers(ApplyDns(zone, c), InvertDns(c), e);
    if e.rec in c.adds {
      assert SameAnswer(e.rec, e.rec);
    }
  }

  /** A DNS compensator brings back exactly the records there were if and only if what it
      removed was listed as live and what it added was not there. In particular the
      compensator of an in-place value update does not restore: it deletes the record. */
  lemma DnsUndoRestoresIff(zone: Zone, c: DnsChange)
    ensures (forall e :: e in ApplyDns(ApplyDns(zone, c), InvertDns(c)) <==> e in zone) <==> Restorable(DnsSlot(zone), OnDns(c))
  {
    var back := ApplyDns(ApplyDns(zone, c), InvertDns(c));
    forall e ensures e in back <==> UndoneHolds(zone, c, e) {
      UndoneRecords(zone, c, e);
    }
    if c.DnsChange? {
      KeyedUndo(zone, c);
    } else {
      AnsweredUndo(zone, c);
    }
  }

  lemma KeyedUndo(zone: Zone, c: DnsChange)
    requires c.DnsChange?
    ensures (forall e :: UndoneHolds(zone, c, e) <==> e in zone) <==> RestorableByKey(zone, c)
  {
    if forall e :: UndoneHolds(zone, c, e) <==> e in zone {
      forall r | r in c.removes && AddedRecord(c.removes, KeyOf(r)) == Some(r) ensures Entry(r, true) in zone {
        assert HasKey(c.removes, KeyOf(r)) && UndoneHolds(zone, c, Entry(r, true));
      }
      forall e | e in zone && e.ours ensures UndoneHolds(zone, c, e) {
      }
    } else {
      var e :| UndoneHolds(zone, c, e) != (e in zone);
      AddedRecordIsListed(c.removes, KeyOf(e.rec));
      if UndoneHolds(zone, c, e) {
        assert e == Entry(e.rec, true) && e.rec in c.removes && AddedRecord(c.removes, KeyOf(e.rec)) == Some(e.rec);
      }
    }
  }

  lemma AnsweredUndo(zone: Zone, c: DnsChange)
    requires !c.DnsChange?
    ensures (forall e :: UndoneHolds(zone, c, e) <==> e in zone) <==> RestorableByAnswer(zone, c)
  {
    if forall e :: UndoneHolds(zone, c, e) <==> e in zone {
      forall r | r in c.removes ensures Entry(r, true) in zone {
        assert UndoneHolds(zone, c, Entry(r, true));
      }
      forall e | e in zone && e.ours ensures UndoneHolds(zone, c, e) {
      }
    } else {
      var e :| UndoneHolds(zone, c, e) != (e in zone);
      if UndoneHolds(zone, c, e) {
        assert e == Entry(e.rec, true) && e.rec in c.removes;
      }
    }
  }

  /** The compensator built for a change on the state it applies to. */
  function InverseOf(s: Slot, c: Change): Change
    requires s.EdgeSlot? <==> c.OnEdge?
  {
    match s
    case EdgeSlot(live) => OnEdge(InvertEdge(c.edgeChange, live))
    case DnsSlot(_) => OnDns(InvertDns(c.dnsChange))
  }

  lemma UndoRestores(s: Slot, c: Change)
    requires (s.EdgeSlot? <==> c.OnEdge?) && Restorable(s, c)
    ensures SameAnswers(s, Effect(Effect(s, c), InverseOf(s, c)))
  {
    match s
    case EdgeSlot(live) => EdgeUndoRestoresIff(live, c.edgeChange);
    case DnsSlot(zone) =>
      DnsUndoRestoresIff(zone, c.dnsChange);
      ChangeKeepsForeign(zone, c.dnsChange);
      ChangeKeepsForeign(ApplyDns(zone, c.dnsChange), InvertDns(c.dnsChange));
  }

  /** Every step's inverse was built against the world the run starts from. */
  ghost predicate BuiltOn(w: World, steps: seq<Step>)
    requires StepsFit(w, steps)
  {
    forall i :: 0 <= i < |steps| ==> steps[i].inv == InverseOf(Get(w, steps[i].target), steps[i].fwd)
  }

  ghost predicate AllRestorable(w: World, steps: seq<Step>)
    requires StepsFit(w, steps)
  {
    forall i :: 0 <= i < |steps| ==> Restorable(Get(w, steps[i].target), steps[i].fwd)
  }

  /** One step per provider, each carrying its inverse on this world, each change undoable. */
  ghost predicate Undoable(w: World, steps: seq<Step>) {
    StepsFit(w, steps) && DistinctTargets(steps) && BuiltOn(w, steps) && AllRestorable(w, steps)
  }

  lemma {:induction false} ErrorsListed(steps: seq<Step>, env: Env, j: nat, i: nat)
    requires j <= i < |steps| && !Compensated(steps[i], env)
    ensures steps[i].target in RollbackErrors(steps, env, j)
    decreases |steps| - j
  {
    if i > j {
      ErrorsListed(steps, env, j + 1, i);
    }
  }

  /** Wherever an honest run stops, after rollback every provider not named in the errors
      answers exactly as before the run. With no errors the whole world is restored. */
  lemma RollbackRestores(w: World, steps: seq<Step>, env: Env, k: nat, t: Target)
    requires StepsFit(w, steps) && Honest(env) && DistinctTargets(steps) && BuiltOn(w, steps)
    requires forall i :: 0 <= i < |steps| ==> Restorable(Get(w, steps[i].target), steps[i].fwd)
    requires k <= Stops(steps, env) && Within(w, t)
    requires t !in RollbackErrors(steps[..k], env, 0)
    ensures SameAnswers(Get(w, t), Get(StageWorld(w, steps, env, Retreating(k, 0)), t))
  {
    var st := Retreating(k, 0);
    if i :| 0 <= i < |steps| && steps[i].target == t {
      StageAt(w, steps, env, st, i);
      if i < k {
        assert steps[..k][i] == steps[i];
        if !Compensated(steps[i], env) { ErrorsListed(steps[..k], env, 0, i); }
        UndoRestores(Get(w, t), steps[i].fwd);
      }
    } else {
      StageElsewhere(w, steps, env, st, t);
    }
  }
}
