/** The ordered, compensated apply steps of one run (internal/core/apply.go): how they are
    built and sorted, what doing and undoing one means, and what a whole run and its
    reverse-order rollback leave behind. */
module Steps {
  import opened Model
  import opened Zones
  import opened Planner

  // ----- providers as slots of the world -----

  datatype Target = EdgeAt(edge: nat) | DnsAt(dns: nat)

  datatype Slot = EdgeSlot(live: LiveEdge) | DnsSlot(zone: Zone)

  datatype Change = OnEdge(edgeChange: EdgeChange) | OnDns(dnsChange: DnsChange)

  predicate Within(w: World, t: Target) {
    match t
    case EdgeAt(i) => i < |w.edges|
    case DnsAt(i) => i < |w.dns|
  }

  function Get(w: World, t: Target): Slot
    requires Within(w, t)
  {
    match t
    case EdgeAt(i) => EdgeSlot(w.edges[i])
    case DnsAt(i) => DnsSlot(w.dns[i])
  }

  predicate SlotFits(t: Target, s: Slot) {
    t.EdgeAt? <==> s.EdgeSlot?
  }

  predicate ChangeFits(t: Target, c: Change) {
    t.EdgeAt? <==> c.OnEdge?
  }

  function Set(w: World, t: Target, s: Slot): World
    requires Within(w, t) && SlotFits(t, s)
  {
    match t
    case EdgeAt(i) => w.(edges := w.edges[i := s.live])
    case DnsAt(i) => w.(dns := w.dns[i := s.zone])
  }

  /** What an honest provider makes of a change. */
  function Effect(s: Slot, c: Change): Slot
    requires s.EdgeSlot? <==> c.OnEdge?
  {
    match s
    case EdgeSlot(live) => EdgeSlot(ApplyEdge(live, c.edgeChange))
    case DnsSlot(zone) => DnsSlot(ApplyDns(zone, c.dnsChange))
  }

  // ----- building -----

  /** Exposure ranks: lower is closer to the data plane, higher more globally public. */
  const RANK_EDGE := 0
  const RANK_INTERNAL := 1
  const RANK_PUBLIC := 2

  /** One provider's change with its compensating inverse. */
  datatype Step = Step(target: Target, rank: nat, depth: nat, fwd: Change, inv: Change)

  function DnsRank(scope: Scope): nat {
    if scope == Public then RANK_PUBLIC else RANK_INTERNAL
  }

  /** The prior routes of the removed hosts, from the snapshot. */
  function PriorRoutes(snapshot: seq<Route>, hosts: seq<Host>): seq<Route> {
    if hosts == [] then []
    else
      PriorRoutes(snapshot, hosts[..|hosts| - 1]) +
      (match Find(snapshot, hosts[|hosts| - 1])
       case None => []
       case Some(r) => [r])
  }

  function HostsOf(routes: seq<Route>): seq<Host> {
    seq(|routes|, i requires 0 <= i < |routes| => routes[i].host)
  }

  function InvertEdge(c: EdgeChange, snapshot: LiveEdge): EdgeChange {
    EdgeChange(PriorRoutes(snapshot.routes, c.removes), HostsOf(c.adds))
  }

  function InvertDns(c: DnsChange): DnsChange {
    c.(adds := c.removes, removes := c.adds)
  }

  function EdgeStep(p: EdgePlan, depth: nat, live: LiveEdge): Step {
    Step(EdgeAt(p.edge), RANK_EDGE, depth, OnEdge(p.change), OnEdge(InvertEdge(p.change, live)))
  }

  function DnsStep(i: nat, scope: Scope, c: DnsChange): Step {
    Step(DnsAt(i), DnsRank(scope), 0, OnDns(c), OnDns(InvertDns(c)))
  }

  predicate PlansFit(cfg: Config, w: World, edges: seq<EdgePlan>) {
    Fits(cfg, w) && forall i :: 0 <= i < |edges| ==> edges[i].edge < |cfg.edges|
  }

  /** Non-empty edge changes, in plan order. */
  function EdgeSteps(cfg: Config, w: World, depth: map<string, nat>, edges: seq<EdgePlan>): seq<Step>
    requires PlansFit(cfg, w, edges)
  {
    if edges == [] then []
    else
      var p := edges[|edges| - 1];
      EdgeSteps(cfg, w, depth, edges[..|edges| - 1]) +
      if EmptyEdge(p.change) then []
      else
        var name := cfg.edges[p.edge].name;
        [EdgeStep(p, if name in depth then depth[name] else 0, w.edges[p.edge])]
  }

  /** Non-empty DNS changes, in provider order. */
  function DnsSteps(cfg: Config, dns: seq<DnsChange>): seq<Step>
    requires |dns| <= |cfg.dns|
  {
    if dns == [] then []
    else
      var i := |dns| - 1;
      DnsSteps(cfg, dns[..i]) + if EmptyDns(dns[i]) then [] else [DnsStep(i, cfg.dns[i].scope, dns[i])]
  }

  // ----- ordering -----

  /** Expose runs low rank to high, deeper edges first; every other verb the reverse. */
  predicate Less(ascending: bool, a: Step, b: Step) {
    if a.rank != b.rank then (if ascending then a.rank < b.rank else a.rank > b.rank)
    else if ascending then a.depth > b.depth else a.depth < b.depth
  }

  function Insert(ascending: bool, x: Step, ys: seq<Step>): seq<Step> {
    if ys == [] || !Less(ascending, ys[0], x) then [x] + ys
    else [ys[0]] + Insert(ascending, x, ys[1..])
  }

  /** A stable sort. */
  function Sort(ascending: bool, xs: seq<Step>): seq<Step> {
    if xs == [] then [] else Insert(ascending, xs[0], Sort(ascending, xs[1..]))
  }

  ghost predicate Sorted(ascending: bool, ys: seq<Step>) {
    forall i, j :: 0 <= i < j < |ys| ==> !Less(ascending, ys[j], ys[i])
  }

  function BuildSteps(cfg: Config, w: World, depth: map<string, nat>, cs: ChangeSet): seq<Step>
    requires PlansFit(cfg, w, cs.edges) && |cs.dns| <= |cfg.dns|
  {
    Sort(cs.op.verb == Expose, EdgeSteps(cfg, w, depth, cs.edges) + DnsSteps(cfg, cs.dns))
  }

  lemma {:induction false} InsertMembers(ascending: bool, x: Step, ys: seq<Step>)
    ensures multiset(Insert(ascending, x, ys)) == multiset{x} + multiset(ys)
  {
    if ys != [] && Less(ascending, ys[0], x) {
      InsertMembers(ascending, x, ys[1..]);
      assert ys == [ys[0]] + ys[1..];
    }
  }

  lemma {:induction false} SortMembers(ascending: bool, xs: seq<Step>)
    ensures multiset(Sort(ascending, xs)) == multiset(xs)
  {
    if xs != [] {
      SortMembers(ascending, xs[1..]);
      InsertMembers(ascending, xs[0], Sort(ascending, xs[1..]));
      assert xs == [xs[0]] + xs[1..];
    }
  }

  lemma SortedCons(ascending: bool, y: Step, rest: seq<Step>)
    requires Sorted(ascending, rest) && forall j :: 0 <= j < |rest| ==> !Less(ascending, rest[j], y)
    ensures Sorted(ascending, [y] + rest)
  {
  }

  lemma {:induction false} InsertSorted(ascending: bool, x: Step, ys: seq<Step>)
    requires Sorted(ascending, ys)
    ensures Sorted(ascending, Insert(ascending, x, ys))
  {
    if ys != [] && Less(ascending, ys[0], x) {
      var rest := Insert(ascending, x, ys[1..]);
      InsertSorted(ascending, x, ys[1..]);
      InsertMembers(ascending, x, ys[1..]);
      forall j | 0 <= j < |rest| ensures !Less(ascending, rest[j], ys[0]) {
        assert rest[j] in multiset(rest);
        assert rest[j] == x || rest[j] in ys[1..];
      }
      SortedCons(ascending, ys[0], rest);
    }
  }

  lemma {:induction false} SortSorted(ascending: bool, xs: seq<Step>)
    ensures Sorted(ascending, Sort(ascending, xs))
  {
    if xs != [] {
      SortSorted(ascending, xs[1..]);
      InsertSorted(ascending, xs[0], Sort(ascending, xs[1..]));
    }
  }

  /** The steps whose provider is not in `done`. */
  function Skip(steps: seq<Step>, done: set<Target>): seq<Step> {
    if steps == [] then []
    else (if steps[0].target in done then [] else [steps[0]]) + Skip(steps[1..], done)
  }

  lemma {:induction false} SkipAppend(a: seq<Step>, b: seq<Step>, done: set<Target>)
    ensures Skip(a + b, done) == Skip(a, done) + Skip(b, done)
  {
    if a == [] {
      assert a + b == b;
    } else {
      assert (a + b)[1..] == a[1..] + b;
      SkipAppend(a[1..], b, done);
    }
  }

  lemma {:induction false} SkipListed(steps: seq<Step>, done: set<Target>)
    ensures forall s :: s in Skip(steps, done) ==> s in steps && s.target !in done
  {
    if steps != [] {
      SkipListed(steps[1..], done);
    }
  }

  lemma InsertHead(ascending: bool, x: Step, y: Step, ys: seq<Step>)
    requires Less(ascending, y, x)
    ensures Insert(ascending, x, [y] + ys) == [y] + Insert(ascending, x, ys)
  {
    assert ([y] + ys)[1..] == ys;
  }

  lemma SortHead(ascending: bool, x: Step, xs: seq<Step>)
    ensures Sort(ascending, [x] + xs) == Insert(ascending, x, Sort(ascending, xs))
  {
    assert ([x] + xs)[1..] == xs;
  }

  lemma {:induction false} SkipInsert(ascending: bool, x: Step, ys: seq<Step>, done: set<Target>)
    requires Sorted(ascending, ys)
    ensures Skip(Insert(ascending, x, ys), done)
         == if x.target in done then Skip(ys, done) else Insert(ascending, x, Skip(ys, done))
  {
    if ys == [] || !Less(ascending, ys[0], x) {
      assert ([x] + ys)[1..] == ys;
      if x.target !in done {
        SkipListed(ys, done);
        var kept := Skip(ys, done);
        if kept != [] {
          assert kept[0] in ys;
          var j :| 0 <= j < |ys| && ys[j] == kept[0];
          if j > 0 { assert !Less(ascending, ys[j], ys[0]); }
        }
      }
    } else {
      SkipInsert(ascending, x, ys[1..], done);
      var rest := Insert(ascending, x, ys[1..]);
      assert ([ys[0]] + rest)[1..] == rest;
      assert [] + Skip(ys[1..], done) == Skip(ys[1..], done);
      assert [] + Skip(rest, done) == Skip(rest, done);
      InsertHead(ascending, x, ys[0], Skip(ys[1..], done));
    }
  }

  /** Stability: sorting what is left is what is left of the sorted. */
  lemma {:induction false} SkipSort(ascending: bool, xs: seq<Step>, done: set<Target>)
    ensures Skip(Sort(ascending, xs), done) == Sort(ascending, Skip(xs, done))
  {
    if xs != [] {
      SkipSort(ascending, xs[1..], done);
      SortSorted(ascending, xs[1..]);
      SkipInsert(ascending, xs[0], Sort(ascending, xs[1..]), done);
      SortHead(ascending, xs[0], Skip(xs[1..], done));
      assert [] + Skip(xs[1..], done) == Skip(xs[1..], done);
    }
  }

  ghost predicate DistinctTargets(steps: seq<Step>) {
    forall i, j :: 0 <= i < j < |steps| ==> steps[i].target != steps[j].target
  }

  function TargetsOf(steps: seq<Step>): set<Target> {
    set i | 0 <= i < |steps| :: steps[i].target
  }

  lemma {:induction false} SkipPrefix(steps: seq<Step>, k: nat)
    requires DistinctTargets(steps) && k <= |steps|
    ensures Skip(steps, TargetsOf(steps[..k])) == steps[k..]
  {
    var done := TargetsOf(steps[..k]);
    SkipAppend(steps[..k], steps[k..], done);
    assert steps == steps[..k] + steps[k..];
    SkipAll(steps[..k], done);
    SkipNone(steps[k..], done);
  }

  lemma {:induction false} SkipAll(steps: seq<Step>, done: set<Target>)
    requires TargetsOf(steps) <= done
    ensures Skip(steps, done) == []
  {
    if steps != [] {
      assert steps[0].target in TargetsOf(steps);
      assert TargetsOf(steps[1..]) <= TargetsOf(steps) by {
        forall t | t in TargetsOf(steps[1..]) ensures t in TargetsOf(steps) {
          var i :| 0 <= i < |steps[1..]| && steps[1..][i].target == t;
          assert steps[i + 1].target == t;
        }
      }
      SkipAll(steps[1..], done);
    }
  }

  lemma {:induction false} SkipNone(steps: seq<Step>, done: set<Target>)
    requires forall i :: 0 <= i < |steps| ==> steps[i].target !in done
    ensures Skip(steps, done) == steps
  {
    if steps != [] {
      SkipNone(steps[1..], done);
    }
  }
}
