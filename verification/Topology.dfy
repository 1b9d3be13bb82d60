/** The edge topology and its graph algorithms (internal/core/chain_write.go, with
    EdgeBinding from engine.go): chain depth, downstream participation, chain roles. */
module Topology {
  import opened Model

  /** One edge: `origins` is the set of services it fronts (None: every service);
      `downstream` names the edge it forwards to ("" for none). */
  datatype Binding = Binding(
    name: string, origins: Option<set<string>>, downstream: string, downstreamAddress: string, downstreamScheme: string)

  predicate Fronts(b: Binding, service: string) {
    b.origins.None? || service in b.origins.value
  }

  predicate IsChainFront(b: Binding) {
    b.downstream != ""
  }

  /** The first binding of that name. */
  function Lookup(edges: seq<Binding>, name: string): Option<Binding> {
    if edges == [] then None
    else if edges[0].name == name then Some(edges[0])
    else Lookup(edges[1..], name)
  }

  ghost predicate UniqueNames(edges: seq<Binding>) {
    forall i, j :: 0 <= i < j < |edges| ==> edges[i].name != edges[j].name
  }

  function Names(edges: seq<Binding>): set<string> {
    set i | 0 <= i < |edges| :: edges[i].name
  }

  lemma {:induction false} LookupIsListed(edges: seq<Binding>, name: string)
    ensures Lookup(edges, name).Some? ==> Lookup(edges, name).value in edges && Lookup(edges, name).value.name == name
    ensures Lookup(edges, name).Some? <==> name in Names(edges)
  {
    if edges != [] {
      LookupIsListed(edges[1..], name);
      assert Names(edges) == {edges[0].name} + Names(edges[1..]);
    }
  }

  // ----- downstream participation -----

  /** Walks the chain from `b`; `visited` guards a cycle. */
  function DownstreamParticipates(edges: seq<Binding>, b: Binding, service: string, visited: set<string>): bool
    requires b.name in Names(edges)
    decreases Names(edges) - visited
  {
    if b.downstream == "" || b.name in visited then false
    else
      match Lookup(edges, b.downstream)
      case None => false
      case Some(d) =>
        LookupIsListed(edges, b.downstream);
        Fronts(d, service) || DownstreamParticipates(edges, d, service, visited + {b.name})
  }

  /** The edge `k` downstream links away from `b`. */
  function Hop(edges: seq<Binding>, b: Binding, k: nat): Option<Binding>
    decreases k
  {
    if k == 0 then Some(b)
    else if b.downstream == "" then None
    else
      match Lookup(edges, b.downstream)
      case None => None
      case Some(d) => Hop(edges, d, k - 1)
  }

  /** Some edge one or more downstream links away serves the service. */
  ghost predicate ReachesServing(edges: seq<Binding>, b: Binding, service: string) {
    exists k: nat :: k >= 1 && Hop(edges, b, k).Some? && Fronts(Hop(edges, b, k).value, service)
  }

  lemma {:induction false} HopAdds(edges: seq<Binding>, b: Binding, i: nat, j: nat)
    requires Hop(edges, b, i).Some?
    ensures Hop(edges, b, i + j) == Hop(edges, Hop(edges, b, i).value, j)
    decreases i
  {
    if i > 0 {
      HopAdds(edges, Lookup(edges, b.downstream).value, i - 1, j);
    }
  }

  lemma {:induction false} HopShorter(edges: seq<Binding>, b: Binding, i: nat, k: nat)
    requires i <= k && Hop(edges, b, k).Some?
    ensures Hop(edges, b, i).Some?
    decreases i
  {
    if i > 0 {
      HopShorter(edges, Lookup(edges, b.downstream).value, i - 1, k - 1);
    }
  }

  lemma {:induction false} HopIsListed(edges: seq<Binding>, b: Binding, k: nat)
    requires k >= 1 && Hop(edges, b, k).Some?
    ensures Hop(edges, b, k).value.name in Names(edges)
    ensures Lookup(edges, Hop(edges, b, k).value.name) == Hop(edges, b, k)
    decreases k
  {
    LookupIsListed(edges, b.downstream);
    if k > 1 {
      HopIsListed(edges, Lookup(edges, b.downstream).value, k - 1);
    }
  }

  lemma {:induction false} ParticipationSound(edges: seq<Binding>, b: Binding, service: string, visited: set<string>)
    requires b.name in Names(edges) && DownstreamParticipates(edges, b, service, visited)
    ensures ReachesServing(edges, b, service)
    decreases Names(edges) - visited
  {
    LookupIsListed(edges, b.downstream);
    var d := Lookup(edges, b.downstream).value;
    if Fronts(d, service) {
      assert Hop(edges, b, 1) == Hop(edges, d, 0) == Some(d);
    } else {
      ParticipationSound(edges, d, service, visited + {b.name});
      var k: nat :| k >= 1 && Hop(edges, d, k).Some? && Fronts(Hop(edges, d, k).value, service);
      assert Hop(edges, b, k + 1) == Hop(edges, d, k);
    }
  }

  /** A refused walk means no serving edge lies ahead before the walk re-enters a visited one. */
  lemma {:induction false} ParticipationComplete(
      edges: seq<Binding>, b: Binding, service: string, visited: set<string>, k: nat)
    requires Lookup(edges, b.name) == Some(b) && b.name in Names(edges)
    requires !DownstreamParticipates(edges, b, service, visited)
    requires k >= 1 && Hop(edges, b, k).Some?
    requires forall i :: 0 <= i < k && Hop(edges, b, i).Some? ==> Hop(edges, b, i).value.name !in visited
    ensures !Fronts(Hop(edges, b, k).value, service)
    decreases Names(edges) - visited, k
  {
    assert Hop(edges, b, 0) == Some(b);
    HopIsListed(edges, b, k);
    LookupIsListed(edges, b.downstream);
    var d := Lookup(edges, b.downstream).value;
    assert Hop(edges, b, k) == Hop(edges, d, k - 1);
    if k > 1 {
      if i :| 1 <= i < k && Hop(edges, b, i).Some? && Hop(edges, b, i).value.name == b.name {
        // The walk has come back to b: what lies k ahead lies k - i ahead.
        HopIsListed(edges, b, i);
        HopAdds(edges, b, i, k - i);
        ParticipationComplete(edges, b, service, visited, k - i);
      } else {
        forall i | 0 <= i < k - 1 && Hop(edges, d, i).Some?
          ensures Hop(edges, d, i).value.name !in visited + {b.name}
        {
          assert Hop(edges, b, i + 1) == Hop(edges, d, i);
        }
        HopIsListed(edges, b, 1);
        ParticipationComplete(edges, d, service, visited + {b.name}, k - 1);
      }
    }
  }

  /** Participation is exactly reachability of a serving edge, cycles included. */
  lemma ParticipationExact(edges: seq<Binding>, b: Binding, service: string)
    requires UniqueNames(edges) && b in edges
    ensures b.name in Names(edges) && Lookup(edges, b.name) == Some(b)
    ensures DownstreamParticipates(edges, b, service, {}) <==> ReachesServing(edges, b, service)
  {
    LookupSelf(edges, b);
    if DownstreamParticipates(edges, b, service, {}) {
      ParticipationSound(edges, b, service, {});
    } else {
      forall k: nat | k >= 1 && Hop(edges, b, k).Some? ensures !Fronts(Hop(edges, b, k).value, service) {
        ParticipationComplete(edges, b, service, {}, k);
      }
    }
  }

  lemma {:induction false} LookupSelf(edges: seq<Binding>, b: Binding)
    requires UniqueNames(edges) && b in edges
    ensures b.name in Names(edges) && Lookup(edges, b.name) == Some(b)
  {
    if edges[0] != b {
      LookupSelf(edges[1..], b);
      var i :| 0 <= i < |edges| && edges[i] == b;
      assert edges[0].name != edges[i].name;
    } else {
      assert edges[0].name in Names(edges);
    }
  }

  datatype Role = RoleNone | RoleTerminal | RoleForward

  /** An edge's responsibility for a service. A directly fronting edge serves it; a
      service declared internal-only is never forwarded. */
  function RoleFor(edges: seq<Binding>, internal: set<string>, b: Binding, service: string): Role
    requires b.name in Names(edges)
  {
    if Fronts(b, service) then RoleTerminal
    else if service in internal then RoleNone
    else if IsChainFront(b) && DownstreamParticipates(edges, b, service, {}) then RoleForward
    else RoleNone
  }

  lemma RoleExact(edges: seq<Binding>, internal: set<string>, b: Binding, service: string)
    requires UniqueNames(edges) && b in edges
    ensures b.name in Names(edges)
    ensures RoleFor(edges, internal, b, service) == RoleForward <==>
      !Fronts(b, service) && service !in internal && ReachesServing(edges, b, service)
    ensures RoleFor(edges, internal, b, service) == RoleTerminal <==> Fronts(b, service)
  {
    ParticipationExact(edges, b, service);
    if ReachesServing(edges, b, service) {
      var k: nat :| k >= 1 && Hop(edges, b, k).Some? && Fronts(Hop(edges, b, k).value, service);
      HopShorter(edges, b, 1, k);
    }
  }

  // ----- chain depth -----

  /** Edge `u` forwards to edge `v`, both in the topology. */
  ghost predicate Link(edges: seq<Binding>, u: string, v: string) {
    v != "" && v in Names(edges) &&
    exists i :: 0 <= i < |edges| && edges[i].name == u && edges[i].downstream == v
  }

  /** A run of edges each forwarding to the next. */
  ghost predicate IsRun(edges: seq<Binding>, p: seq<string>) {
    && p != []
    && (forall i :: 0 <= i < |p| ==> p[i] in Names(edges))
    && (forall i :: 0 <= i < |p| - 1 ==> Link(edges, p[i], p[i + 1]))
  }

  ghost predicate RunTo(edges: seq<Binding>, p: seq<string>, v: string) {
    IsRun(edges, p) && p[|p| - 1] == v
  }

  ghost predicate Acyclic(edges: seq<Binding>) {
    forall p :: IsRun(edges, p) && |p| >= 2 ==> p[0] != p[|p| - 1]
  }

  /** `d` is the length of the longest run of fronts above `v`. */
  ghost predicate LongestRun(edges: seq<Binding>, v: string, d: nat) {
    && (exists p :: RunTo(edges, p, v) && |p| == d + 1)
    && (forall p :: RunTo(edges, p, v) ==> |p| <= d + 1)
  }

  /** Every depth is witnessed by a run. */
  ghost predicate Witnessed(edges: seq<Binding>, depth: map<string, nat>) {
    forall v :: v in depth ==> exists p :: RunTo(edges, p, v) && |p| == depth[v] + 1
  }

  /** Every run of at most `n` edges is accounted for. */
  ghost predicate Covers(edges: seq<Binding>, depth: map<string, nat>, n: nat) {
    forall p :: IsRun(edges, p) && |p| <= n && p[|p| - 1] in depth ==> |p| <= depth[p[|p| - 1]] + 1
  }

  /** No binding before `j` can raise a depth any more. */
  ghost predicate Relaxed(edges: seq<Binding>, depth: map<string, nat>, j: nat)
    requires j <= |edges|
  {
    forall i :: 0 <= i < j && edges[i].downstream != "" && edges[i].downstream in depth && edges[i].name in depth ==>
      depth[edges[i].name] + 1 <= depth[edges[i].downstream]
  }

  ghost predicate Grown(was: map<string, nat>, now: map<string, nat>) {
    was.Keys == now.Keys && forall v :: v in was ==> was[v] <= now[v]
  }

  /** In this pass, each binding before `j` has passed its front's starting depth on. */
  ghost predicate PassedOn(edges: seq<Binding>, was: map<string, nat>, now: map<string, nat>, j: nat)
    requires j <= |edges|
  {
    forall i :: 0 <= i < j && edges[i].downstream != "" && edges[i].downstream in now && edges[i].name in was ==>
      was[edges[i].name] + 1 <= now[edges[i].downstream]
  }

  lemma Extend(edges: seq<Binding>, depth: map<string, nat>, i: nat)
    requires Witnessed(edges, depth) && depth.Keys == Names(edges) && i < |edges|
    requires edges[i].downstream != "" && edges[i].downstream in depth
    ensures edges[i].name in depth
    ensures Witnessed(edges, depth[edges[i].downstream := depth[edges[i].name] + 1])
  {
    var u, v := edges[i].name, edges[i].downstream;
    var p :| RunTo(edges, p, u) && |p| == depth[u] + 1;
    assert Link(edges, u, v);
    var q := p + [v];
    assert RunTo(edges, q, v) && |q| == depth[u] + 2;
  }

  lemma CoversNext(edges: seq<Binding>, was: map<string, nat>, now: map<string, nat>, n: nat)
    requires was.Keys == Names(edges) && Covers(edges, was, n) && Grown(was, now)
    requires PassedOn(edges, was, now, |edges|)
    ensures Covers(edges, now, n + 1)
  {
    forall p | IsRun(edges, p) && |p| <= n + 1 && p[|p| - 1] in now ensures |p| <= now[p[|p| - 1]] + 1 {
      if |p| > 1 {
        var q, u, v := p[..|p| - 1], p[|p| - 2], p[|p| - 1];
        assert Link(edges, p[|p| - 2], p[|p| - 2 + 1]);
        assert IsRun(edges, q);
        var i :| 0 <= i < |edges| && edges[i].name == u && edges[i].downstream == v;
        assert u in was;
      }
    }
  }

  lemma {:induction false} RelaxedCovers(edges: seq<Binding>, depth: map<string, nat>, n: nat)
    requires depth.Keys == Names(edges) && Relaxed(edges, depth, |edges|)
    ensures Covers(edges, depth, n)
  {
    if n > 0 {
      RelaxedCovers(edges, depth, n - 1);
      CoversNext(edges, depth, depth, n - 1);
    }
  }

  lemma {:induction false} DistinctCount<T>(p: seq<T>)
    requires forall i, j :: 0 <= i < j < |p| ==> p[i] != p[j]
    ensures |(set i | 0 <= i < |p| :: p[i])| == |p|
  {
    if p != [] {
      var init, last := p[..|p| - 1], p[|p| - 1];
      DistinctCount(init);
      var all, fewer := (set i | 0 <= i < |p| :: p[i]), (set i | 0 <= i < |init| :: init[i]);
      assert fewer == set i | 0 <= i < |p| - 1 :: p[i];
      assert all == fewer + {last};
    }
  }

  lemma {:induction false} FewNames(edges: seq<Binding>)
    ensures |Names(edges)| <= |edges|
  {
    if edges != [] {
      FewNames(edges[..|edges| - 1]);
      assert Names(edges) == Names(edges[..|edges| - 1]) + {edges[|edges| - 1].name};
    }
  }

  lemma {:induction false} SubsetCount<T>(a: set<T>, b: set<T>)
    requires a <= b
    ensures |a| <= |b|
  {
    if a != {} {
      var x :| x in a;
      SubsetCount(a - {x}, b - {x});
    }
  }

  /** Without cycles no run is longer than the topology. */
  lemma ShortRuns(edges: seq<Binding>, p: seq<string>)
    requires Acyclic(edges) && IsRun(edges, p)
    ensures |p| <= |edges|
  {
    forall i, j | 0 <= i < j < |p| ensures p[i] != p[j] {
      var q := p[i..j + 1];
      forall k | 0 <= k < |q| - 1 ensures Link(edges, q[k], q[k + 1]) {
        assert Link(edges, p[i + k], p[i + k + 1]);
      }
      assert IsRun(edges, q);
    }
    DistinctCount(p);
    SubsetCount(set i | 0 <= i < |p| :: p[i], Names(edges));
    FewNames(edges);
  }

  lemma Exact(edges: seq<Binding>, depth: map<string, nat>)
    requires depth.Keys == Names(edges) && Witnessed(edges, depth)
    requires Relaxed(edges, depth, |edges|) || Covers(edges, depth, |edges|)
    ensures Acyclic(edges) ==> forall v :: v in depth ==> LongestRun(edges, v, depth[v])
  {
    if Acyclic(edges) {
      forall v, p | v in depth && RunTo(edges, p, v) ensures |p| <= depth[v] + 1 {
        ShortRuns(edges, p);
        if Relaxed(edges, depth, |edges|) { RelaxedCovers(edges, depth, |p|); }
      }
    }
  }

  ghost predicate Bounded(depth: map<string, nat>, bound: nat) {
    forall v :: v in depth ==> depth[v] <= bound
  }

  /** Raising one depth keeps what the pass has achieved so far. */
  lemma Raised(edges: seq<Binding>, was: map<string, nat>, depth: map<string, nat>, j: nat, v: string, d: nat, bound: nat)
    requires j < |edges| && edges[j].downstream == v != "" && edges[j].name in depth && v in depth
    requires Bounded(depth, bound)
    requires Grown(was, depth) && PassedOn(edges, was, depth, j)
    requires d == depth[edges[j].name] + 1 && d > depth[v]
    ensures Grown(was, depth[v := d]) && PassedOn(edges, was, depth[v := d], j + 1)
    ensures Bounded(depth[v := d], bound + 1)
  {
  }

  /** A binding that has nothing to pass on keeps the pass going unchanged. */
  lemma Passed(edges: seq<Binding>, was: map<string, nat>, depth: map<string, nat>, j: nat)
    requires j < |edges| && Grown(was, depth) && PassedOn(edges, was, depth, j)
    requires edges[j].downstream != "" && edges[j].downstream in depth && edges[j].name in depth ==>
      depth[edges[j].name] + 1 <= depth[edges[j].downstream]
    ensures PassedOn(edges, was, depth, j + 1)
    ensures Relaxed(edges, depth, j) ==> Relaxed(edges, depth, j + 1)
  {
  }

  lemma Times(pass: nat, n: nat)
    requires pass <= n
    ensures pass * n <= n * n && (pass + 1) * n == pass * n + n
  {
  }

  /** One relaxation pass over the bindings in order. */
  method RelaxPass(edges: seq<Binding>, was: map<string, nat>, ghost bound: nat)
    returns (depth: map<string, nat>, changed: bool)
    requires was.Keys == Names(edges) && Witnessed(edges, was) && Bounded(was, bound)
    ensures Witnessed(edges, depth) && Grown(was, depth) && PassedOn(edges, was, depth, |edges|)
    ensures !changed ==> Relaxed(edges, depth, |edges|)
    ensures Bounded(depth, bound + |edges|)
  {
    hide Witnessed;
    depth, changed := was, false;
    for j := 0 to |edges|
      invariant Witnessed(edges, depth) && Grown(was, depth) && PassedOn(edges, was, depth, j)
      invariant !changed ==> Relaxed(edges, depth, j)
      invariant Bounded(depth, bound + j)
    {
      var b := edges[j];
      assert b.name in Names(edges);
      if b.downstream != "" && b.downstream in depth && depth[b.name] + 1 > depth[b.downstream] {
        Extend(edges, depth, j);
        Raised(edges, was, depth, j, b.downstream, depth[b.name] + 1, bound + j);
        depth := depth[b.downstream := depth[b.name] + 1];
        changed := true;
      } else {
        Passed(edges, was, depth, j);
      }
    }
  }

  lemma StartsWitnessed(edges: seq<Binding>, depth: map<string, nat>)
    requires depth.Keys == Names(edges) && forall v :: v in depth ==> depth[v] == 0
    ensures Witnessed(edges, depth)
  {
    forall v | v in depth ensures exists p :: RunTo(edges, p, v) && |p| == depth[v] + 1 {
      assert RunTo(edges, [v], v);
    }
  }

  /** On an acyclic topology, each edge's depth is the longest run of fronts above it. */
  ghost predicate ExactDepth(edges: seq<Binding>, depth: map<string, nat>) {
    depth.Keys == Names(edges) && (Acyclic(edges) ==> forall v :: v in depth ==> LongestRun(edges, v, depth[v]))
  }

  /** The bounded relaxation: on an acyclic topology every depth is exactly the longest
      run of fronts above the edge; on any topology it stops within |edges| passes and no
      depth exceeds the square of the number of edges. */
  method ChainDepth(edges: seq<Binding>) returns (depth: map<string, nat>)
    ensures depth.Keys == Names(edges)
    ensures Acyclic(edges) ==> forall v :: v in depth ==> LongestRun(edges, v, depth[v])
    ensures forall v :: v in depth ==> depth[v] <= |edges| * |edges|
  {
    depth := map v | v in Names(edges) :: 0;
    StartsWitnessed(edges, depth);
    var pass, changed := 0, true;
    ghost var bound: nat := 0;
    while pass < |edges| && changed
      invariant pass <= |edges| && depth.Keys == Names(edges) && Witnessed(edges, depth)
      invariant Covers(edges, depth, pass)
      invariant !changed ==> Relaxed(edges, depth, |edges|)
      invariant bound == pass * |edges| && Bounded(depth, bound)
      decreases |edges| - pass
    {
      ghost var was := depth;
      depth, changed := RelaxPass(edges, depth, bound);
      CoversNext(edges, was, depth, pass);
      Times(pass, |edges|);
      pass, bound := pass + 1, bound + |edges|;
    }
    Exact(edges, depth);
    Times(pass, |edges|);
  }

  /** On a chain, a downstream edge is strictly deeper than its front. */
  lemma DownstreamIsDeeper(edges: seq<Binding>, u: string, v: string, du: nat, dv: nat)
    requires Link(edges, u, v) && LongestRun(edges, u, du) && LongestRun(edges, v, dv)
    ensures du < dv
  {
    var p :| RunTo(edges, p, u) && |p| == du + 1;
    assert RunTo(edges, p + [v], v);
  }
}
