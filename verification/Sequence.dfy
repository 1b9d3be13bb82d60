/** The order in which any change set's steps are applied (internal/core/apply.go): by how public
    what they change is, then by chain depth, then as wired. */
module Sequence {
  import opened Model
  import opened Planner
  import opened Steps
  import opened Orders
  import opened Flow
  import opened Changes

  /** Edges stand before internal providers, those before public ones. */
  function Stage(cfg: Config, t: Target): nat {
    match t
    case EdgeAt(_) => 0
    case DnsAt(i) => if i < |cfg.dns| && cfg.dns[i].scope == Public then 2 else 1
  }

  /** The chain depth of an edge, 0 where none is known; providers have none. */
  function Deep(cfg: Config, depth: map<string, nat>, t: Target): nat {
    match t
    case EdgeAt(i) => if i < |cfg.edges| && cfg.edges[i].name in depth then depth[cfg.edges[i].name] else 0
    case DnsAt(_) => 0
  }

  function Wired(t: Target): nat {
    match t case EdgeAt(i) => i case DnsAt(i) => i
  }

  /** Exposing, `a` may go before `b`: it is less public; or as public and deeper in a chain; or as
      deep and wired earlier. Any other way the first two are turned round. */
  predicate GoesBefore(cfg: Config, depth: map<string, nat>, exposing: bool, a: Target, b: Target) {
    var p, q, m, n := Stage(cfg, a), Stage(cfg, b), Deep(cfg, depth, a), Deep(cfg, depth, b);
    if p != q then (if exposing then p < q else q < p)
    else if m != n then (if exposing then n < m else m < n)
    else Wired(a) < Wired(b)
  }

  /** A step carries its provider's stage and depth. */
  predicate Carries(cfg: Config, depth: map<string, nat>, s: Step) {
    s.rank == Stage(cfg, s.target) && s.depth == Deep(cfg, depth, s.target)
  }

  ghost predicate AllCarry(cfg: Config, depth: map<string, nat>, xs: seq<Step>) {
    forall i :: 0 <= i < |xs| ==> Carries(cfg, depth, xs[i])
  }

  /** Where neither must go first, they are listed as wired. */
  ghost predicate TiesWired(ascending: bool, xs: seq<Step>) {
    forall i, j :: 0 <= i < j < |xs| && !Less(ascending, xs[i], xs[j]) && !Less(ascending, xs[j], xs[i]) ==>
      Wired(xs[i].target) < Wired(xs[j].target)
  }

  lemma {:induction false} EdgeStepsCarry(cfg: Config, w: World, depth: map<string, nat>, edges: seq<EdgePlan>)
    requires PlansFit(cfg, w, edges) && Increasing(edges)
    ensures AllCarry(cfg, depth, EdgeSteps(cfg, w, depth, edges))
    ensures forall s :: s in EdgeSteps(cfg, w, depth, edges) ==> s.target.EdgeAt? && Listed(edges, s.target.edge)
    ensures forall i, j :: 0 <= i < j < |EdgeSteps(cfg, w, depth, edges)| ==>
      Wired(EdgeSteps(cfg, w, depth, edges)[i].target) < Wired(EdgeSteps(cfg, w, depth, edges)[j].target)
  {
    if edges != [] {
      var init, last := edges[..|edges| - 1], edges[|edges| - 1];
      EdgeStepsCarry(cfg, w, depth, init);
      forall k: nat | Listed(init, k) ensures Listed(edges, k) && k < last.edge {
        var j :| 0 <= j < |init| && init[j].edge == k;
        assert edges[j] == init[j];
      }
      assert Listed(edges, last.edge) by { assert edges[|edges| - 1].edge == last.edge; }
      var rest := EdgeSteps(cfg, w, depth, init);
      assert forall i :: 0 <= i < |rest| ==> rest[i] in rest;
    }
  }

  lemma {:induction false} DnsStepsCarry(cfg: Config, depth: map<string, nat>, dns: seq<DnsChange>)
    requires |dns| <= |cfg.dns|
    ensures AllCarry(cfg, depth, DnsSteps(cfg, dns))
    ensures forall s :: s in DnsSteps(cfg, dns) ==> s.target.DnsAt? && s.target.dns < |dns|
    ensures forall i, j :: 0 <= i < j < |DnsSteps(cfg, dns)| ==> Wired(DnsSteps(cfg, dns)[i].target) < Wired(DnsSteps(cfg, dns)[j].target)
  {
    if dns != [] {
      var n := |dns| - 1;
      DnsStepsCarry(cfg, depth, dns[..n]);
      var rest := DnsSteps(cfg, dns[..n]);
      assert forall i :: 0 <= i < |rest| ==> rest[i] in rest;
    }
  }

  lemma TiesCons(ascending: bool, y: Step, rest: seq<Step>)
    requires TiesWired(ascending, rest)
    requires forall s :: s in rest && !Less(ascending, y, s) && !Less(ascending, s, y) ==> Wired(y.target) < Wired(s.target)
    ensures TiesWired(ascending, [y] + rest)
  {
    hide Less, Wired;
    var ys := [y] + rest;
    assert forall i :: 1 <= i < |ys| ==> ys[i] == rest[i - 1] && rest[i - 1] in rest;
  }

  lemma {:induction false} InsertStable(ascending: bool, x: Step, ys: seq<Step>)
    requires Sorted(ascending, ys) && TiesWired(ascending, ys)
    requires forall y :: y in ys && !Less(ascending, x, y) && !Less(ascending, y, x) ==> Wired(x.target) < Wired(y.target)
    ensures TiesWired(ascending, Insert(ascending, x, ys))
  {
    hide Less, TiesWired, Sorted, Wired;
    if ys == [] || !Less(ascending, ys[0], x) {
      TiesCons(ascending, x, ys);
    } else {
      var rest := Insert(ascending, x, ys[1..]);
      TailStable(ascending, ys);
      InsertStable(ascending, x, ys[1..]);
      InsertMembers(ascending, x, ys[1..]);
      forall s | s in rest && !Less(ascending, ys[0], s) && !Less(ascending, s, ys[0]) ensures Wired(ys[0].target) < Wired(s.target) {
        assert s in multiset(rest);
        assert s == x || s in ys[1..];
      }
      TiesCons(ascending, ys[0], rest);
    }
  }

  lemma TailStable(ascending: bool, ys: seq<Step>)
    requires ys != [] && Sorted(ascending, ys) && TiesWired(ascending, ys)
    ensures Sorted(ascending, ys[1..]) && TiesWired(ascending, ys[1..])
    ensures forall s :: s in ys[1..] && !Less(ascending, ys[0], s) && !Less(ascending, s, ys[0]) ==> Wired(ys[0].target) < Wired(s.target)
  {
    hide Less, Wired;
    forall s | s in ys[1..] && !Less(ascending, ys[0], s) && !Less(ascending, s, ys[0]) ensures Wired(ys[0].target) < Wired(s.target) {
      var k :| 0 <= k < |ys[1..]| && ys[1..][k] == s;
      assert ys[k + 1] == s;
    }
  }

  lemma {:induction false} SortStable(ascending: bool, xs: seq<Step>)
    requires TiesWired(ascending, xs)
    ensures TiesWired(ascending, Sort(ascending, xs))
  {
    if xs != [] {
      SortStable(ascending, xs[1..]);
      SortSorted(ascending, xs[1..]);
      SortMembers(ascending, xs[1..]);
      forall y | y in Sort(ascending, xs[1..]) && !Less(ascending, xs[0], y) && !Less(ascending, y, xs[0])
        ensures Wired(xs[0].target) < Wired(y.target)
      {
        assert y in multiset(Sort(ascending, xs[1..]));
        assert y in xs[1..];
        var k :| 0 <= k < |xs[1..]| && xs[1..][k] == y;
        assert xs[k + 1] == y;
      }
      InsertStable(ascending, xs[0], Sort(ascending, xs[1..]));
    }
  }

  lemma RawTies(cfg: Config, depth: map<string, nat>, ascending: bool, es: seq<Step>, ds: seq<Step>)
    requires AllCarry(cfg, depth, es) && AllCarry(cfg, depth, ds)
    requires forall s :: s in es ==> s.target.EdgeAt?
    requires forall s :: s in ds ==> s.target.DnsAt?
    requires forall i, j :: 0 <= i < j < |es| ==> Wired(es[i].target) < Wired(es[j].target)
    requires forall i, j :: 0 <= i < j < |ds| ==> Wired(ds[i].target) < Wired(ds[j].target)
    ensures AllCarry(cfg, depth, es + ds) && TiesWired(ascending, es + ds)
  {
    forall i, j | 0 <= i < |es| && 0 <= j < |ds| ensures es[i].rank != ds[j].rank {
      assert es[i] in es && ds[j] in ds;
    }
  }

  /** Of the steps built from any change set that asks each edge once, an earlier one goes before
      every later one: exposing, and in every corrective run, edges first, deeper ones before their
      fronts, then internal and last public providers; any other way round the reverse; and what
      this leaves open, as wired. */
  lemma StepsInSequence(cfg: Config, w: World, depth: map<string, nat>, cs: ChangeSet, i: nat, j: nat)
    requires Proper(cfg, w, cs) && i < j < |BuildSteps(cfg, w, depth, cs)|
    ensures GoesBefore(cfg, depth, cs.op.verb == Expose, BuildSteps(cfg, w, depth, cs)[i].target, BuildSteps(cfg, w, depth, cs)[j].target)
  {
    hide Insert, EdgeSteps, DnsSteps;
    var up := cs.op.verb == Expose;
    var es, ds := EdgeSteps(cfg, w, depth, cs.edges), DnsSteps(cfg, cs.dns);
    EdgeStepsCarry(cfg, w, depth, cs.edges);
    DnsStepsCarry(cfg, depth, cs.dns);
    RawTies(cfg, depth, up, es, ds);
    SortStable(up, es + ds);
    SortSorted(up, es + ds);
    SortKeeps(up, es + ds);
    var steps := Sort(up, es + ds);
    assert steps[i] in es + ds && steps[j] in es + ds;
    assert Carries(cfg, depth, steps[i]) && Carries(cfg, depth, steps[j]);
  }

  /** A corrective run applies its steps as an expose does. */
  lemma CorrectiveSequence(cfg: Config, w: World, depth: map<string, nat>, p: Passes, i: nat, j: nat)
    requires PassesFit(cfg, w, p) && Proper(cfg, w, ChangesOf(p)) && i < j < |BuildSteps(cfg, w, depth, ChangesOf(p))|
    ensures var steps := BuildSteps(cfg, w, depth, ChangesOf(p)); GoesBefore(cfg, depth, true, steps[i].target, steps[j].target)
  {
    hide BuildSteps;
    StepsInSequence(cfg, w, depth, ChangesOf(p), i, j);
  }
}
