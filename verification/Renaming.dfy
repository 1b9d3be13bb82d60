/** Moving a service to another host name in one transaction (internal/core/rename.go). */
module Renaming {
  import opened Model
  import opened Planner
  import opened Steps
  import opened Runs
  import opened Orders
  import opened Verify

  /** The source route with only the host name changed; the driver stamps its own marker. */
  function Renamed(src: Route, newHost: Host): Route {
    Route(newHost, src.upstream.(serverName := newHost), false, OwnUnset)
  }

  /** An edge that serves the old host must be free at the new one, and must carry an auth
      policy that can be reproduced by name. */
  function RenameEdge(live: LiveEdge, oldHost: Host, newHost: Host): Result<EdgeChange> {
    match Find(live.routes, oldHost)
    case None => Ok(NoEdgeChange)
    case Some(src) =>
      if HasHost(live, newHost) || src.upstream.auth == AUTH_DETECTED then Err
      else Ok(EdgeChange([Renamed(src, newHost)], [oldHost]))
  }

  /** The first `n` edges, in wiring order; those not serving the old host are left out. */
  function RenameEdges(w: World, oldHost: Host, newHost: Host, n: nat): Result<seq<EdgePlan>>
    requires n <= |w.edges|
  {
    if n == 0 then Ok([])
    else
      match RenameEdges(w, oldHost, newHost, n - 1)
      case Err => Err
      case Ok(rest) =>
        match RenameEdge(w.edges[n - 1], oldHost, newHost)
        case Err => Err
        case Ok(c) => Ok(rest + if HasHost(w.edges[n - 1], oldHost) then [EdgePlan(n - 1, c)] else [])
  }

  /** A rename names no service and appoints every edge and scope. */
  function RenameOp(newHost: Host): Op {
    Op(Rename, "", newHost, HttpProxy, "", [], [])
  }

  function PlanRename(w: World, oldHost: Host, newHost: Host): Result<ChangeSet> {
    if oldHost == "" || newHost == "" || oldHost == newHost then Err
    else
      match RenameEdges(w, oldHost, newHost, |w.edges|)
      case Err => Err
      case Ok(edges) => if edges == [] then Err else Ok(ChangeSet(RenameOp(newHost), edges, []))
  }

  lemma {:induction false} RenameEdgesErr(w: World, oldHost: Host, newHost: Host, n: nat, m: nat)
    requires n <= m <= |w.edges| && RenameEdges(w, oldHost, newHost, n).Err?
    ensures RenameEdges(w, oldHost, newHost, m).Err?
  {
    if n < m {
      RenameEdgesErr(w, oldHost, newHost, n, m - 1);
    }
  }

  /** An entry moves the old host of an edge that serves it. */
  ghost predicate EntryMoves(w: World, oldHost: Host, newHost: Host, p: EdgePlan) {
    p.edge < |w.edges| && HasHost(w.edges[p.edge], oldHost) && RenameEdge(w.edges[p.edge], oldHost, newHost) == Ok(p.change)
  }

  lemma {:induction false} RenameEdgesListed(w: World, oldHost: Host, newHost: Host, n: nat)
    requires n <= |w.edges| && RenameEdges(w, oldHost, newHost, n).Ok?
    ensures var ps := RenameEdges(w, oldHost, newHost, n).value;
      && Increasing(ps) && (forall j :: 0 <= j < |ps| ==> ps[j].edge < n && EntryMoves(w, oldHost, newHost, ps[j]))
      && (forall i :: 0 <= i < n && HasHost(w.edges[i], oldHost) ==> Listed(ps, i))
  {
    hide RenameEdge, HasHost;
    if n > 0 {
      RenameEdgesListed(w, oldHost, newHost, n - 1);
      var rest, ps := RenameEdges(w, oldHost, newHost, n - 1).value, RenameEdges(w, oldHost, newHost, n).value;
      forall i | 0 <= i < n && HasHost(w.edges[i], oldHost) ensures Listed(ps, i) {
        if i < n - 1 {
          var j :| 0 <= j < |rest| && rest[j].edge == i;
          assert ps[j] == rest[j];
        } else {
          assert ps[|rest|].edge == i;
        }
      }
    }
  }

  lemma {:induction false} RenameEdgesOkIff(w: World, oldHost: Host, newHost: Host, n: nat)
    requires n <= |w.edges|
    ensures RenameEdges(w, oldHost, newHost, n).Ok? <==>
      forall i :: 0 <= i < n ==> RenameEdge(w.edges[i], oldHost, newHost).Ok?
  {
    if n > 0 {
      RenameEdgesOkIff(w, oldHost, newHost, n - 1);
    }
  }

  /** A rename is planned exactly when the two names are given and differ, some edge serves
      the old one, and every edge that does can take the new one over. */
  lemma RenamePlannedIff(w: World, oldHost: Host, newHost: Host)
    ensures PlanRename(w, oldHost, newHost).Ok? <==>
      && oldHost != "" && newHost != "" && oldHost != newHost
      && (exists i :: 0 <= i < |w.edges| && HasHost(w.edges[i], oldHost))
      && (forall i :: 0 <= i < |w.edges| && HasHost(w.edges[i], oldHost) ==>
            !HasHost(w.edges[i], newHost) && Find(w.edges[i].routes, oldHost).value.upstream.auth != AUTH_DETECTED)
  {
    RenameEdgesOkIff(w, oldHost, newHost, |w.edges|);
    if RenameEdges(w, oldHost, newHost, |w.edges|).Ok? {
      RenameEdgesListed(w, oldHost, newHost, |w.edges|);
      var ps := RenameEdges(w, oldHost, newHost, |w.edges|).value;
      if i :| 0 <= i < |w.edges| && HasHost(w.edges[i], oldHost) {
        assert Listed(ps, i);
      }
      if ps != [] {
        assert HasHost(w.edges[ps[0].edge], oldHost);
      }
    }
    assert forall i :: 0 <= i < |w.edges| ==>
      (RenameEdge(w.edges[i], oldHost, newHost).Ok? <==>
        (HasHost(w.edges[i], oldHost) ==>
          !HasHost(w.edges[i], newHost) && Find(w.edges[i].routes, oldHost).value.upstream.auth != AUTH_DETECTED));
  }

  /** What the change does to an edge that serves the old host: the backend answers under the
      new name, nothing answers under the old one, and every other host is left as it was. */
  lemma RenameMoves(live: LiveEdge, oldHost: Host, newHost: Host, h: Host)
    requires RenameEdge(live, oldHost, newHost).Ok? && HasHost(live, oldHost) && oldHost != newHost
    ensures Serves(ApplyEdge(live, RenameEdge(live, oldHost, newHost).value), h)
         == if h == newHost then Some(Serves(live, oldHost).value.(serverName := newHost))
            else if h == oldHost then None
            else Serves(live, h)
  {
    var c := RenameEdge(live, oldHost, newHost).value;
    FindApplied(live, c, h);
    assert c.adds[..|c.adds| - 1] == [];
  }

  /** A rename's change can be undone on the edge it was planned against. */
  lemma RenameRestorable(w: World, oldHost: Host, newHost: Host, p: EdgePlan)
    requires EntryMoves(w, oldHost, newHost, p)
    ensures Restorable(EdgeSlot(w.edges[p.edge]), OnEdge(p.change))
  {
  }

  lemma MovedEdgeVerifies(w: World, oldHost: Host, newHost: Host, p: EdgePlan)
    requires EntryMoves(w, oldHost, newHost, p) && oldHost != newHost
    ensures EdgeVerified(RenameOp(newHost), p.change, ApplyEdge(w.edges[p.edge], p.change))
  {
    var live, c := w.edges[p.edge], p.change;
    FindApplied(live, c, oldHost);
    FindApplied(live, c, newHost);
    assert c.adds[..|c.adds| - 1] == [];
    assert c.adds == [Renamed(Find(live.routes, oldHost).value, newHost)];
  }
}
