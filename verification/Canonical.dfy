/** The canonical exposed set that reconcile derives from live state
    (internal/core/reconcile.go): which hosts are managed, and from which edge each takes its
    mode and forward-auth. */
module Canonical {
  import opened Model
  import T = Topology
  import opened Planner

  datatype Primacy = Primacy(mode: Mode, auth: string, terminal: bool)

  type Canon = map<Host, Primacy>

  /** Within crenel's domain: some edge fronts the host's service. */
  predicate Managed(cfg: Config, host: Host) {
    exists i :: 0 <= i < |cfg.edges| && T.Fronts(cfg.edges[i], cfg.serviceOf(host))
  }

  predicate ServedBy(cfg: Config, i: nat, host: Host)
    requires i < |cfg.edges|
  {
    RoleOf(cfg, i, cfg.serviceOf(host)) == T.RoleTerminal
  }

  /** Taking one route of edge `i` into account: the first serving edge decides, and until
      one is met the first edge with the host does. */
  function Notice(cfg: Config, i: nat, canon: Canon, r: Route): Canon
    requires i < |cfg.edges|
  {
    if !Managed(cfg, r.host) then canon
    else if ServedBy(cfg, i, r.host) && (r.host in canon ==> !canon[r.host].terminal) then
      canon[r.host := Primacy(r.upstream.mode, r.upstream.auth, true)]
    else if r.host !in canon then canon[r.host := Primacy(r.upstream.mode, r.upstream.auth, false)]
    else canon
  }

  function ScanEdge(cfg: Config, i: nat, canon: Canon, routes: seq<Route>): Canon
    requires i < |cfg.edges|
  {
    if routes == [] then canon
    else Notice(cfg, i, ScanEdge(cfg, i, canon, routes[..|routes| - 1]), routes[|routes| - 1])
  }

  /** The canonical set of the first `n` edges. */
  function Scan(cfg: Config, w: World, n: nat): Canon
    requires Fits(cfg, w) && n <= |cfg.edges|
  {
    if n == 0 then map[] else ScanEdge(cfg, n - 1, Scan(cfg, w, n - 1), w.edges[n - 1].routes)
  }

  function CanonOf(cfg: Config, w: World): Canon
    requires Fits(cfg, w)
  {
    Scan(cfg, w, |cfg.edges|)
  }

  // ----- what the scan finds, said host by host -----

  /** The first of `n` edges that has the host, or that has it and serves it. */
  function FirstEdge(cfg: Config, w: World, host: Host, serving: bool, n: nat): Option<nat>
    requires Fits(cfg, w) && n <= |cfg.edges|
  {
    if n == 0 then None
    else
      match FirstEdge(cfg, w, host, serving, n - 1)
      case Some(i) => Some(i)
      case None => if HasHost(w.edges[n - 1], host) && (serving ==> ServedBy(cfg, n - 1, host)) then Some(n - 1) else None
  }

  function At(canon: Canon, host: Host): Option<Primacy> {
    if host in canon then Some(canon[host]) else None
  }

  function PrimacyFrom(live: LiveEdge, host: Host, terminal: bool): Option<Primacy> {
    match Find(live.routes, host)
    case None => None
    case Some(r) => Some(Primacy(r.upstream.mode, r.upstream.auth, terminal))
  }

  /** The primary-edge view: the first edge that serves the host, failing that the first that
      has it. */
  function Primary(cfg: Config, w: World, host: Host, n: nat): Option<Primacy>
    requires Fits(cfg, w) && n <= |cfg.edges|
  {
    FirstEdgeBound(cfg, w, host, true, n);
    FirstEdgeBound(cfg, w, host, false, n);
    match FirstEdge(cfg, w, host, true, n)
    case Some(i) => PrimacyFrom(w.edges[i], host, true)
    case None =>
      match FirstEdge(cfg, w, host, false, n)
      case Some(i) => PrimacyFrom(w.edges[i], host, false)
      case None => None
  }

  lemma {:induction false} FirstEdgeBound(cfg: Config, w: World, host: Host, serving: bool, n: nat)
    requires Fits(cfg, w) && n <= |cfg.edges|
    ensures match FirstEdge(cfg, w, host, serving, n)
            case Some(i) => i < n && HasHost(w.edges[i], host) && (serving ==> ServedBy(cfg, i, host))
              && (forall j :: 0 <= j < i ==> !(HasHost(w.edges[j], host) && (serving ==> ServedBy(cfg, j, host))))
            case None => forall j :: 0 <= j < n ==> !(HasHost(w.edges[j], host) && (serving ==> ServedBy(cfg, j, host)))
  {
    if n > 0 {
      FirstEdgeBound(cfg, w, host, serving, n - 1);
    }
  }

  lemma {:induction false} ScanEdgeAt(cfg: Config, i: nat, canon: Canon, routes: seq<Route>, host: Host)
    requires i < |cfg.edges|
    ensures At(ScanEdge(cfg, i, canon, routes), host)
         == match Find(routes, host)
            case None => At(canon, host)
            case Some(r) =>
              if !Managed(cfg, host) then At(canon, host)
              else if ServedBy(cfg, i, host) then
                if host in canon && canon[host].terminal then At(canon, host)
                else Some(Primacy(r.upstream.mode, r.upstream.auth, true))
              else if host in canon then At(canon, host)
              else Some(Primacy(r.upstream.mode, r.upstream.auth, false))
  {
    if routes != [] {
      var init, last := routes[..|routes| - 1], routes[|routes| - 1];
      ScanEdgeAt(cfg, i, canon, init, host);
      FindAppend(init, [last], host);
      assert routes == init + [last];
    }
  }

  /** The scan is the primary-edge view of every managed host, and of no other. */
  lemma {:induction false} ScanIsPrimary(cfg: Config, w: World, n: nat, host: Host)
    requires Fits(cfg, w) && n <= |cfg.edges|
    ensures At(Scan(cfg, w, n), host) == if Managed(cfg, host) then Primary(cfg, w, host, n) else None
  {
    hide Managed, ServedBy, ScanEdge;
    if n > 0 {
      ScanIsPrimary(cfg, w, n - 1, host);
      ScanEdgeAt(cfg, n - 1, Scan(cfg, w, n - 1), w.edges[n - 1].routes, host);
      FirstEdgeBound(cfg, w, host, true, n - 1);
      FirstEdgeBound(cfg, w, host, false, n - 1);
    }
  }
}
