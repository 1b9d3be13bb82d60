/** Planning a declarative apply (internal/core/declarative.go): the file of desired exposures
    against live state, edge by edge and provider by provider. */
module Declarative {
  import opened Model
  import opened Zones
  import T = Topology
  import opened Planner
  import opened Steps
  import opened Canonical
  import opened Changes

  /** One entry of the file; `host` is the stated or derived host, "" if there is neither. */
  datatype Exposure = Exposure(service: string, host: Host, mode: Mode, auth: string, edges: seq<string>, scopes: seq<Scope>)

  datatype Options = Options(adopt: bool, prune: bool)

  predicate InFile(exps: seq<Exposure>, host: Host) {
    exists k :: 0 <= k < |exps| && exps[k].host == host
  }

  /** The named subset of edges, as far as they front the service. */
  predicate TargetsEdge(cfg: Config, ex: Exposure, i: nat)
    requires i < |cfg.edges|
  {
    EdgeSelected(ex.edges, cfg.edges[i].name) && T.Fronts(cfg.edges[i], ex.service)
  }

  // ----- one edge -----

  /** What one entry means for one edge. */
  datatype Placement = Satisfied | Blocks | Adopts | Adds(routes: seq<Route>) | Fails

  /** The backend the edge's driver would render for the service. */
  function DesiredAddress(cfg: Config, i: nat, service: string, host: Host): Option<string>
    requires i < |cfg.edges|
  {
    match PlanTerminal(cfg, cfg.edges[i], Op(Expose, service, host, HttpProxy, "", [], []), LiveEdge([], true, ""))
    case Err => None
    case Ok(c) => if |c.adds| == 1 then Some(c.adds[0].upstream.address) else None
  }

  /** A present route must be managed, or match the file and be adoptable; a foreign or
      unknown owner always blocks. */
  function Place(cfg: Config, ex: Exposure, opts: Options, i: nat, live: LiveEdge): Placement
    requires i < |cfg.edges|
  {
    if !TargetsEdge(cfg, ex, i) then Satisfied
    else
      match Find(live.routes, ex.host)
      case Some(r) =>
        if r.managed then Satisfied
        else if r.ownership == OwnForeign || r.ownership == OwnUnknown then Blocks
        else if DesiredAddress(cfg, i, ex.service, ex.host) != Some(r.upstream.address) then Blocks
        else if opts.adopt then Adopts
        else Blocks
      case None =>
        match PlanTerminal(cfg, cfg.edges[i], Op(Expose, ex.service, ex.host, ex.mode, ex.auth, [], []), live)
        case Err => Fails
        case Ok(c) => Adds(c.adds)
  }

  datatype Draft = Draft(change: EdgeChange, adopts: seq<Host>, blocked: seq<Host>)

  const EmptyDraft := Draft(NoEdgeChange, [], [])

  function Extended(d: Draft, host: Host, p: Placement): Draft {
    match p
    case Adds(routes) => d.(change := d.change.(adds := d.change.adds + routes))
    case Adopts => d.(adopts := d.adopts + [host])
    case Blocks => d.(blocked := d.blocked + [host])
    case _ => d
  }

  /** All entries of the file, for one edge. */
  function Placed(cfg: Config, exps: seq<Exposure>, opts: Options, i: nat, live: LiveEdge): Result<Draft>
    requires i < |cfg.edges|
  {
    if exps == [] then Ok(EmptyDraft)
    else
      var ex := exps[|exps| - 1];
      match Placed(cfg, exps[..|exps| - 1], opts, i, live)
      case Err => Err
      case Ok(d) => if Place(cfg, ex, opts, i, live).Fails? then Err else Ok(Extended(d, ex.host, Place(cfg, ex, opts, i, live)))
  }

  /** Managed routes of hosts the file does not name. */
  function PrunedHosts(exps: seq<Exposure>, routes: seq<Route>): seq<Host> {
    if routes == [] then []
    else
      var last := routes[|routes| - 1];
      PrunedHosts(exps, routes[..|routes| - 1]) + if last.managed && !InFile(exps, last.host) then [last.host] else []
  }

  function DraftEdge(cfg: Config, exps: seq<Exposure>, opts: Options, i: nat, live: LiveEdge): Result<Draft>
    requires i < |cfg.edges|
  {
    match Placed(cfg, exps, opts, i, live)
    case Err => Err
    case Ok(d) => Ok(d.(change := d.change.(removes := if opts.prune then PrunedHosts(exps, live.routes) else [])))
  }

  /** Adoption stamps the marker on the routes of the named hosts and changes nothing else. */
  function Adopted(routes: seq<Route>, hosts: seq<Host>): seq<Route> {
    seq(|routes|, i requires 0 <= i < |routes| => if routes[i].host in hosts then Marked(routes[i]) else routes[i])
  }

  function AdoptedEdge(live: LiveEdge, hosts: seq<Host>): LiveEdge {
    live.(routes := Adopted(live.routes, hosts))
  }

  // ----- DNS -----

  predicate WantsRecord(ex: Exposure, dp: DnsProvider) {
    ScopeSelected(ex.scopes, dp.scope) && Covers(dp, ex.host)
  }

  /** Records of desired hosts with none of crenel's at their key. */
  function FileAdds(exps: seq<Exposure>, dp: DnsProvider, zone: Zone): Result<seq<Record>> {
    if exps == [] then Ok([])
    else
      var ex := exps[|exps| - 1];
      match FileAdds(exps[..|exps| - 1], dp, zone)
      case Err => Err
      case Ok(rest) =>
        if !WantsRecord(ex, dp) then Ok(rest)
        else if ex.host == "" then Err
        else Ok(rest + if Answered(zone, KeyOf(Desired(dp, ex.host))) then [] else [Desired(dp, ex.host)])
  }

  /** Own records in crenel's domain whose host the file does not name. A record at a desired
      key has a desired host's name, so it is never pruned. */
  function PrunedRecords(cfg: Config, exps: seq<Exposure>, zone: Zone): seq<Record> {
    if zone == [] then []
    else
      var last := zone[|zone| - 1];
      PrunedRecords(cfg, exps, zone[..|zone| - 1])
      + if last.ours && Managed(cfg, last.rec.name) && !InFile(exps, last.rec.name) then [last.rec] else []
  }

  function DraftDns(cfg: Config, exps: seq<Exposure>, opts: Options, dp: DnsProvider, zone: Zone): Result<DnsChange> {
    match FileAdds(exps, dp, zone)
    case Err => Err
    case Ok(adds) => Ok(ChangeFor(dp, adds, if opts.prune then PrunedRecords(cfg, exps, zone) else []))
  }

  // ----- the whole plan -----

  datatype FilePlan = FilePlan(drafts: seq<Draft>, dns: seq<DnsChange>)

  predicate FileValid(exps: seq<Exposure>) {
    forall k :: 0 <= k < |exps| ==> exps[k].host != "" && AuthFits(exps[k].mode, exps[k].auth)
  }

  function Drafts(cfg: Config, w: World, exps: seq<Exposure>, opts: Options, n: nat): Result<seq<Draft>>
    requires Fits(cfg, w) && n <= |cfg.edges|
  {
    if n == 0 then Ok([])
    else
      match Drafts(cfg, w, exps, opts, n - 1)
      case Err => Err
      case Ok(rest) =>
        match DraftEdge(cfg, exps, opts, n - 1, w.edges[n - 1])
        case Err => Err
        case Ok(d) => Ok(rest + [d])
  }

  function DnsDrafts(cfg: Config, w: World, exps: seq<Exposure>, opts: Options, n: nat): Result<seq<DnsChange>>
    requires Fits(cfg, w) && n <= |cfg.dns|
  {
    if n == 0 then Ok([])
    else
      match DnsDrafts(cfg, w, exps, opts, n - 1)
      case Err => Err
      case Ok(rest) =>
        match DraftDns(cfg, exps, opts, cfg.dns[n - 1], w.dns[n - 1])
        case Err => Err
        case Ok(c) => Ok(rest + [c])
  }

  function PlanFile(cfg: Config, w: World, exps: seq<Exposure>, opts: Options): Result<FilePlan>
    requires Fits(cfg, w)
  {
    if !FileValid(exps) then Err
    else
      match Drafts(cfg, w, exps, opts, |cfg.edges|)
      case Err => Err
      case Ok(drafts) =>
        match DnsDrafts(cfg, w, exps, opts, |cfg.dns|)
        case Err => Err
        case Ok(dns) => Ok(FilePlan(drafts, dns))
  }

  predicate IsBlocked(p: FilePlan) {
    exists i :: 0 <= i < |p.drafts| && p.drafts[i].blocked != []
  }

  function PassesOf(p: FilePlan): Passes {
    Passes(seq(|p.drafts|, i requires 0 <= i < |p.drafts| => p.drafts[i].change), p.dns)
  }

  predicate NothingToDo(p: FilePlan) {
    NoDrift(PassesOf(p)) && forall i :: 0 <= i < |p.drafts| ==> p.drafts[i].adopts == []
  }

  predicate PlanShaped(cfg: Config, w: World, p: FilePlan) {
    Fits(cfg, w) && |p.drafts| == |cfg.edges| && |p.dns| == |cfg.dns|
  }

  /** Adoption comes first and is not part of the transaction. */
  function AdoptedWorld(cfg: Config, w: World, p: FilePlan): (w': World)
    requires PlanShaped(cfg, w, p)
    ensures Fits(cfg, w') && PassesFit(cfg, w', PassesOf(p))
  {
    w.(edges := seq(|cfg.edges|, i requires 0 <= i < |cfg.edges| => AdoptedEdge(w.edges[i], p.drafts[i].adopts)))
  }

  function AppliedFile(cfg: Config, w: World, p: FilePlan): (w': World)
    requires PlanShaped(cfg, w, p)
    ensures Fits(cfg, w')
  {
    Corrected(cfg, AdoptedWorld(cfg, w, p), PassesOf(p))
  }

  lemma {:induction false} DraftsAt(cfg: Config, w: World, exps: seq<Exposure>, opts: Options, n: nat)
    requires Fits(cfg, w) && n <= |cfg.edges|
    ensures Drafts(cfg, w, exps, opts, n).Ok? <==> forall i :: 0 <= i < n ==> DraftEdge(cfg, exps, opts, i, w.edges[i]).Ok?
    ensures Drafts(cfg, w, exps, opts, n).Ok? ==>
      |Drafts(cfg, w, exps, opts, n).value| == n &&
      forall i :: 0 <= i < n ==> DraftEdge(cfg, exps, opts, i, w.edges[i]) == Ok(Drafts(cfg, w, exps, opts, n).value[i])
  {
    if n > 0 {
      DraftsAt(cfg, w, exps, opts, n - 1);
    }
  }

  lemma {:induction false} DnsDraftsAt(cfg: Config, w: World, exps: seq<Exposure>, opts: Options, n: nat)
    requires Fits(cfg, w) && n <= |cfg.dns|
    ensures DnsDrafts(cfg, w, exps, opts, n).Ok? <==>
      forall i :: 0 <= i < n ==> DraftDns(cfg, exps, opts, cfg.dns[i], w.dns[i]).Ok?
    ensures DnsDrafts(cfg, w, exps, opts, n).Ok? ==>
      |DnsDrafts(cfg, w, exps, opts, n).value| == n &&
      forall i :: 0 <= i < n ==> DraftDns(cfg, exps, opts, cfg.dns[i], w.dns[i]) == Ok(DnsDrafts(cfg, w, exps, opts, n).value[i])
  {
    if n > 0 {
      DnsDraftsAt(cfg, w, exps, opts, n - 1);
    }
  }

  /** The parts of a plan are what each edge and provider was drafted. */
  lemma FilePlanAt(cfg: Config, w: World, exps: seq<Exposure>, opts: Options)
    requires Fits(cfg, w) && PlanFile(cfg, w, exps, opts).Ok?
    ensures var p := PlanFile(cfg, w, exps, opts).value;
      && PlanShaped(cfg, w, p)
      && (forall i :: 0 <= i < |cfg.edges| ==> DraftEdge(cfg, exps, opts, i, w.edges[i]) == Ok(p.drafts[i]))
      && (forall i :: 0 <= i < |cfg.dns| ==> DraftDns(cfg, exps, opts, cfg.dns[i], w.dns[i]) == Ok(p.dns[i]))
  {
    DraftsAt(cfg, w, exps, opts, |cfg.edges|);
    DnsDraftsAt(cfg, w, exps, opts, |cfg.dns|);
  }
}
