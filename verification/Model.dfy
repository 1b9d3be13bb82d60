/** The domain types of internal/model/model.go and the read-only questions asked of them.
    Host and record names are normalised (lower case, no trailing dot), so the source's
    case-insensitive comparisons are equality here. */
module Model {

  datatype Option<+T> = None | Some(value: T)

  datatype Result<+T> = Ok(value: T) | Err

  type Host = string

  datatype Verb = Expose | Unexpose | Rename

  datatype Mode = HttpProxy | TcpPassthrough | MeshGrant

  const AUTH_NONE := "none"
  const AUTH_DETECTED := "(detected)"

  datatype Upstream = Upstream(
    direct: bool, mode: Mode, address: string, passthrough: bool, serverName: string, tls: bool, auth: string)

  datatype Ownership = OwnCrenel | OwnUnmanaged | OwnForeign | OwnUnknown | OwnUnset

  datatype Route = Route(host: Host, upstream: Upstream, managed: bool, ownership: Ownership)

  /** What an edge reports: its routes in order, whether the catch-all deny is present, and
      the config generator that owns it ("" for none). */
  datatype LiveEdge = LiveEdge(routes: seq<Route>, deny: bool, generator: string)

  datatype Scope = Internal | Public

  datatype Record = Record(name: Host, rtype: string, value: string, scope: Scope, ttl: int, proxied: bool)

  datatype Key = Key(scope: Scope, rtype: string, name: Host)

  function KeyOf(r: Record): Key {
    Key(r.scope, r.rtype, r.name)
  }

  datatype EdgeChange = EdgeChange(adds: seq<Route>, removes: seq<Host>)

  /** Most drivers remove and put records by key; AdGuard's names a rewrite by its domain and
      answer. */
  datatype DnsChange =
    | DnsChange(adds: seq<Record>, removes: seq<Record>)
    | RewriteChange(adds: seq<Record>, removes: seq<Record>)

  const NoEdgeChange := EdgeChange([], [])
  const NoDnsChange := DnsChange([], [])

  /** The transient intent of one command. */
  datatype Op = Op(
    verb: Verb, service: string, host: Host, mode: Mode, auth: string, edges: seq<string>, scopes: seq<Scope>)

  /** The first route for a host. */
  function Find(routes: seq<Route>, host: Host): Option<Route> {
    if routes == [] then None
    else if routes[0].host == host then Some(routes[0])
    else Find(routes[1..], host)
  }

  predicate HasHost(live: LiveEdge, host: Host) {
    Find(live.routes, host).Some?
  }

  /** Structural default-deny: an explicit route and the catch-all. */
  predicate Reachable(live: LiveEdge, host: Host) {
    live.deny && HasHost(live, host)
  }

  /** Forward-auth needs an HTTP layer. */
  predicate AuthFits(mode: Mode, auth: string) {
    auth == "" || auth == AUTH_NONE || mode == HttpProxy
  }

  // ----- what applying a change means for an edge -----

  function Without(routes: seq<Route>, hosts: seq<Host>): seq<Route> {
    if routes == [] then []
    else (if routes[0].host in hosts then [] else [routes[0]]) + Without(routes[1..], hosts)
  }

  /** A driver stamps its ownership marker on every route it writes. */
  function Marked(r: Route): Route {
    r.(managed := true, ownership := OwnCrenel)
  }

  function Put(routes: seq<Route>, r: Route): seq<Route> {
    Without(routes, [r.host]) + [Marked(r)]
  }

  function PutAll(routes: seq<Route>, adds: seq<Route>): seq<Route> {
    if adds == [] then routes else Put(PutAll(routes, adds[..|adds| - 1]), adds[|adds| - 1])
  }

  /** Removes first, then adds; a route added at a present host replaces it. The catch-all
      deny is always rendered. */
  function ApplyEdge(live: LiveEdge, c: EdgeChange): LiveEdge {
    live.(routes := PutAll(Without(live.routes, c.removes), c.adds), deny := true)
  }

  /** The last route a change adds for a host. */
  function Added(adds: seq<Route>, host: Host): Option<Route> {
    if adds == [] then None
    else if adds[|adds| - 1].host == host then Some(adds[|adds| - 1])
    else Added(adds[..|adds| - 1], host)
  }

  lemma {:induction false} FindAppend(a: seq<Route>, b: seq<Route>, host: Host)
    ensures Find(a + b, host) == if Find(a, host).Some? then Find(a, host) else Find(b, host)
  {
    if a == [] {
      assert a + b == b;
    } else {
      assert (a + b)[1..] == a[1..] + b;
      FindAppend(a[1..], b, host);
    }
  }

  lemma {:induction false} FindWithout(routes: seq<Route>, hosts: seq<Host>, host: Host)
    ensures Find(Without(routes, hosts), host) == if host in hosts then None else Find(routes, host)
  {
    if routes != [] {
      FindWithout(routes[1..], hosts, host);
      FindAppend(if routes[0].host in hosts then [] else [routes[0]], Without(routes[1..], hosts), host);
    }
  }

  lemma {:induction false} FindPutAll(routes: seq<Route>, adds: seq<Route>, host: Host)
    ensures Find(PutAll(routes, adds), host)
         == if Added(adds, host).Some? then Some(Marked(Added(adds, host).value)) else Find(routes, host)
  {
    if adds != [] {
      var init, last := adds[..|adds| - 1], adds[|adds| - 1];
      FindPutAll(routes, init, host);
      FindWithout(PutAll(routes, init), [last.host], host);
      FindAppend(Without(PutAll(routes, init), [last.host]), [Marked(last)], host);
    }
  }

  /** Applying a change is a map update: added hosts answer as added, removed ones are
      gone, all others answer as before. */
  lemma FindApplied(live: LiveEdge, c: EdgeChange, host: Host)
    ensures Find(ApplyEdge(live, c).routes, host)
         == if Added(c.adds, host).Some? then Some(Marked(Added(c.adds, host).value))
            else if host in c.removes then None
            else Find(live.routes, host)
  {
    FindWithout(live.routes, c.removes, host);
    FindPutAll(Without(live.routes, c.removes), c.adds, host);
  }

  lemma {:induction false} AddedIsListed(adds: seq<Route>, host: Host)
    ensures Added(adds, host).Some? ==> Added(adds, host).value in adds && Added(adds, host).value.host == host
    ensures Added(adds, host).None? ==> forall r :: r in adds ==> r.host != host
  {
    if adds != [] {
      AddedIsListed(adds[..|adds| - 1], host);
      assert adds == adds[..|adds| - 1] + [adds[|adds| - 1]];
    }
  }

  lemma {:induction false} FindIsListed(routes: seq<Route>, host: Host)
    ensures Find(routes, host).Some? ==> Find(routes, host).value in routes && Find(routes, host).value.host == host
    ensures Find(routes, host).None? ==> forall r :: r in routes ==> r.host != host
  {
    if routes != [] {
      FindIsListed(routes[1..], host);
    }
  }

  // ----- record lists -----

  predicate HasKey(recs: seq<Record>, key: Key) {
    exists r :: r in recs && KeyOf(r) == key
  }

  /** The same name answering the same value. */
  predicate SameAnswer(a: Record, b: Record) {
    a.name == b.name && a.value == b.value
  }

  predicate HasAnswer(recs: seq<Record>, r: Record) {
    exists q :: q in recs && SameAnswer(q, r)
  }

  /** The last record a change adds at a key. */
  function AddedRecord(adds: seq<Record>, key: Key): Option<Record> {
    if adds == [] then None
    else if KeyOf(adds[|adds| - 1]) == key then Some(adds[|adds| - 1])
    else AddedRecord(adds[..|adds| - 1], key)
  }

  lemma {:induction false} AddedRecordIsListed(adds: seq<Record>, key: Key)
    ensures AddedRecord(adds, key).Some? ==>
      AddedRecord(adds, key).value in adds && KeyOf(AddedRecord(adds, key).value) == key
    ensures AddedRecord(adds, key).None? ==> forall r :: r in adds ==> KeyOf(r) != key
    ensures HasKey(adds, key) <==> AddedRecord(adds, key).Some?
  {
    if adds != [] {
      AddedRecordIsListed(adds[..|adds| - 1], key);
      assert adds == adds[..|adds| - 1] + [adds[|adds| - 1]];
    }
  }
}
