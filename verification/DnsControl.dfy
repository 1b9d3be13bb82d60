/** The dnscontrol driver (internal/drivers/dns/dnscontrol): a whole-zone push behind a guard.
    Names and types are normalised; the generated document is modelled as its entries. */
module DnsControl {
  import opened Model
  import opened Planner

  /** `expand` is what dnscontrol makes of a record's label when it reads the document. */
  datatype Settings = Settings(zone: string, expand: string -> Host, scope: Scope, dedicated: bool, cloudflare: bool)

  // ----- names -----

  predicate Under(name: Host, zone: string) {
    HasSuffix(name, "." + zone)
  }

  /** A full name relative to the zone, "@" for the apex. */
  function RelName(name: Host, zone: string): string {
    if name == zone then "@"
    else if Under(name, zone) then name[..|name| - |zone| - 1]
    else name
  }

  /** A name reported for the zone as a full one; a name already under it is taken as it is. */
  function Fqdn(name: string, zone: string): Host {
    if name == "@" || name == "" then zone
    else if name == zone || Under(name, zone) then name
    else name + "." + zone
  }

  /** A name survives being written relative and read back exactly when it is the apex, or
      lies under the zone with a remainder that is neither empty nor "@" nor itself a name
      under the zone. */
  predicate NameSurvives(name: Host, zone: string) {
    name == zone ||
    (Under(name, zone) &&
     var rel := name[..|name| - |zone| - 1];
     rel != "" && rel != "@" && rel != zone && !Under(rel, zone))
  }

  lemma UnderSplits(name: Host, zone: string)
    requires Under(name, zone)
    ensures |name| > |zone| && name[..|name| - |zone| - 1] + "." + zone == name
  {
    var rel := name[..|name| - |zone| - 1];
    assert name == rel + name[|name| - |zone| - 1..];
    assert name[|name| - |zone| - 1..] == "." + zone;
    assert rel + "." + zone == rel + ("." + zone);
  }

  lemma NameSurvivesIff(name: Host, zone: string)
    ensures Fqdn(RelName(name, zone), zone) == name <==> NameSurvives(name, zone)
  {
    if name != zone && Under(name, zone) {
      UnderSplits(name, zone);
    }
  }

  /** Every name read from the provider lies at the zone or under it. */
  lemma ReadLiesUnder(name: string, zone: string)
    ensures Fqdn(name, zone) == zone || Under(Fqdn(name, zone), zone)
  {
    var full := name + "." + zone;
    assert full == name + ("." + zone);
    assert full[|full| - |"." + zone|..] == "." + zone;
  }

  /** dnscontrol's rule: "@" is the zone, any other label is put before it. */
  ghost predicate AppendsZone(s: Settings) {
    s.expand("@") == s.zone && forall rel :: rel != "@" ==> s.expand(rel) == rel + "." + s.zone
  }

  /** At the zone or under it, and not with the label that stands for the apex. */
  predicate LiesIn(name: Host, zone: string) {
    (name == zone || Under(name, zone)) && name != "@." + zone
  }

  /** Under that rule a name written relative is expanded to itself exactly when it lies in the zone. */
  lemma ExpandedBackIff(s: Settings, name: Host)
    requires AppendsZone(s)
    ensures s.expand(RelName(name, s.zone)) == name <==> LiesIn(name, s.zone)
  {
    var at := "@." + s.zone;
    assert at == "@" + ("." + s.zone) && "@" + "." + s.zone == at;
    if name != s.zone && Under(name, s.zone) {
      UnderSplits(name, s.zone);
      var rel := RelName(name, s.zone);
      if name == at {
        assert rel == "@";
      }
    } else if name != s.zone {
      assert |name + "." + s.zone| > |name|;
      assert at[1..] == "." + s.zone;
      assert name == at ==> Under(name, s.zone);
    }
  }

  // ----- the guard -----

  const RENDERABLE := {"A", "AAAA", "CNAME", "TXT", "NS", "PTR"}

  /** The zone's own apex NS and SOA belong to the provider. */
  predicate IsApex(r: Record, zone: string) {
    (r.rtype == "NS" || r.rtype == "SOA") && r.name == zone
  }

  function CountKey(recs: seq<Record>, key: Key): nat {
    if recs == [] then 0 else CountKey(recs[..|recs| - 1], key) + if KeyOf(recs[|recs| - 1]) == key then 1 else 0
  }

  /** A record the push could not reproduce: a type with several fields, an embedded quote, or
      one of several at its key. */
  predicate Unfaithful(live: seq<Record>, r: Record, zone: string) {
    if r.rtype !in RENDERABLE then !IsApex(r, zone)
    else '"' in r.value || (CountKey(live, KeyOf(r)) > 1 && !IsApex(r, zone))
  }

  predicate UnrenderableRefusal(zone: string, live: seq<Record>) {
    exists r :: r in live && Unfaithful(live, r, zone)
  }

  /** Present with the value crenel manages: the last managed record at the key decides. */
  predicate IsManaged(managed: seq<Record>, r: Record) {
    AddedRecord(managed, KeyOf(r)).Some? && AddedRecord(managed, KeyOf(r)).value.value == r.value
  }

  predicate ForeignRefusal(zone: string, managed: seq<Record>, live: seq<Record>) {
    exists r :: r in live && !IsApex(r, zone) && !IsManaged(managed, r)
  }

  predicate GuardPasses(s: Settings, live: seq<Record>, managed: seq<Record>) {
    !UnrenderableRefusal(s.zone, live) && (s.dedicated || !ForeignRefusal(s.zone, managed, live))
  }

  // ----- the target zone -----

  function FirstRecord(recs: seq<Record>, key: Key): Option<Record> {
    if recs == [] then None
    else match FirstRecord(recs[..|recs| - 1], key)
      case Some(r) => Some(r)
      case None => if KeyOf(recs[|recs| - 1]) == key then Some(recs[|recs| - 1]) else None
  }

  /** Live records in order, removed ones out, added ones replaced in place. */
  function Kept(live: seq<Record>, c: DnsChange): seq<Record> {
    if live == [] then []
    else
      var r := live[|live| - 1];
      Kept(live[..|live| - 1], c) +
      if HasKey(c.removes, KeyOf(r)) then []
      else match AddedRecord(c.adds, KeyOf(r))
        case Some(repl) => [repl]
        case None => [r]
  }

  /** Added records whose key is not there yet, each once, in order. */
  function Appended(kept: seq<Record>, adds: seq<Record>): seq<Record> {
    if adds == [] then []
    else
      var init, r := adds[..|adds| - 1], adds[|adds| - 1];
      Appended(kept, init) + if HasKey(kept, KeyOf(r)) || HasKey(init, KeyOf(r)) then [] else [r]
  }

  function Target(live: seq<Record>, c: DnsChange): seq<Record> {
    Kept(live, c) + Appended(Kept(live, c), c.adds)
  }

  // ----- the document and what a push of it means -----

  /** One line of the document; `ttl` only when pinned. */
  datatype DocEntry = DocEntry(rtype: string, rel: string, value: string, scope: Scope, ttl: Option<int>, proxyOn: bool)

  predicate Proxyable(rtype: string) {
    rtype in {"A", "AAAA", "CNAME"}
  }

  function Line(s: Settings, r: Record): DocEntry {
    DocEntry(r.rtype, RelName(r.name, s.zone), r.value, r.scope, if r.ttl > 1 then Some(r.ttl) else None,
             s.cloudflare && r.proxied && Proxyable(r.rtype))
  }

  predicate NameLeq(a: string, b: string) {
    a == "" || (b != "" && (a[0] < b[0] || (a[0] == b[0] && NameLeq(a[1..], b[1..]))))
  }

  function InsertByName(r: Record, sorted: seq<Record>): seq<Record> {
    if sorted == [] || NameLeq(r.name, sorted[0].name) then [r] + sorted
    else [sorted[0]] + InsertByName(r, sorted[1..])
  }

  function SortByName(recs: seq<Record>): seq<Record> {
    if recs == [] then [] else InsertByName(recs[0], SortByName(recs[1..]))
  }

  function Declared(recs: seq<Record>, zone: string): seq<Record> {
    if recs == [] then []
    else Declared(recs[..|recs| - 1], zone) + if IsApex(recs[|recs| - 1], zone) then [] else [recs[|recs| - 1]]
  }

  function Lines(s: Settings, recs: seq<Record>): seq<DocEntry> {
    seq(|recs|, i requires 0 <= i < |recs| => Line(s, recs[i]))
  }

  /** The document for a target zone: the provider's apex records are never declared. */
  function Render(s: Settings, recs: seq<Record>): seq<DocEntry> {
    Lines(s, SortByName(Declared(recs, s.zone)))
  }

  const AUTO := 1

  /** The record a line makes; an unpinned TTL is the provider's automatic one. */
  function Made(s: Settings, e: DocEntry): Record {
    Record(s.expand(e.rel), e.rtype, e.value, e.scope, if e.ttl.Some? then e.ttl.value else AUTO, e.proxyOn)
  }

  function MadeAll(s: Settings, doc: seq<DocEntry>): seq<Record> {
    seq(|doc|, i requires 0 <= i < |doc| => Made(s, doc[i]))
  }

  function ApexOf(live: seq<Record>, zone: string): seq<Record> {
    if live == [] then []
    else ApexOf(live[..|live| - 1], zone) + if IsApex(live[|live| - 1], zone) then [live[|live| - 1]] else []
  }

  /** A push makes the zone exactly what the document declares, next to the provider's own
      apex records. */
  function Pushed(s: Settings, live: seq<Record>, doc: seq<DocEntry>): seq<Record> {
    ApexOf(live, s.zone) + MadeAll(s, doc)
  }

  // ----- diff and apply -----

  /** The change for the single record an operation wants. */
  function Diff(s: Settings, live: seq<Record>, verb: Verb, want: Record): Result<DnsChange> {
    if !GuardPasses(s, live, [want]) then Err
    else
      match verb
      case Expose =>
        (match AddedRecord(live, KeyOf(want))
         case None => Ok(DnsChange([want], []))
         case Some(cur) =>
           if cur.value == want.value then Ok(NoDnsChange)
           else Ok(DnsChange([want.(ttl := cur.ttl, proxied := cur.proxied)], [])))
      case Unexpose => Ok(if AddedRecord(live, KeyOf(want)).Some? then DnsChange([], [want]) else NoDnsChange)
      case Rename => Err
  }

  /** The guard at apply time counts what the change adds and removes as crenel's own. */
  function OwnedBy(managed: seq<Record>, c: DnsChange): seq<Record> {
    managed + c.adds + c.removes
  }

  function Apply(s: Settings, live: seq<Record>, managed: seq<Record>, c: DnsChange): Result<seq<Record>> {
    if !GuardPasses(s, live, OwnedBy(managed, c)) then Err
    else Ok(Pushed(s, live, Render(s, Target(live, c))))
  }
}
