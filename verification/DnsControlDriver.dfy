/** The dnscontrol driver as the object it is (internal/drivers/dns/dnscontrol/dnscontrol.go,
    render.go): its loops, proved against the specification functions. */
module DnsControlDriver {
  import opened Model
  import opened Planner
  import opened DnsControl
  import opened DnsControlLaws

  function At(counts: map<Key, nat>, key: Key): nat {
    if key in counts then counts[key] else 0
  }

  class Driver {
    const settings: Settings
    /** The zone at the provider. */
    var live: seq<Record>

    constructor (settings: Settings, live: seq<Record>)
      ensures this.settings == settings && this.live == live
    {
      this.settings, this.live := settings, live;
    }

    /** How many records sit at each key. */
    method Count(recs: seq<Record>) returns (counts: map<Key, nat>)
      ensures forall k :: At(counts, k) == CountKey(recs, k)
    {
      counts := map[];
      for i := 0 to |recs|
        invariant forall k :: At(counts, k) == CountKey(recs[..i], k)
      {
        assert recs[..i + 1][..i] == recs[..i];
        counts := counts[KeyOf(recs[i]) := At(counts, KeyOf(recs[i])) + 1];
      }
      assert recs[..|recs|] == recs;
    }

    /** The fidelity half of the guard. */
    method RefusesUnrenderable(recs: seq<Record>) returns (refused: bool)
      ensures refused == UnrenderableRefusal(settings.zone, recs)
    {
      var zone := settings.zone;
      var counts := Count(recs);
      refused := false;
      for i := 0 to |recs|
        invariant refused == exists k :: 0 <= k < i && Unfaithful(recs, recs[k], zone)
      {
        var r := recs[i];
        var apex := IsApex(r, zone);
        if r.rtype !in RENDERABLE {
          if !apex {
            refused := true;
          }
        } else if '"' in r.value || (At(counts, KeyOf(r)) > 1 && !apex) {
          refused := true;
        }
      }
      if r :| r in recs && Unfaithful(recs, r, zone) {
        var k :| 0 <= k < |recs| && recs[k] == r;
      }
    }

    /** The ownership half of the guard. */
    method RefusesForeign(managed: seq<Record>, recs: seq<Record>) returns (refused: bool)
      ensures refused == ForeignRefusal(settings.zone, managed, recs)
    {
      var zone := settings.zone;
      var want: map<Key, string> := map[];
      for i := 0 to |managed|
        invariant forall k :: k in want <==> AddedRecord(managed[..i], k).Some?
        invariant forall k :: k in want ==> want[k] == AddedRecord(managed[..i], k).value.value
      {
        assert managed[..i + 1][..i] == managed[..i];
        want := want[KeyOf(managed[i]) := managed[i].value];
      }
      assert managed[..|managed|] == managed;
      refused := false;
      for i := 0 to |recs|
        invariant refused == exists k :: 0 <= k < i && !IsApex(recs[k], zone) && !IsManaged(managed, recs[k])
      {
        var r := recs[i];
        if !IsApex(r, zone) && !(KeyOf(r) in want && want[KeyOf(r)] == r.value) {
          refused := true;
        }
      }
      if r :| r in recs && !IsApex(r, zone) && !IsManaged(managed, r) {
        var k :| 0 <= k < |recs| && recs[k] == r;
      }
    }

    method GuardPush(recs: seq<Record>, managed: seq<Record>) returns (passes: bool)
      ensures passes == GuardPasses(settings, recs, managed)
    {
      var unrenderable := RefusesUnrenderable(recs);
      if unrenderable {
        return false;
      }
      if settings.dedicated {
        return true;
      }
      var foreign := RefusesForeign(managed, recs);
      return !foreign;
    }

    /** The live zone with the change made: live order first, new records after. */
    method ApplyChange(recs: seq<Record>, c: DnsChange) returns (out: seq<Record>)
      ensures out == Target(recs, c)
    {
      hide HasKey, Kept, Appended;
      var seen;
      out, seen := KeepLive(recs, c);
      out := AppendNew(out, seen, c);
    }

    /** The live records that stay, each replaced where an addition has its key. */
    method KeepLive(recs: seq<Record>, c: DnsChange) returns (out: seq<Record>, seen: set<Key>)
      ensures out == Kept(recs, c) && forall k :: k in seen <==> HasKey(out, k)
    {
      hide HasKey;
      out, seen := [], {};
      assert forall k :: !HasKey(out, k) by { NoKeys(out); }
      for i := 0 to |recs|
        invariant out == Kept(recs[..i], c)
        invariant forall k :: k in seen <==> HasKey(out, k)
      {
        assert recs[..i + 1][..i] == recs[..i];
        var key := KeyOf(recs[i]);
        if !HasKey(c.removes, key) {
          var repl := AddedRecord(c.adds, key);
          AddedRecordIsListed(c.adds, key);
          var put := if repl.Some? then repl.value else recs[i];
          OneMore(out, put);
          out := out + [put];
          seen := seen + {key};
        } else {
          assert out + [] == out;
        }
      }
      assert recs[..|recs|] == recs;
    }

    /** The additions whose key is not there yet, each key once. */
    method AppendNew(kept: seq<Record>, seen0: set<Key>, c: DnsChange) returns (out: seq<Record>)
      requires forall k :: k in seen0 <==> HasKey(kept, k)
      ensures out == kept + Appended(kept, c.adds)
    {
      hide HasKey;
      var seen := seen0;
      out := kept;
      assert c.adds[..0] == [] && out == kept + [];
      NoKeys(c.adds[..0]);
      for i := 0 to |c.adds|
        invariant out == kept + Appended(kept, c.adds[..i])
        invariant forall k :: k in seen <==> HasKey(kept, k) || HasKey(c.adds[..i], k)
      {
        assert c.adds[..i + 1] == c.adds[..i] + [c.adds[i]];
        OneMore(c.adds[..i], c.adds[i]);
        assert c.adds[..i + 1][..i] == c.adds[..i];
        var key := KeyOf(c.adds[i]);
        if key !in seen {
          out := out + [c.adds[i]];
        } else {
          assert Appended(kept, c.adds[..i]) + [] == Appended(kept, c.adds[..i]);
        }
        seen := seen + {key};
      }
      assert c.adds[..|c.adds|] == c.adds;
    }

    method RenderConfig(recs: seq<Record>) returns (doc: seq<DocEntry>)
      ensures doc == Render(settings, recs)
    {
      var kept := [];
      for i := 0 to |recs|
        invariant kept == Declared(recs[..i], settings.zone)
      {
        assert recs[..i + 1][..i] == recs[..i];
        if !IsApex(recs[i], settings.zone) {
          kept := kept + [recs[i]];
        } else {
          assert kept + [] == kept;
        }
      }
      assert recs[..|recs|] == recs;
      var rows := SortByName(kept);
      doc := [];
      for i := 0 to |rows|
        invariant |doc| == i && forall k :: 0 <= k < i ==> doc[k] == Line(settings, rows[k])
      {
        doc := doc + [Line(settings, rows[i])];
      }
    }

    /** Plans one operation against the live zone. */
    method DiffLive(verb: Verb, want: Record) returns (r: Result<DnsChange>)
      ensures r == Diff(settings, live, verb, want)
    {
      var passes := GuardPush(live, [want]);
      if !passes {
        return Err;
      }
      r := Diff(settings, live, verb, want);
    }

    /** Guards, renders and pushes the whole zone; a push that fails changes nothing. */
    method Push(managed: seq<Record>, c: DnsChange, fails: bool) returns (ok: bool)
      modifies this
      ensures ok == (Apply(settings, old(live), managed, c).Ok? && !fails)
      ensures live == if ok then Apply(settings, old(live), managed, c).value else old(live)
    {
      var passes := GuardPush(live, OwnedBy(managed, c));
      if !passes {
        return false;
      }
      var target := ApplyChange(live, c);
      var doc := RenderConfig(target);
      if !fails {
        live := Pushed(settings, live, doc);
      }
      return !fails;
    }
  }

  lemma NoKeys(recs: seq<Record>)
    requires recs == []
    ensures forall k :: !HasKey(recs, k)
  {
  }

  lemma OneMore(recs: seq<Record>, r: Record)
    ensures forall k :: HasKey(recs + [r], k) <==> HasKey(recs, k) || k == KeyOf(r)
  {
    forall k ensures HasKey(recs + [r], k) <==> HasKey(recs, k) || k == KeyOf(r) {
      HasKeyAppend(recs, [r], k);
      assert r in [r];
    }
  }
}
