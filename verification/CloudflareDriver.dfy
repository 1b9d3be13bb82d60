/** The Cloudflare driver as the object it is (internal/drivers/dns/cloudflare/cloudflare.go),
    and that it does what the planner's model of it says. */
module CloudflareDriver {
  import opened Model
  import opened Planner
  import opened Cloudflare
  import opened CloudflareRuns

  // ----- the server and the driver -----

  /** The API's side of the zone, with the state after every mutating call it was sent. */
  class Server {
    var zone: CfZone
    var sent: nat
    ghost var history: seq<CfZone>

    constructor (initial: CfZone)
      ensures zone == initial && sent == 0 && history == []
    {
      zone, sent, history := initial, 0, [];
    }

    /** One mutating call. */
    method Send(s: Settings, call: Call, answer: Answer) returns (ok: bool)
      requires Sendable(s, call)
      modifies this
      ensures (zone, ok) == Perform(s, old(zone), call, answer)
      ensures sent == old(sent) + 1 && history == old(history) + [zone]
    {
      ok := false;
      if answer != TurnedDown {
        match CarriedOut(s, zone, call)
        case None =>
        case Some(z) =>
          zone := z;
          ok := answer == Served;
      }
      sent, history := sent + 1, history + [zone];
    }
  }

  class Driver {
    const settings: Settings
    const server: Server

    constructor (settings: Settings, server: Server)
      ensures this.settings == settings && this.server == server
    {
      this.settings, this.server := settings, server;
    }

    /** The listed records at a name and type, crenel's and the others. */
    method Partition(all: seq<CfRecord>, name: Host, rtype: string) returns (ours: seq<CfRecord>, foreign: seq<CfRecord>)
      ensures ours == Ours(settings, all, name, rtype) && foreign == Theirs(settings, all, name, rtype)
    {
      hide SitsAt, Owned;
      ours, foreign := [], [];
      for i := 0 to |all|
        invariant ours == Ours(settings, all[..i], name, rtype) && foreign == Theirs(settings, all[..i], name, rtype)
      {
        PartNext(settings, all, name, rtype, true, i);
        PartNext(settings, all, name, rtype, false, i);
        if SitsAt(settings, all[i], name, rtype) {
          if Owned(all[i]) {
            ours := ours + [all[i]];
          } else {
            foreign := foreign + [all[i]];
          }
        }
      }
      assert all[..|all|] == all;
    }

    method DiffLive(verb: Verb, want: Record) returns (r: Result<DnsChange>)
      ensures r == Diff(settings, server.zone.records, verb, want)
    {
      if !Guarded(settings, want.name) {
        return Err;
      }
      var ours, foreign := Partition(server.zone.records, want.name, want.rtype);
      match verb
      case Expose =>
        if ours == [] && foreign != [] {
          return Err;
        }
        if ours == [] {
          return Ok(DnsChange([want], []));
        }
        if |ours| > 1 {
          return Err;
        }
        return Ok(if ours[0].content == want.value then NoDnsChange else DnsChange([want], []));
      case Unexpose => return Ok(DnsChange([], ToModels(settings, ours)));
      case Rename => return Err;
    }

    /** The server is where the first `n` calls leave it, and every state it has been in since
        `seen` shows the foreign records of `from`. */
    ghost predicate OnTrack(from: CfZone, seen: seq<CfZone>, calls: seq<Call>, script: nat -> Answer, n: nat, ok: bool)
      reads server
    {
      && n <= |calls| && (server.zone, ok) == Run(settings, from, calls, script, n)
      && seen <= server.history
      && forall k :: |seen| <= k < |server.history| ==> Foreign(server.history[k].records) == Foreign(from.records)
    }

    /** One call, after the driver's own checks. */
    method Attempt(call: Call, answer: Answer) returns (ok: bool)
      modifies server
      ensures (server.zone, ok) == Perform(settings, old(server.zone), call, answer)
      ensures server.history == old(server.history) || server.history == old(server.history) + [server.zone]
    {
      if Sendable(settings, call) {
        ok := server.Send(settings, call, answer);
      } else {
        ok := false;
      }
    }

    /** Sends the next call; a failure is the end of the run. */
    method Mutate(ghost from: CfZone, ghost seen: seq<CfZone>, ghost calls: seq<Call>, call: Call, n: nat, script: nat -> Answer)
      returns (ok: bool)
      requires IdsUnique(from) && AllAimed(from.records, calls) && OnTrack(from, seen, calls, script, n, true)
      requires n < |calls| && calls[n] == call
      modifies server
      ensures ok ==> OnTrack(from, seen, calls, script, n + 1, true)
      ensures !ok ==> OnTrack(from, seen, calls, script, |calls|, false)
    {
      ghost var now := server.zone;
      ok := Attempt(call, script(n));
      RunNext(settings, from, calls, script, n, now);
      assert OnTrack(from, seen, calls, script, n + 1, ok);
      if !ok {
        RunStopped(settings, from, calls, script, n + 1, |calls|);
      }
    }

    /** Deletes the listed records one by one. */
    method DeleteOwned(ghost from: CfZone, ghost seen: seq<CfZone>, ghost calls: seq<Call>, ours: seq<CfRecord>, n: nat,
                       script: nat -> Answer) returns (ok: bool)
      requires IdsUnique(from) && AllAimed(from.records, calls) && OnTrack(from, seen, calls, script, n, true)
      requires Laid(calls, n, DeleteCalls(ours))
      modifies server
      ensures ok ==> OnTrack(from, seen, calls, script, n + |ours|, true)
      ensures !ok ==> OnTrack(from, seen, calls, script, |calls|, false)
    {
      hide Run, Foreign, Owned;
      for i := 0 to |ours|
        invariant OnTrack(from, seen, calls, script, n + i, true)
      {
        assert calls[n + i] == DeleteCalls(ours)[i];
        ok := Mutate(from, seen, calls, Delete(ours[i]), n + i, script);
        if !ok {
          return;
        }
      }
      ok := true;
    }

    /** Creates or updates each added record. */
    method WriteAdds(ghost from: CfZone, ghost seen: seq<CfZone>, ghost calls: seq<Call>, all: seq<CfRecord>, adds: seq<Record>, n: nat,
                     script: nat -> Answer) returns (ok: bool)
      requires IdsUnique(from) && AllAimed(from.records, calls) && OnTrack(from, seen, calls, script, n, true)
      requires Laid(calls, n, AddCalls(settings, all, adds)) && n + |adds| == |calls|
      modifies server
      ensures OnTrack(from, seen, calls, script, |calls|, ok)
    {
      hide Run, Foreign, AddCall, Aimed, IdsUnique;
      for j := 0 to |adds|
        invariant OnTrack(from, seen, calls, script, n + j, true)
      {
        var call := AddCall(settings, all, adds[j]);
        AddCallsAt(settings, all, adds, j);
        assert calls[n + j] == AddCalls(settings, all, adds)[j];
        ok := Mutate(from, seen, calls, call, n + j, script);
        if !ok {
          return;
        }
      }
      ok := true;
    }

    /** Deletes, removal by removal, the owned records the listing shows. */
    method DeleteRemoves(ghost from: CfZone, ghost seen: seq<CfZone>, ghost calls: seq<Call>, all: seq<CfRecord>, removes: seq<Record>,
                         script: nat -> Answer) returns (ok: bool, n: nat)
      requires IdsUnique(from) && AllAimed(from.records, calls) && OnTrack(from, seen, calls, script, 0, true)
      requires RemoveCalls(settings, all, removes) <= calls
      modifies server
      ensures ok ==> n == |RemoveCalls(settings, all, removes)| && OnTrack(from, seen, calls, script, n, true)
      ensures !ok ==> OnTrack(from, seen, calls, script, |calls|, false)
    {
      hide Run, DeleteCalls, Foreign;
      n := 0;
      for j := 0 to |removes|
        invariant OnTrack(from, seen, calls, script, n, true) && n == |RemoveCalls(settings, all, removes[..j])|
      {
        var ours := Ours(settings, all, removes[j].name, removes[j].rtype);
        RemoveCallsAt(settings, all, removes, calls, j);
        ok := DeleteOwned(from, seen, calls, ours, n, script);
        if !ok {
          return;
        }
        n := n + |ours|;
      }
      assert removes[..|removes|] == removes;
      ok := true;
    }

    /** Realises a change by per-record calls derived from one listing: removes, then adds. At
        every call, and however it ends, foreign records are as they were. */
    method Apply(c: DnsChange, script: nat -> Answer) returns (ok: bool)
      requires IdsUnique(server.zone)
      modifies server
      ensures var calls := Calls(settings, old(server.zone).records, c);
        OnTrack(old(server.zone), old(server.history), calls, script, |calls|, ok)
    {
      ghost var from, seen := server.zone, server.history;
      var all := server.zone.records;
      ghost var calls := Calls(settings, all, c);
      var n;
      CallsAllAimed(settings, all, c);
      ok, n := DeleteRemoves(from, seen, calls, all, c.removes, script);
      if ok {
        LaidInside(calls, RemoveCalls(settings, all, c.removes), AddCalls(settings, all, c.adds), calls);
        ok := WriteAdds(from, seen, calls, all, c.adds, n, script);
      }
    }
  }

  lemma PartNext(s: Settings, all: seq<CfRecord>, name: Host, rtype: string, ours: bool, i: nat)
    requires i < |all|
    ensures Part(s, all[..i + 1], name, rtype, ours) == Part(s, all[..i], name, rtype, ours) + Pick(s, all[i], name, rtype, ours)
  {
    assert all[..i + 1] == all[..i] + [all[i]] && [all[i]][1..] == [];
    PartAppend(s, all[..i], [all[i]], name, rtype, ours);
    assert Part(s, [all[i]][1..], name, rtype, ours) == [];
  }

  lemma CallsAllAimed(s: Settings, all: seq<CfRecord>, c: DnsChange)
    ensures AllAimed(all, Calls(s, all, c))
  {
    CallsAimed(s, all, c);
    assert forall i :: 0 <= i < |Calls(s, all, c)| ==> Calls(s, all, c)[i] in Calls(s, all, c);
  }

  /** A part of a plan sits at position `n`. */
  ghost predicate Laid(calls: seq<Call>, n: nat, part: seq<Call>) {
    n + |part| <= |calls| && forall i :: 0 <= i < |part| ==> calls[n + i] == part[i]
  }

  lemma LaidInside(calls: seq<Call>, a: seq<Call>, b: seq<Call>, longer: seq<Call>)
    requires a + b <= longer && longer <= calls
    ensures Laid(calls, |a|, b)
  {
    assert forall i :: 0 <= i < |b| ==> (a + b)[|a| + i] == b[i];
  }

  /** Where the calls of the `j`th removal sit in the plan. */
  lemma RemoveCallsAt(s: Settings, all: seq<CfRecord>, removes: seq<Record>, calls: seq<Call>, j: nat)
    requires j < |removes| && RemoveCalls(s, all, removes) <= calls
    ensures var n, ours := |RemoveCalls(s, all, removes[..j])|, Ours(s, all, removes[j].name, removes[j].rtype);
      |RemoveCalls(s, all, removes[..j + 1])| == n + |ours| && Laid(calls, n, DeleteCalls(ours))
  {
    var ours := Ours(s, all, removes[j].name, removes[j].rtype);
    assert removes[..j + 1][..j] == removes[..j];
    FirstRemoves(s, all, removes, j + 1);
    LaidInside(calls, RemoveCalls(s, all, removes[..j]), DeleteCalls(ours), RemoveCalls(s, all, removes));
  }

  lemma RunNext(s: Settings, from: CfZone, calls: seq<Call>, script: nat -> Answer, n: nat, now: CfZone)
    requires n < |calls| && Run(s, from, calls, script, n) == (now, true)
    requires IdsUnique(from) && AllAimed(from.records, calls)
    ensures Run(s, from, calls, script, n + 1) == Perform(s, now, calls[n], script(n))
    ensures Foreign(Run(s, from, calls, script, n + 1).0.records) == Foreign(from.records)
  {
    AimedRunKeeps(s, from, calls, script, n + 1);
  }

  /** Once a call has failed nothing more is sent. */
  lemma {:induction false} RunStopped(s: Settings, z: CfZone, calls: seq<Call>, script: nat -> Answer, m: nat, n: nat)
    requires m <= n <= |calls| && !Run(s, z, calls, script, m).1
    ensures Run(s, z, calls, script, n) == Run(s, z, calls, script, m)
  {
    if m < n {
      RunStopped(s, z, calls, script, m, n - 1);
    }
  }
}
