/** The Pi-hole API channel's session cache (internal/drivers/dns/pihole/doer.go): one
    sid shared by concurrent requests, logged in lazily, dropped on a 401, and
    re-acquired once. The mutex makes `session` and `invalidate` atomic; everything
    between them interleaves freely. */
module PiholeSession {

  // The cached sid; the empty string means none is held.
  type Sid = string

  const UNAUTHORIZED := 401

  /** What the server answers to a login. */
  datatype Login = NoAnswer | Denied(status: int) | Granted(sid: Sid)

  /** What the server answers to a request. */
  datatype Reply = NoReply | Answer(status: int)

  datatype Outcome = Failed | Finished(status: int)

  /** `session`: reuse the cached sid, or log in. The result is the sid to use, or "" when
      the login failed. */
  function SessionOf(cached: Sid, login: Login): Sid {
    if cached != "" then cached
    else if login.Granted? then login.sid
    else ""
  }

  /** `invalidate`: forget the sid, but only if it is still the cached one. */
  function Invalidated(cached: Sid, sid: Sid): Sid {
    if cached == sid then "" else cached
  }

  // ----- interleaved execution -----

  /** Where one `Do` call stands. `retry` tells its second attempt from its first. */
  datatype Pc =
    | Asking(retry: bool)
    | Sending(sid: Sid, retry: bool)
    | Dropping(sid: Sid)
    | Done(outcome: Outcome)

  datatype Event =
    | LoggedIn(call: nat, sid: Sid)
    | Sent(call: nat, sid: Sid)
    | Rejected(call: nat, sid: Sid)
    | Dropped(call: nat, sid: Sid)

  datatype State = State(cached: Sid, issued: set<Sid>, calls: map<nat, Pc>, log: seq<Event>)

  /** The scheduler picks a call, the server its answers. */
  datatype Choice = Choice(call: nat, login: Login, reply: Reply)

  const Start := State("", {}, map[], [])

  /** The server hands out only non-empty sids it never issued before. */
  predicate Fair(s: State, ch: Choice) {
    ch.login.Granted? ==> ch.login.sid != "" && ch.login.sid !in s.issued
  }

  /** One atomic step of one call. */
  function Step(s: State, ch: Choice): State {
    var c := ch.call;
    if c !in s.calls then
      s.(calls := s.calls[c := Asking(false)])
    else
      match s.calls[c]
      case Asking(retry) =>
        var sid := SessionOf(s.cached, ch.login);
        if sid == "" then
          s.(calls := s.calls[c := Done(Failed)])
        else if s.cached != "" then
          s.(calls := s.calls[c := Sending(sid, retry)])
        else
          State(sid, s.issued + {sid}, s.calls[c := Sending(sid, retry)], s.log + [LoggedIn(c, sid)])
      case Sending(sid, retry) =>
        if ch.reply.NoReply? then
          s.(calls := s.calls[c := Done(Failed)], log := s.log + [Sent(c, sid)])
        else if ch.reply.status != UNAUTHORIZED then
          s.(calls := s.calls[c := Done(Finished(ch.reply.status))], log := s.log + [Sent(c, sid)])
        else
          s.(calls := s.calls[c := if retry then Done(Finished(UNAUTHORIZED)) else Dropping(sid)],
             log := s.log + [Sent(c, sid), Rejected(c, sid)])
      case Dropping(sid) =>
        s.(cached := Invalidated(s.cached, sid),
           calls := s.calls[c := Asking(true)],
           log := if s.cached == sid then s.log + [Dropped(c, sid)] else s.log)
      case Done(_) => s
  }

  /** What a caller gets when its call ends: the status the server answered, a 401 only the second
      time; a failure where no session was to be had or no reply came; and nothing else. */
  lemma CallerGets(s: State, ch: Choice, outcome: Outcome)
    requires ch.call in s.calls && !s.calls[ch.call].Done?
    ensures Step(s, ch).calls[ch.call] == Done(outcome) <==>
      match s.calls[ch.call]
      case Asking(_) => outcome == Failed && s.cached == "" && (ch.login.Granted? ==> ch.login.sid == "")
      case Sending(_, retry) =>
        || (ch.reply == NoReply && outcome == Failed)
        || (exists status :: ch.reply == Answer(status) && outcome == Finished(status) && (status == 401 ==> retry))
      case Dropping(_) => false
      case Done(_) => true
  {
  }

  /** A run is any sequence of choices the server is fair in. */
  function Run(s: State, choices: seq<Choice>): State {
    if choices == [] then s
    else Step(Run(s, choices[..|choices| - 1]), choices[|choices| - 1])
  }

  predicate FairRun(s: State, choices: seq<Choice>) {
    choices != [] ==>
      FairRun(s, choices[..|choices| - 1]) && Fair(Run(s, choices[..|choices| - 1]), choices[|choices| - 1])
  }

  function Logins(log: seq<Event>): nat {
    if log == [] then 0 else Logins(log[..|log| - 1]) + if log[|log| - 1].LoggedIn? then 1 else 0
  }

  function Drops(log: seq<Event>): nat {
    if log == [] then 0 else Drops(log[..|log| - 1]) + if log[|log| - 1].Dropped? then 1 else 0
  }

  function Requests(log: seq<Event>, call: nat): nat {
    if log == [] then 0
    else Requests(log[..|log| - 1], call) + if log[|log| - 1].Sent? && log[|log| - 1].call == call then 1 else 0
  }

  lemma {:induction false} Counting(log: seq<Event>, more: seq<Event>, call: nat)
    ensures Logins(log + more) == Logins(log) + Logins(more)
    ensures Drops(log + more) == Drops(log) + Drops(more)
    ensures Requests(log + more, call) == Requests(log, call) + Requests(more, call)
  {
    if more == [] {
      assert log + more == log;
    } else {
      assert (log + more)[..|log + more| - 1] == log + more[..|more| - 1];
      Counting(log, more[..|more| - 1], call);
    }
  }

  lemma CountingAll(log: seq<Event>, more: seq<Event>)
    ensures Logins(log + more) == Logins(log) + Logins(more)
    ensures Drops(log + more) == Drops(log) + Drops(more)
    ensures forall c: nat :: Requests(log + more, c) == Requests(log, c) + Requests(more, c)
  {
    Counting(log, more, 0);
    forall c: nat ensures Requests(log + more, c) == Requests(log, c) + Requests(more, c) {
      Counting(log, more, c);
    }
  }

  lemma CountTwo(e: Event, f: Event)
    ensures Logins([e]) == (if e.LoggedIn? then 1 else 0) && Logins([e, f]) == Logins([e]) + Logins([f])
    ensures Drops([e]) == (if e.Dropped? then 1 else 0) && Drops([e, f]) == Drops([e]) + Drops([f])
    ensures forall c: nat :: Requests([e], c) == if e.Sent? && e.call == c then 1 else 0
    ensures forall c: nat :: Requests([e, f], c) == Requests([e], c) + Requests([f], c)
  {
    assert [e][..0] == [] && [f][..0] == [];
    assert [e, f][..1] == [e];
  }

  /** The call got a 401. */
  ghost predicate WasRejected(log: seq<Event>, call: nat) {
    exists k :: 0 <= k < |log| && log[k].Rejected? && log[k].call == call
  }

  /** How many requests a call has sent, by where it stands. */
  ghost predicate RequestsFit(log: seq<Event>, call: nat, pc: Pc) {
    match pc
    case Asking(retry) => Requests(log, call) == (if retry then 1 else 0) && (retry ==> WasRejected(log, call))
    case Sending(_, retry) => Requests(log, call) == (if retry then 1 else 0) && (retry ==> WasRejected(log, call))
    case Dropping(sid) => Requests(log, call) == 1 && Rejected(call, sid) in log
    case Done(_) => Requests(log, call) <= 2 && (Requests(log, call) == 2 ==> WasRejected(log, call))
  }

  lemma StaysRejected(log: seq<Event>, more: seq<Event>, call: nat)
    requires WasRejected(log, call)
    ensures WasRejected(log + more, call)
  {
    var k :| 0 <= k < |log| && log[k].Rejected? && log[k].call == call;
    assert (log + more)[k] == log[k];
  }

  /** Some event at an earlier position. */
  ghost predicate Before(log: seq<Event>, i: nat, e: Event)
    requires i <= |log|
  {
    e in log[..i]
  }

  /** A call in flight carries an issued sid. */
  predicate SidFits(issued: set<Sid>, pc: Pc) {
    && (pc.Sending? ==> pc.sid != "" && pc.sid in issued)
    && (pc.Dropping? ==> pc.sid != "")
  }

  /** Every call's sid and request count fit where it stands. */
  ghost predicate CallsSound(s: State) {
    && (forall c :: c in s.calls ==> SidFits(s.issued, s.calls[c]) && RequestsFit(s.log, c, s.calls[c]))
    && (forall c: nat :: c !in s.calls ==> Requests(s.log, c) == 0)
  }

  /** What holds between any two steps, however the calls interleave. */
  ghost predicate Inv(s: State) {
    && Logins(s.log) == Drops(s.log) + (if s.cached != "" then 1 else 0)
    && (s.cached != "" ==> s.cached in s.issued)
    && CallsSound(s)
    && DropsSound(s)
  }

  /** Each sid is dropped at most once, is gone from the cache afterwards, and is dropped
      by a call that was itself rejected on it before. */
  ghost predicate DropsSound(s: State) {
    && (forall i :: 0 <= i < |s.log| && s.log[i].Dropped? ==>
          s.log[i].sid in s.issued && s.log[i].sid != s.cached && s.log[i].sid != ""
          && Before(s.log, i, Rejected(s.log[i].call, s.log[i].sid)))
    && (forall i, j :: 0 <= i < j < |s.log| && s.log[i].Dropped? && s.log[j].Dropped? ==> s.log[i].sid != s.log[j].sid)
  }

  lemma BeforeGrows(log: seq<Event>, more: seq<Event>, i: nat, e: Event)
    requires i <= |log| && Before(log, i, e)
    ensures Before(log + more, i, e)
  {
    assert (log + more)[..i] == log[..i];
  }

  /** Logging events that drop nothing keeps the drops sound, when the cached sid stays or
      is replaced by a newly issued one. */
  lemma DropsSoundQuiet(s: State, s': State, more: seq<Event>)
    requires DropsSound(s) && s'.log == s.log + more && s.issued <= s'.issued
    requires forall k :: 0 <= k < |more| ==> !more[k].Dropped?
    requires s'.cached == s.cached || s'.cached !in s.issued
    ensures DropsSound(s')
  {
    forall i | 0 <= i < |s'.log| && s'.log[i].Dropped?
      ensures i < |s.log| && s'.log[i] == s.log[i]
      ensures Before(s'.log, i, Rejected(s'.log[i].call, s'.log[i].sid))
    {
      if i < |s.log| {
        BeforeGrows(s.log, more, i, Rejected(s.log[i].call, s.log[i].sid));
      }
    }
  }

  lemma DropsSoundDrop(s: State, s': State, c: nat, sid: Sid)
    requires DropsSound(s) && s.cached == sid != "" && sid in s.issued && s'.issued == s.issued
    requires Rejected(c, sid) in s.log
    requires s'.log == s.log + [Dropped(c, sid)] && s'.cached == ""
    ensures DropsSound(s')
  {
    forall i | 0 <= i < |s'.log| && s'.log[i].Dropped?
      ensures Before(s'.log, i, Rejected(s'.log[i].call, s'.log[i].sid))
    {
      if i < |s.log| {
        BeforeGrows(s.log, [Dropped(c, sid)], i, Rejected(s.log[i].call, s.log[i].sid));
      } else {
        assert s'.log[..i] == s.log;
      }
    }
  }

  /** A step of call `c` that logs only its own events leaves every other call's count alone. */
  lemma OnlyOneMoves(s: State, s': State, c: nat, pc: Pc, more: seq<Event>)
    requires CallsSound(s) && s'.log == s.log + more && s.issued <= s'.issued
    requires s'.calls == s.calls[c := pc] && SidFits(s'.issued, pc) && RequestsFit(s'.log, c, pc)
    requires forall d: nat :: d != c ==> Requests(more, d) == 0
    ensures CallsSound(s')
  {
    CountingAll(s.log, more);
    forall d | d in s'.calls && d != c ensures RequestsFit(s'.log, d, s'.calls[d]) {
      assert RequestsFit(s.log, d, s.calls[d]);
      if WasRejected(s.log, d) { StaysRejected(s.log, more, d); }
    }
  }

  lemma CallFits(s: State, c: nat)
    requires CallsSound(s) && c in s.calls
    ensures SidFits(s.issued, s.calls[c]) && RequestsFit(s.log, c, s.calls[c])
  {
  }

  lemma LoginKeepsInv(s: State, ch: Choice)
    requires Inv(s) && Fair(s, ch) && ch.call in s.calls && s.calls[ch.call].Asking?
    requires s.cached == "" && ch.login.Granted?
    ensures Inv(Step(s, ch))
  {
    hide DropsSound, CallsSound;
    var s', c, more := Step(s, ch), ch.call, [LoggedIn(ch.call, ch.login.sid)];
    CallFits(s, c);
    CountTwo(more[0], more[0]);
    CountingAll(s.log, more);
    DropsSoundQuiet(s, s', more);
    if WasRejected(s.log, c) { StaysRejected(s.log, more, c); }
    OnlyOneMoves(s, s', c, s'.calls[c], more);
  }

  lemma AskKeepsInv(s: State, ch: Choice)
    requires Inv(s) && Fair(s, ch) && ch.call in s.calls && s.calls[ch.call].Asking?
    ensures Inv(Step(s, ch))
  {
    hide DropsSound, CallsSound;
    if s.cached == "" && ch.login.Granted? {
      LoginKeepsInv(s, ch);
    } else {
      var s', c := Step(s, ch), ch.call;
      var none: seq<Event> := [];
      CallFits(s, c);
      assert s'.log == s.log + none;
      DropsSoundQuiet(s, s', none);
      if WasRejected(s.log, c) { StaysRejected(s.log, none, c); }
      OnlyOneMoves(s, s', c, s'.calls[c], none);
    }
  }

  lemma AnsweredKeepsInv(s: State, ch: Choice)
    requires Inv(s) && ch.call in s.calls && s.calls[ch.call].Sending?
    requires ch.reply.NoReply? || ch.reply.status != UNAUTHORIZED
    ensures Inv(Step(s, ch))
  {
    hide DropsSound;
    var s', c := Step(s, ch), ch.call;
    assert RequestsFit(s.log, c, s.calls[c]);
    var more := [Sent(c, s.calls[c].sid)];
    CountTwo(more[0], more[0]);
    CountingAll(s.log, more);
    DropsSoundQuiet(s, s', more);
    if WasRejected(s.log, c) { StaysRejected(s.log, more, c); }
    OnlyOneMoves(s, s', c, s'.calls[c], more);
  }

  lemma RejectedKeepsInv(s: State, ch: Choice)
    requires Inv(s) && ch.call in s.calls && s.calls[ch.call].Sending?
    requires ch.reply == Answer(UNAUTHORIZED)
    ensures Inv(Step(s, ch))
  {
    hide DropsSound;
    var s', c := Step(s, ch), ch.call;
    assert RequestsFit(s.log, c, s.calls[c]);
    var e, f := Sent(c, s.calls[c].sid), Rejected(c, s.calls[c].sid);
    CountTwo(e, f);
    CountTwo(f, f);
    CountingAll(s.log, [e, f]);
    DropsSoundQuiet(s, s', [e, f]);
    assert s'.log[|s.log| + 1] == f;
    OnlyOneMoves(s, s', c, s'.calls[c], [e, f]);
  }

  lemma DropKeepsInv(s: State, ch: Choice)
    requires Inv(s) && Fair(s, ch) && ch.call in s.calls && s.calls[ch.call].Dropping?
    ensures Inv(Step(s, ch))
  {
    hide DropsSound;
    var s', c := Step(s, ch), ch.call;
    var sid := s.calls[c].sid;
    var more := if s.cached == sid then [Dropped(c, sid)] else [];
    assert s'.log == s.log + more;
    assert RequestsFit(s.log, c, s.calls[c]) && SidFits(s.issued, s.calls[c]);
    if s.cached == sid {
      CountTwo(more[0], more[0]);
      DropsSoundDrop(s, s', c, sid);
    } else {
      DropsSoundQuiet(s, s', more);
    }
    CountingAll(s.log, more);
    if WasRejected(s.log, c) { StaysRejected(s.log, more, c); }
    OnlyOneMoves(s, s', c, s'.calls[c], more);
  }

  lemma StepKeepsInv(s: State, ch: Choice)
    requires Inv(s) && Fair(s, ch)
    ensures Inv(Step(s, ch))
  {
    if ch.call in s.calls {
      match s.calls[ch.call]
      case Asking(_) => AskKeepsInv(s, ch);
      case Sending(_, _) =>
        if ch.reply == Answer(UNAUTHORIZED) {
          RejectedKeepsInv(s, ch);
        } else {
          AnsweredKeepsInv(s, ch);
        }
      case Dropping(_) => DropKeepsInv(s, ch);
      case Done(_) =>
    } else {
      assert Step(s, ch).log == s.log + [];
      OnlyOneMoves(s, Step(s, ch), ch.call, Asking(false), []);
    }
  }

  lemma {:induction false} RunKeepsInv(s: State, choices: seq<Choice>)
    requires Inv(s) && FairRun(s, choices)
    ensures Inv(Run(s, choices))
  {
    if choices != [] {
      RunKeepsInv(s, choices[..|choices| - 1]);
      StepKeepsInv(Run(s, choices[..|choices| - 1]), choices[|choices| - 1]);
    }
  }

  /** For every interleaving of any number of `Do` calls: successful logins equal sessions
      dropped, plus one exactly when a session is cached. */
  lemma NoLoginStampede(choices: seq<Choice>)
    requires FairRun(Start, choices)
    ensures var s := Run(Start, choices);
            Logins(s.log) == Drops(s.log) + if s.cached != "" then 1 else 0
  {
    RunKeepsInv(Start, choices);
  }

  /** Each sid is dropped at most once, and only by a call that got a 401 on that same sid. */
  lemma DroppedOnceByItsVictim(choices: seq<Choice>, i: nat)
    requires FairRun(Start, choices)
    requires i < |Run(Start, choices).log| && Run(Start, choices).log[i].Dropped?
    ensures var log := Run(Start, choices).log;
            && (exists k :: 0 <= k < i && log[k] == Rejected(log[i].call, log[i].sid))
            && (forall j :: 0 <= j < |log| && j != i && log[j].Dropped? ==> log[j].sid != log[i].sid)
  {
    RunKeepsInv(Start, choices);
  }

  /** Each call sends its request at most twice, and twice only after a 401 on the first. */
  lemma AtMostTwoRequests(choices: seq<Choice>, call: nat)
    requires FairRun(Start, choices)
    ensures var log := Run(Start, choices).log;
            Requests(log, call) <= 2 && (Requests(log, call) == 2 ==> WasRejected(log, call))
  {
    RunKeepsInv(Start, choices);
    var s := Run(Start, choices);
    assert call in s.calls ==> RequestsFit(s.log, call, s.calls[call]);
  }

  // ----- the channel object -----

  class OSDoer {
    var sid: Sid

    constructor ()
      ensures sid == Start.cached
    {
      sid := "";
    }

    /** Returns "" when no session could be obtained. */
    method Session(login: Login) returns (r: Sid)
      requires login.Granted? ==> login.sid != ""
      modifies this
      ensures r == SessionOf(old(sid), login) && sid == r
    {
      if sid != "" {
        return sid;
      }
      match login
      case NoAnswer => return "";
      case Denied(_) => return "";
      case Granted(s) => sid := s; return sid;
    }

    method Invalidate(s: Sid)
      modifies this
      ensures sid == Invalidated(old(sid), s)
    {
      if sid == s {
        sid := "";
      }
    }

    /** A call that nobody interrupts does exactly what its six steps do in the
        interleaved model: the same cached sid, the same outcome. */
    method Do(login1: Login, reply1: Reply, login2: Login, reply2: Reply) returns (r: Outcome)
      requires login1.Granted? ==> login1.sid != ""
      requires login2.Granted? ==> login2.sid != ""
      modifies this
      ensures var s := Run(State(old(sid), {}, map[], []), Uninterrupted(login1, reply1, login2, reply2));
              0 in s.calls && s.calls[0] == Done(r) && s.cached == sid
    {
      hide Run, Step;
      AloneIsSixSteps(sid, login1, reply1, login2, reply2);
      var s := Session(login1);
      if s == "" {
        return Failed;
      }
      match reply1 {
        case NoReply => return Failed;
        case Answer(status) =>
          if status != UNAUTHORIZED {
            return Finished(status);
          }
      }
      Invalidate(s);
      s := Session(login2);
      if s == "" {
        return Failed;
      }
      match reply2 {
        case NoReply => return Failed;
        case Answer(status) => return Finished(status);
      }
    }
  }

  function Ending(reply: Reply): Outcome {
    match reply case NoReply => Failed case Answer(status) => Finished(status)
  }

  /** What one call that runs alone comes to, and the sid it leaves cached. */
  function Alone(cached: Sid, login1: Login, reply1: Reply, login2: Login, reply2: Reply): (Outcome, Sid) {
    var first := SessionOf(cached, login1);
    if first == "" then (Failed, first)
    else if reply1 != Answer(UNAUTHORIZED) then (Ending(reply1), first)
    else
      var second := SessionOf(Invalidated(first, first), login2);
      if second == "" then (Failed, second) else (Ending(reply2), second)
  }

  ghost predicate SixStepsAgree(cached: Sid, login1: Login, reply1: Reply, login2: Login, reply2: Reply) {
    var s, alone := Run(State(cached, {}, map[], []), Uninterrupted(login1, reply1, login2, reply2)), Alone(cached, login1, reply1, login2, reply2);
    0 in s.calls && s.calls[0] == Done(alone.0) && s.cached == alone.1
  }

  lemma AloneIsSixSteps(cached: Sid, login1: Login, reply1: Reply, login2: Login, reply2: Reply)
    requires login1.Granted? ==> login1.sid != ""
    requires login2.Granted? ==> login2.sid != ""
    ensures SixStepsAgree(cached, login1, reply1, login2, reply2)
  {
    hide Run, Step, SixStepsAgree;
    if SessionOf(cached, login1) == "" || reply1 != Answer(UNAUTHORIZED) {
      EndsAtOnce(cached, login1, reply1, login2, reply2);
    } else {
      Retries(cached, login1, login2, reply2);
    }
  }

  lemma EndsAtOnce(cached: Sid, login1: Login, reply1: Reply, login2: Login, reply2: Reply)
    requires login1.Granted? ==> login1.sid != ""
    requires SessionOf(cached, login1) == "" || reply1 != Answer(UNAUTHORIZED)
    ensures SixStepsAgree(cached, login1, reply1, login2, reply2)
  {
    hide Run;
    RunSix(State(cached, {}, map[], []), Uninterrupted(login1, reply1, login2, reply2));
  }

  lemma Retries(cached: Sid, login1: Login, login2: Login, reply2: Reply)
    requires login1.Granted? ==> login1.sid != ""
    requires login2.Granted? ==> login2.sid != ""
    requires SessionOf(cached, login1) != ""
    ensures SixStepsAgree(cached, login1, Answer(UNAUTHORIZED), login2, reply2)
  {
    hide Run;
    RunSix(State(cached, {}, map[], []), Uninterrupted(login1, Answer(UNAUTHORIZED), login2, reply2));
  }

  /** The six steps one call takes when it runs alone. */
  function Uninterrupted(login1: Login, reply1: Reply, login2: Login, reply2: Reply): seq<Choice> {
    [Choice(0, NoAnswer, NoReply), Choice(0, login1, NoReply), Choice(0, NoAnswer, reply1),
     Choice(0, NoAnswer, NoReply), Choice(0, login2, NoReply), Choice(0, NoAnswer, reply2)]
  }

  lemma RunSix(s: State, ch: seq<Choice>)
    requires |ch| == 6
    ensures Run(s, ch) == Step(Step(Step(Step(Step(Step(s, ch[0]), ch[1]), ch[2]), ch[3]), ch[4]), ch[5])
  {
    assert ch[..5][..4] == ch[..4] && ch[..4][..3] == ch[..3] && ch[..3][..2] == ch[..2] && ch[..2][..1] == ch[..1];
    assert Run(s, ch[..0]) == s && ch[..1][..0] == ch[..0];
    assert Run(s, ch[..1]) == Step(s, ch[0]);
    assert Run(s, ch[..2]) == Step(Run(s, ch[..1]), ch[1]);
    assert Run(s, ch[..3]) == Step(Run(s, ch[..2]), ch[2]);
    assert Run(s, ch[..4]) == Step(Run(s, ch[..3]), ch[3]);
    assert Run(s, ch[..5]) == Step(Run(s, ch[..4]), ch[4]);
  }
}
