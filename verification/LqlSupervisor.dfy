// The supervisor of the external LQL compiler (lql_adapter.go): one child
// process, one request at a time over its pipes, response ids never compared.
module LqlSupervisor {
  import opened ByteStrings
  import Strings

  // ---------- restart backoff ----------

  const MILLISECOND := 1_000_000
  const FIRST_DELAY := 100 * MILLISECOND
  const MAX_DELAY := 5_000 * MILLISECOND

  function Pow2(n: nat): nat {
    if n == 0 then 1 else 2 * Pow2(n - 1)
  }

  function Backoff(failures: nat): nat {
    var doubled := FIRST_DELAY * Pow2(if failures <= 1 then 0 else failures - 1);
    if doubled < MAX_DELAY then doubled else MAX_DELAY
  }

  lemma {:induction false} Pow2Grows(m: nat, n: nat)
    requires m <= n
    ensures Pow2(m) <= Pow2(n)
  {
    if m < n { Pow2Grows(m, n - 1); }
  }

  // Never shorter after more failures; no step on the way reaches ten seconds.
  lemma BackoffMonotone(m: nat, n: nat)
    requires m <= n
    ensures FIRST_DELAY <= Backoff(m) <= Backoff(n) <= MAX_DELAY
  {
    var i, j := if m <= 1 then 0 else m - 1, if n <= 1 then 0 else n - 1;
    Pow2Grows(0, i);
    Pow2Grows(i, j);
    assert Pow2(0) == 1;
  }

  // The delay after each number of failures, in milliseconds.
  lemma BackoffTable(failures: nat)
    ensures Backoff(failures) == MILLISECOND *
      (if failures <= 1 then 100 else if failures == 2 then 200 else if failures == 3 then 400
       else if failures == 4 then 800 else if failures == 5 then 1600 else if failures == 6 then 3200 else 5000)
  {
    assert Pow2(1) == 2 && Pow2(2) == 4 && Pow2(3) == 8 && Pow2(4) == 16 && Pow2(5) == 32 && Pow2(6) == 64;
    if failures > 6 { Pow2Grows(6, failures - 1); }
  }

  method LqlRestartBackoff(failures: nat) returns (delay: nat)
    ensures delay == Backoff(failures)
  {
    delay := FIRST_DELAY;
    var attempt := 1;
    while attempt < failures && delay < MAX_DELAY
      invariant 1 <= attempt && (attempt <= failures || attempt == 1)
      invariant delay == FIRST_DELAY * Pow2(attempt - 1)
      invariant delay < 2 * MAX_DELAY
    {
      delay := delay * 2;
      attempt := attempt + 1;
    }
    if failures > attempt { Pow2Grows(attempt - 1, failures - 1); }
    if delay > MAX_DELAY {
      return MAX_DELAY;
    }
  }

  // ---------- the child process ----------

  // A decoded reply line; `result` is what json.Unmarshal makes of its result.
  datatype Body = Body(error: Option<RpcError>, result: Option<Result>)

  datatype RpcError = RpcError(diagnostics: seq<string>, message: string)

  datatype Result = Result(version: Version, plan: string)

  datatype Version = Version(protocol: int, compiler: string, language: string)
  {
    // The expected compiler may be left open.
    predicate Matches(expected: Version) {
      protocol == expected.protocol && (expected.compiler == "" || compiler == expected.compiler) && language == expected.language
    }
  }

  // unread: requests the child received and whose reply line nobody has read.
  // accepted: what its handshake said, once that has been checked.
  datatype Child = Child(process: nat, unread: seq<nat>, accepted: Option<Version>)

  datatype Method = Handshake | CompileQuery

  // How one request goes. The child answers each line with one line, in order.
  datatype Io = MarshalFails | WriteFails | TimedOut | ReadFails | BadReply | Reply(body: Body)

  datatype StartIo = SpawnFails | Spawned(handshake: Io)

  datatype Sent = Sent(id: nat, rpc: Method, process: nat, accepted: Option<Version>)

  datatype Decoded = Decoded(request: nat, answers: nat)

  datatype Start = Start(begin: int, failedAt: Option<int>)

  // sent, decoded and starts are the history of the run.
  datatype Supervisor = Supervisor(
    child: Option<Child>,
    nextId: nat,
    processes: nat,
    failures: nat,
    notBefore: Option<int>,
    sent: seq<Sent>,
    decoded: seq<Decoded>,
    starts: seq<Start>)

  const INITIAL := Supervisor(None, 0, 0, 0, None, [], [], [])

  function Kill(s: Supervisor): Supervisor {
    s.(child := None)
  }

  // requestLocked: the id is used up and compared with nothing.
  function Request(s: Supervisor, rpc: Method, io: Io): (Supervisor, Option<Body>)
    requires s.child.Some?
  {
    var id := s.nextId + 1;
    var c := s.child.value;
    if io in {MarshalFails, WriteFails} then (s.(nextId := id), None)
    else
      var unread := c.unread + [id];
      var t := s.(nextId := id, child := Some(c.(unread := unread)), sent := s.sent + [Sent(id, rpc, c.process, c.accepted)]);
      match io
      case BadReply => (t.(child := Some(c.(unread := unread[1..]))), None)
      case Reply(body) =>
        (t.(child := Some(c.(unread := unread[1..])), decoded := s.decoded + [Decoded(id, unread[0])]), Some(body))
      case _ => (t, None)
  }

  function StartChild(expected: Version, s: Supervisor, io: StartIo): (Supervisor, bool) {
    match io
    case SpawnFails => (s, false)
    case Spawned(handshake) =>
      var spawned := s.(child := Some(Child(s.processes, [], None)), processes := s.processes + 1);
      var (t, reply) := Request(spawned, Handshake, handshake);
      match reply
      case None => (Kill(t), false)
      case Some(body) =>
        if body.result.None? || !body.result.value.version.Matches(expected) then (Kill(t), false)
        else (t.(child := Some(t.child.value.(accepted := Some(body.result.value.version))), failures := 0, notBefore := None), true)
  }

  // now: when the call looks at the clock; failedAt: when a failed start returns.
  function EnsureStarted(expected: Version, s: Supervisor, now: int, io: StartIo, failedAt: int): (Supervisor, bool) {
    if s.child.Some? then (s, true)
    else if s.notBefore.Some? && s.notBefore.value > now then (s, false)
    else
      var (t, ok) := StartChild(expected, s, io);
      if ok then (t.(starts := s.starts + [Start(now, None)]), true)
      else (t.(starts := s.starts + [Start(now, Some(failedAt))], failures := s.failures + 1,
               notBefore := Some(failedAt + Backoff(s.failures + 1))), false)
  }

  datatype Outcome = QueryEmpty | Unavailable | CompileError(diagnostics: seq<string>) | Plan(sql: string)

  datatype Call =
    | Compile(blank: bool, now: int, start: StartIo, failedAt: int, io: Io)
    | Close

  function GiveUp(s: Supervisor): Supervisor {
    Kill(s).(failures := 0, notBefore := None)
  }

  function Serve(expected: Version, s: Supervisor, call: Call): (Supervisor, Outcome) {
    match call
    case Close => (Kill(s), Unavailable)
    case Compile(blank, now, start, failedAt, io) =>
      if blank then (s, QueryEmpty)
      else
        var (t, ok) := EnsureStarted(expected, s, now, start, failedAt);
        if !ok || t.child.None? then (t, Unavailable)
        else
          var (u, reply) := Request(t, CompileQuery, io);
          match reply
          case None => (GiveUp(u), Unavailable)
          case Some(body) =>
            match body.error
            case Some(e) => (u, if e.diagnostics != [] then CompileError(e.diagnostics) else Unavailable)
            case None =>
              match body.result
              case None => (GiveUp(u), Unavailable)
              case Some(result) => (u, Plan(result.plan))
  }

  // newLQLStdioCompiler hands out a compiler only after a successful first start.
  function Run(expected: Version, first: StartIo, calls: seq<Call>): Option<Supervisor> {
    if calls == [] then
      var (s, ok) := StartChild(expected, INITIAL, first);
      if ok then Some(s) else None
    else
      match Run(expected, first, calls[..|calls| - 1])
      case None => None
      case Some(s) => Some(Serve(expected, s, calls[|calls| - 1]).0)
  }

  // ---------- what every run keeps ----------

  // How many starts have failed in a row, up to the last one.
  function Streak(starts: seq<Start>): nat {
    if starts == [] || starts[|starts| - 1].failedAt.None? then 0 else 1 + Streak(starts[..|starts| - 1])
  }

  // The start after the k-th failure in a row waits for the k-th backoff.
  predicate Spaced(starts: seq<Start>) {
    forall i :: 0 <= i < |starts| - 1 ==> WaitsAfter(starts, i)
  }

  predicate WaitsAfter(starts: seq<Start>, i: nat)
    requires i < |starts| - 1
  {
    starts[i].failedAt.Some? ==> starts[i + 1].begin >= starts[i].failedAt.value + Backoff(Streak(starts[..i + 1]))
  }

  predicate Paired(decoded: seq<Decoded>) {
    forall d :: d in decoded ==> d.answers == d.request
  }

  predicate Gated(expected: Version, sent: seq<Sent>) {
    forall x :: x in sent && x.rpc == CompileQuery ==> x.accepted.Some? && x.accepted.value.Matches(expected)
  }

  // Between calls a running child owes no reply and has passed the version gate.
  predicate Settled(expected: Version, s: Supervisor) {
    s.child.Some? ==>
      && s.child.value.unread == []
      && s.child.value.accepted.Some? && s.child.value.accepted.value.Matches(expected)
      && s.failures == 0
  }

  predicate BackoffPending(s: Supervisor) {
    && s.failures == Streak(s.starts)
    && (s.failures > 0 ==>
          && s.starts[|s.starts| - 1].failedAt.Some?
          && s.notBefore == Some(s.starts[|s.starts| - 1].failedAt.value + Backoff(s.failures)))
  }

  predicate Inv(expected: Version, s: Supervisor) {
    Settled(expected, s) && Paired(s.decoded) && Gated(expected, s.sent) && Spaced(s.starts) && BackoffPending(s)
  }

  lemma RequestKeeps(expected: Version, s: Supervisor, rpc: Method, io: Io)
    requires s.child.Some? && s.child.value.unread == []
    requires Paired(s.decoded) && Gated(expected, s.sent)
    requires rpc == CompileQuery ==> Settled(expected, s)
    ensures var (t, reply) := Request(s, rpc, io);
      && Paired(t.decoded) && Gated(expected, t.sent)
      && t.child.Some? && t.child.value.accepted == s.child.value.accepted
      && (reply.Some? ==> t.child.value.unread == [] && t.decoded == s.decoded + [Decoded(s.nextId + 1, s.nextId + 1)])
      && t.starts == s.starts && t.failures == s.failures && t.notBefore == s.notBefore
  {
  }

  lemma StartKeeps(expected: Version, s: Supervisor, io: StartIo)
    requires s.child.None? && Inv(expected, s)
    ensures var (t, ok) := StartChild(expected, s, io);
      && Settled(expected, t) && Paired(t.decoded) && Gated(expected, t.sent) && t.starts == s.starts
      && (ok <==> t.child.Some?) && (ok ==> t.failures == 0 && t.notBefore == None)
      && (!ok ==> t.failures == s.failures)
  {
    if io.Spawned? {
      var spawned := s.(child := Some(Child(s.processes, [], None)), processes := s.processes + 1);
      RequestKeeps(expected, spawned, Handshake, io.handshake);
    }
  }

  lemma LongerStreak(starts: seq<Start>, next: Start)
    ensures Streak(starts + [next]) == if next.failedAt.None? then 0 else 1 + Streak(starts)
  {
    assert (starts + [next])[..|starts|] == starts;
  }

  lemma AnotherStart(starts: seq<Start>, next: Start)
    requires Spaced(starts)
    requires starts != [] && starts[|starts| - 1].failedAt.Some? ==>
      next.begin >= starts[|starts| - 1].failedAt.value + Backoff(Streak(starts))
    ensures Spaced(starts + [next])
  {
    hide Backoff, Streak;
    var all := starts + [next];
    forall i | 0 <= i < |all| - 1 ensures WaitsAfter(all, i) {
      assert all[..i + 1] == starts[..i + 1];
      if i < |starts| - 1 {
        assert WaitsAfter(starts, i);
      } else {
        assert starts[..i + 1] == starts;
      }
    }
  }

  lemma Recorded(expected: Version, s: Supervisor, t: Supervisor, next: Start)
    requires Inv(expected, s) && s.child.None? && (s.notBefore.Some? ==> s.notBefore.value <= next.begin)
    requires Settled(expected, t) && Paired(t.decoded) && Gated(expected, t.sent) && t.starts == s.starts + [next]
    requires if next.failedAt.None? then t.failures == 0
             else t.failures == s.failures + 1 && t.notBefore == Some(next.failedAt.value + Backoff(t.failures))
    ensures Inv(expected, t)
  {
    assert s.starts != [] && s.starts[|s.starts| - 1].failedAt.Some? ==> Streak(s.starts) > 0;
    hide Streak, Spaced, Backoff, Paired, Gated, Version.Matches;
    LongerStreak(s.starts, next);
    AnotherStart(s.starts, next);
  }

  lemma EnsureStartedKeeps(expected: Version, s: Supervisor, now: int, io: StartIo, failedAt: int)
    requires Inv(expected, s)
    ensures var (t, ok) := EnsureStarted(expected, s, now, io, failedAt);
      Inv(expected, t) && (ok ==> t.child.Some?)
  {
    if s.child.None? && !(s.notBefore.Some? && s.notBefore.value > now) {
      hide StartChild, Inv, Streak, Spaced, Backoff, Paired, Gated, Version.Matches;
      StartKeeps(expected, s, io);
      var (t, ok) := EnsureStarted(expected, s, now, io, failedAt);
      Recorded(expected, s, t, Start(now, if ok then None else Some(failedAt)));
    }
  }

  lemma ServeKeeps(expected: Version, s: Supervisor, call: Call)
    requires Inv(expected, s)
    ensures Inv(expected, Serve(expected, s, call).0)
  {
    if call.Compile? && !call.blank {
      hide EnsureStarted, Spaced, Backoff, Paired, Gated;
      EnsureStartedKeeps(expected, s, call.now, call.start, call.failedAt);
      var (t, ok) := EnsureStarted(expected, s, call.now, call.start, call.failedAt);
      if ok { RequestKeeps(expected, t, CompileQuery, call.io); }
    }
  }

  lemma {:induction false} RunKeeps(expected: Version, first: StartIo, calls: seq<Call>)
    requires Run(expected, first, calls).Some?
    ensures Inv(expected, Run(expected, first, calls).value)
  {
    if calls == [] {
      StartKeeps(expected, INITIAL, first);
    } else {
      var n := |calls| - 1;
      RunKeeps(expected, first, calls[..n]);
      ServeKeeps(expected, Run(expected, first, calls[..n]).value, calls[n]);
    }
  }

  // Over every run of compiles, failures, kills and restarts, each decoded
  // reply answers the request just written, although ids are never compared.
  lemma RepliesMatchRequests(expected: Version, first: StartIo, calls: seq<Call>)
    requires Run(expected, first, calls).Some?
    ensures forall d :: d in Run(expected, first, calls).value.decoded ==> d.answers == d.request
  {
    RunKeeps(expected, first, calls);
  }

  // The kill is what pairs them: had a timed-out request left its process
  // running, the next reply read would be the one it did not wait for.
  lemma KillIsNeeded(s: Supervisor, rpc: Method, body: Body)
    requires s.child.Some? && s.child.value.unread == []
    ensures var left := Request(s, rpc, TimedOut).0;
      && left.child.Some?
      && var (t, reply) := Request(left, rpc, Reply(body));
         reply == Some(body) && t.decoded == s.decoded + [Decoded(s.nextId + 2, s.nextId + 1)]
  {
    assert ([s.nextId + 1] + [s.nextId + 2])[0] == s.nextId + 1;
  }

  // Every compile request went to a process whose handshake matched.
  lemma CompilesAreGated(expected: Version, first: StartIo, calls: seq<Call>)
    requires Run(expected, first, calls).Some?
    ensures forall x :: x in Run(expected, first, calls).value.sent && x.rpc == CompileQuery ==>
      && x.accepted.Some?
      && var v := x.accepted.value;
         v.protocol == expected.protocol && v.language == expected.language && (expected.compiler != "" ==> v.compiler == expected.compiler)
  {
    RunKeeps(expected, first, calls);
  }

  // ---------- what one call answers ----------

  // With a running child: an empty query is refused untouched; an error reply
  // is the caller's and leaves the child running; a result is the plan; and
  // anything else kills the child, with no backoff before the next start.
  lemma AnswerWhenRunning(expected: Version, s: Supervisor, call: Call)
    requires call.Compile? && s.child.Some?
    ensures var (t, outcome) := Serve(expected, s, call);
      if call.blank then t == s && outcome == QueryEmpty
      else if call.io.Reply? && call.io.body.error.Some? then
        && outcome == (if call.io.body.error.value.diagnostics == [] then Unavailable else CompileError(call.io.body.error.value.diagnostics))
        && t.child.Some? && t.child.value.process == s.child.value.process && t.failures == s.failures && t.notBefore == s.notBefore
      else if call.io.Reply? && call.io.body.result.Some? then
        outcome == Plan(call.io.body.result.value.plan) && t.child.Some? && t.child.value.process == s.child.value.process
      else outcome == Unavailable && t.child.None? && t.failures == 0 && t.notBefore == None
  {
  }

  // Closing stops the child and changes nothing else.
  lemma CloseStops(expected: Version, s: Supervisor)
    ensures Serve(expected, s, Close).0 == s.(child := None)
  {
  }

  // The handshake lets a child through.
  predicate Accepts(expected: Version, io: StartIo) {
    && io.Spawned? && io.handshake.Reply? && io.handshake.body.result.Some?
    && var v := io.handshake.body.result.value.version;
       v.protocol == expected.protocol && v.language == expected.language && (expected.compiler == "" || v.compiler == expected.compiler)
  }

  // Without a child: no start inside the backoff; otherwise exactly one, which
  // succeeds exactly if the handshake accepts, and is followed by the request.
  // A failed one counts and sets the next backoff.
  lemma AnswerWhenStopped(expected: Version, s: Supervisor, call: Call)
    requires call.Compile? && !call.blank && s.child.None?
    ensures var (t, outcome) := Serve(expected, s, call);
      if s.notBefore.Some? && call.now < s.notBefore.value then t == s && outcome == Unavailable
      else if !Accepts(expected, call.start) then
        && outcome == Unavailable && t.child.None? && t.failures == s.failures + 1
        && t.notBefore == Some(call.failedAt + Backoff(t.failures)) && t.starts == s.starts + [Start(call.now, Some(call.failedAt))]
      else
        && t.starts == s.starts + [Start(call.now, None)]
        && (outcome.Plan? <==> call.io.Reply? && call.io.body.error.None? && call.io.body.result.Some?)
        && (outcome.CompileError? <==> call.io.Reply? && call.io.body.error.Some? && call.io.body.error.value.diagnostics != [])
        && (t.child.Some? <==> call.io.Reply? && (call.io.body.error.Some? || call.io.body.result.Some?))
        && t.failures == 0 && t.notBefore == None
  {
    hide Backoff;
  }

  // After the k-th consecutive failed start the next attempt begins no earlier
  // than the k-th backoff later.
  lemma RestartsAreSpaced(expected: Version, first: StartIo, calls: seq<Call>, i: nat)
    requires Run(expected, first, calls).Some?
    requires var starts := Run(expected, first, calls).value.starts; i + 1 < |starts| && starts[i].failedAt.Some?
    ensures var starts := Run(expected, first, calls).value.starts;
      starts[i + 1].begin >= starts[i].failedAt.value + Backoff(Streak(starts[..i + 1]))
  {
    hide Run, Streak, Backoff;
    RunKeeps(expected, first, calls);
    assert WaitsAfter(Run(expected, first, calls).value.starts, i);
  }

  // A plan that reaches the caller is the body of the reply to its own request.
  lemma PlanAnswersTheCall(expected: Version, first: StartIo, calls: seq<Call>, call: Call)
    requires Run(expected, first, calls).Some?
    requires var s := Run(expected, first, calls).value; Serve(expected, s, call).1.Plan?
    ensures var s := Run(expected, first, calls).value;
      var t := Serve(expected, s, call).0;
      && t.decoded != [] && t.decoded[|t.decoded| - 1] == Decoded(t.nextId, t.nextId)
      && call.io.Reply? && call.io.body.result.Some? && Serve(expected, s, call).1.sql == call.io.body.result.value.plan
  {
    hide Run;
    RunKeeps(expected, first, calls);
    var s := Run(expected, first, calls).value;
    EnsureStartedKeeps(expected, s, call.now, call.start, call.failedAt);
  }

  // ---------- the object ----------

  class LqlStdioCompiler {
    const expected: Version
    var child: Option<Child>
    var nextId: nat
    var processes: nat
    var restartFailures: nat
    var restartNotBefore: Option<int>
    ghost var sent: seq<Sent>
    ghost var decoded: seq<Decoded>
    ghost var starts: seq<Start>

    ghost function Contents(): Supervisor
      reads this
    {
      Supervisor(child, nextId, processes, restartFailures, restartNotBefore, sent, decoded, starts)
    }

    // An expected protocol or language left at its zero value takes the default.
    constructor (protocol: int, compiler: string, language: string)
      ensures Contents() == INITIAL
      ensures expected == Version(if protocol == 0 then 1 else protocol, compiler, if language == "" then "0.1" else language)
    {
      expected := Version(if protocol == 0 then 1 else protocol, compiler, if language == "" then "0.1" else language);
      child, nextId, processes := None, 0, 0;
      restartFailures, restartNotBefore := 0, None;
      sent, decoded, starts := [], [], [];
    }

    method KillLocked()
      modifies this
      ensures Contents() == Kill(old(Contents()))
    {
      child := None;
    }

    method RequestLocked(rpc: Method, io: Io) returns (reply: Option<Body>)
      requires child.Some?
      modifies this
      ensures (Contents(), reply) == Request(old(Contents()), rpc, io)
    {
      nextId := nextId + 1;
      if io == MarshalFails || io == WriteFails {
        return None;
      }
      var c := child.value;
      child := Some(c.(unread := c.unread + [nextId]));
      sent := sent + [Sent(nextId, rpc, c.process, c.accepted)];
      match io
      case BadReply =>
        child := Some(child.value.(unread := child.value.unread[1..]));
        return None;
      case Reply(body) =>
        decoded := decoded + [Decoded(nextId, child.value.unread[0])];
        child := Some(child.value.(unread := child.value.unread[1..]));
        return Some(body);
      case _ =>
        return None;
    }

    method StartLocked(io: StartIo) returns (ok: bool)
      modifies this
      ensures (Contents(), ok) == StartChild(expected, old(Contents()), io)
    {
      if io.SpawnFails? {
        return false;
      }
      child := Some(Child(processes, [], None));
      processes := processes + 1;
      var response := RequestLocked(Handshake, io.handshake);
      if response.None? {
        KillLocked();
        return false;
      }
      var result := response.value.result;
      if result.None? {
        KillLocked();
        return false;
      }
      if !result.value.version.Matches(expected) {
        KillLocked();
        return false;
      }
      child := Some(child.value.(accepted := Some(result.value.version)));
      restartFailures := 0;
      restartNotBefore := None;
      ok := true;
    }

    method EnsureStartedLocked(now: int, io: StartIo, failedAt: int) returns (ok: bool)
      modifies this
      ensures (Contents(), ok) == EnsureStarted(expected, old(Contents()), now, io, failedAt)
      ensures ok ==> child.Some?
    {
      if child.Some? {
        return true;
      }
      if restartNotBefore.Some? && restartNotBefore.value > now {
        return false;
      }
      ok := StartLocked(io);
      if !ok {
        restartFailures := restartFailures + 1;
        var delay := LqlRestartBackoff(restartFailures);
        restartNotBefore := Some(failedAt + delay);
        starts := starts + [Start(now, Some(failedAt))];
        return false;
      }
      starts := starts + [Start(now, None)];
    }

    method CompileQueryText(blank: bool, now: int, start: StartIo, failedAt: int, io: Io) returns (outcome: Outcome)
      modifies this
      ensures (Contents(), outcome) == Serve(expected, old(Contents()), Compile(blank, now, start, failedAt, io))
    {
      hide Backoff;
      if blank {
        return QueryEmpty;
      }
      var ok := EnsureStartedLocked(now, start, failedAt);
      if !ok {
        return Unavailable;
      }
      var response := RequestLocked(CompileQuery, io);
      if response.None? {
        KillLocked();
        restartFailures, restartNotBefore := 0, None;
        return Unavailable;
      }
      match response.value.error
      case Some(e) =>
        if e.diagnostics != [] {
          return CompileError(e.diagnostics);
        }
        return Unavailable;
      case None =>
        if response.value.result.None? {
          KillLocked();
          restartFailures, restartNotBefore := 0, None;
          return Unavailable;
        }
        return Plan(response.value.result.value.plan);
    }

    method CloseCompiler()
      modifies this
      ensures Contents() == Serve(expected, old(Contents()), Close).0
    {
      KillLocked();
    }
  }

  // newLQLStdioCompiler: the first start must succeed. An expected protocol or
  // language left at its zero value takes the default.
  method NewLqlStdioCompiler(binary: string, maxConcurrent: int, protocol: int, compiler: string, language: string, first: StartIo)
    returns (c: Option<LqlStdioCompiler>)
    ensures var expected := Version(if protocol == 0 then 1 else protocol, compiler, if language == "" then "0.1" else language);
      && (c.Some? <==> !Strings.Blank(binary) && maxConcurrent <= 1 && Run(expected, first, []).Some?)
      && (c.Some? ==> fresh(c.value) && c.value.expected == expected && Some(c.value.Contents()) == Run(expected, first, []))
  {
    hide Strings.Blank;
    if Strings.Blank(binary) || maxConcurrent > 1 {
      return None;
    }
    var made := new LqlStdioCompiler(protocol, compiler, language);
    var ok := made.StartLocked(first);
    c := if ok then Some(made) else None;
  }
}
