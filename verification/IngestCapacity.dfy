// The in-flight counters of pipeline_runtime.go at the grain of their atomic
// operations: any number of requests, each checking three limits, adding itself
// to two counters and taking itself off again when its handler returns.
module IngestCapacity {
  import opened ByteStrings

  datatype Limits = Limits(limiterOn: bool, maxRequests: int, maxEvents: int, maxQueueBytes: int)

  // Which operation a request does next.
  datatype Phase =
    | CheckRequests
    | CheckEvents
    | CheckBytes
    | AddRequest
    | AddEvents
    | TakeRequest
    | TakeEvents
    | Gone

  datatype Request = Request(events: nat, bytes: nat, phase: Phase)

  datatype State = State(inflightRequests: int, inflightEvents: int, requests: seq<Request>)

  const INITIAL := State(0, 0, [])

  // queueBytes is what the third check reads; the delivery queue moves it.
  datatype Event = Arrive(events: nat, bytes: nat) | Move(i: nat, queueBytes: int)

  predicate Enabled(s: State, e: Event) {
    e.Move? ==> e.i < |s.requests| && !s.requests[e.i].phase.Gone?
  }

  function Advance(lim: Limits, s: State, r: Request, queueBytes: int): (int, int, Phase) {
    var n, k := s.inflightRequests, s.inflightEvents;
    match r.phase
    case CheckRequests => (n, k, if 0 < lim.maxRequests <= n then Gone else CheckEvents)
    case CheckEvents => (n, k, if 0 < lim.maxEvents < k + r.events then Gone else CheckBytes)
    case CheckBytes => (n, k, if 0 < lim.maxQueueBytes < queueBytes + r.bytes then Gone else AddRequest)
    case AddRequest => (n + 1, k, AddEvents)
    case AddEvents => (n, k + r.events, TakeRequest)
    case TakeRequest => (n - 1, k, TakeEvents)
    case TakeEvents => (n, k - r.events, Gone)
    case Gone => (n, k, Gone)
  }

  // Without the limiter a request passes and its release does nothing.
  function Next(lim: Limits, s: State, e: Event): State
    requires Enabled(s, e)
  {
    match e
    case Arrive(events, bytes) =>
      s.(requests := s.requests + [Request(events, bytes, if lim.limiterOn then CheckRequests else Gone)])
    case Move(i, queueBytes) =>
      var (n, k, phase) := Advance(lim, s, s.requests[i], queueBytes);
      State(n, k, s.requests[i := s.requests[i].(phase := phase)])
  }

  function Run(lim: Limits, events: seq<Event>): Option<State> {
    if events == [] then Some(INITIAL)
    else
      match Run(lim, events[..|events| - 1])
      case None => None
      case Some(s) => if Enabled(s, events[|events| - 1]) then Some(Next(lim, s, events[|events| - 1])) else None
  }

  // ---------- what the checks decide ----------

  // A request that checks with nobody in between is let in exactly if it fits
  // every limit that is on; the counters are not touched by checking.
  lemma LetInIff(lim: Limits, s: State, i: nat, queueBytes: int)
    requires i < |s.requests| && s.requests[i].phase.CheckRequests?
    ensures var m, r := Move(i, queueBytes), s.requests[i];
      var fits := && (lim.maxRequests > 0 ==> s.inflightRequests + 1 <= lim.maxRequests)
                  && (lim.maxEvents > 0 ==> s.inflightEvents + r.events <= lim.maxEvents)
                  && (lim.maxQueueBytes > 0 ==> queueBytes + r.bytes <= lim.maxQueueBytes);
      var s1 := Next(lim, s, m);
      var s2 := if Enabled(s1, m) then Next(lim, s1, m) else s1;
      var s3 := if Enabled(s2, m) then Next(lim, s2, m) else s2;
      && s3.requests == s.requests[i := r.(phase := if fits then AddRequest else Gone)]
      && s3.inflightRequests == s.inflightRequests && s3.inflightEvents == s.inflightEvents
  {
    var m := Move(i, queueBytes);
    var s1 := Next(lim, s, m);
    assert s1.requests[i].phase in {CheckEvents, Gone};
    if Enabled(s1, m) {
      var s2 := Next(lim, s1, m);
      assert s2.requests[i].phase in {CheckBytes, Gone};
      if Enabled(s2, m) {
        assert Next(lim, s2, m).requests == s.requests[i := Next(lim, s2, m).requests[i]];
      } else {
        assert s2.requests == s.requests[i := s2.requests[i]];
      }
    }
  }

  // ---------- the counters are the totals over the holders ----------

  function RequestShare(r: Request): int {
    if r.phase.AddEvents? || r.phase.TakeRequest? then 1 else 0
  }

  function EventShare(r: Request): int {
    if r.phase.TakeRequest? || r.phase.TakeEvents? then r.events else 0
  }

  function Total(rs: seq<Request>, share: Request -> int): int {
    if rs == [] then 0 else Total(rs[..|rs| - 1], share) + share(rs[|rs| - 1])
  }

  lemma {:induction false} TotalUpdate(rs: seq<Request>, i: nat, r: Request, share: Request -> int)
    requires i < |rs|
    ensures Total(rs[i := r], share) == Total(rs, share) - share(rs[i]) + share(r)
  {
    var n := |rs| - 1;
    if i < n {
      TotalUpdate(rs[..n], i, r, share);
      assert rs[i := r][..n] == rs[..n][i := r];
    } else {
      assert rs[i := r][..n] == rs[..n];
    }
  }

  predicate Exact(s: State) {
    s.inflightRequests == Total(s.requests, RequestShare) && s.inflightEvents == Total(s.requests, EventShare)
  }

  lemma StepKeepsExact(lim: Limits, s: State, e: Event)
    requires Enabled(s, e) && Exact(s)
    ensures Exact(Next(lim, s, e))
  {
    hide Total;
    match e
    case Arrive(events, bytes) =>
      TotalOneMore(s.requests, Next(lim, s, e).requests[|s.requests|], RequestShare);
      TotalOneMore(s.requests, Next(lim, s, e).requests[|s.requests|], EventShare);
    case Move(i, queueBytes) =>
      TotalUpdate(s.requests, i, Next(lim, s, e).requests[i], RequestShare);
      TotalUpdate(s.requests, i, Next(lim, s, e).requests[i], EventShare);
  }

  lemma TotalOneMore(rs: seq<Request>, r: Request, share: Request -> int)
    ensures Total(rs + [r], share) == Total(rs, share) + share(r)
  {
    assert (rs + [r])[..|rs|] == rs;
  }

  // After every run, however the requests interleave, both counters are the
  // totals over the requests that have added and not yet taken their share.
  lemma {:induction false} CountersAreTotals(lim: Limits, events: seq<Event>)
    requires Run(lim, events).Some?
    ensures Exact(Run(lim, events).value)
  {
    if events != [] {
      hide Exact, Next, Enabled;
      var n := |events| - 1;
      CountersAreTotals(lim, events[..n]);
      StepKeepsExact(lim, Run(lim, events[..n]).value, events[n]);
    }
  }

  lemma {:induction false} NoShares(rs: seq<Request>)
    requires forall r :: r in rs ==> r.phase.Gone?
    ensures Total(rs, RequestShare) == Total(rs, EventShare) == 0
  {
    if rs != [] {
      assert rs[|rs| - 1] in rs;
      NoShares(rs[..|rs| - 1]);
    }
  }

  // When every handler has returned, both counters are back at zero.
  lemma AllReturned(lim: Limits, events: seq<Event>)
    requires Run(lim, events).Some? && forall r :: r in Run(lim, events).value.requests ==> r.phase.Gone?
    ensures Run(lim, events).value.inflightRequests == Run(lim, events).value.inflightEvents == 0
  {
    CountersAreTotals(lim, events);
    NoShares(Run(lim, events).value.requests);
  }

  // ---------- the limits ----------

  // Between the first check and the last addition.
  predicate Entering(r: Request) {
    r.phase.CheckEvents? || r.phase.CheckBytes? || r.phase.AddRequest? || r.phase.AddEvents?
  }

  // No two requests are entering.
  predicate OneAtATime(s: State) {
    forall i, j :: 0 <= i < j < |s.requests| ==> !(Entering(s.requests[i]) && Entering(s.requests[j]))
  }

  predicate AlwaysOneAtATime(lim: Limits, events: seq<Event>)
    requires Run(lim, events).Some?
  {
    OneAtATime(Run(lim, events).value) && (events != [] ==> AlwaysOneAtATime(lim, events[..|events| - 1]))
  }

  // What an entering request has seen still holds.
  predicate StillFits(lim: Limits, s: State, r: Request) {
    && (lim.maxRequests > 0 && (r.phase.CheckEvents? || r.phase.CheckBytes? || r.phase.AddRequest?) ==>
          s.inflightRequests < lim.maxRequests)
    && (lim.maxEvents > 0 && (r.phase.CheckBytes? || r.phase.AddRequest? || r.phase.AddEvents?) ==>
          s.inflightEvents + r.events <= lim.maxEvents)
  }

  predicate WithinLimits(lim: Limits, s: State) {
    && (lim.maxRequests > 0 ==> s.inflightRequests <= lim.maxRequests)
    && (lim.maxEvents > 0 ==> s.inflightEvents <= lim.maxEvents)
  }

  predicate Fits(lim: Limits, s: State) {
    WithinLimits(lim, s) && forall i :: 0 <= i < |s.requests| ==> StillFits(lim, s, s.requests[i])
  }

  lemma StepKeepsFits(lim: Limits, s: State, e: Event)
    requires Enabled(s, e) && OneAtATime(s) && Fits(lim, s)
    ensures Fits(lim, Next(lim, s, e))
  {
    var t := Next(lim, s, e);
    forall j | 0 <= j < |t.requests| ensures StillFits(lim, t, t.requests[j]) {
      if j < |s.requests| {
        assert StillFits(lim, s, s.requests[j]);
        if e.Move? && e.i != j {
          assert StillFits(lim, s, s.requests[e.i]);
          assert !(Entering(s.requests[if e.i < j then e.i else j]) && Entering(s.requests[if e.i < j then j else e.i]));
        }
      }
    }
    if e.Move? { assert StillFits(lim, s, s.requests[e.i]); }
  }

  // The limits are respected as long as requests enter one at a time.
  lemma {:induction false} LimitsHoldOneAtATime(lim: Limits, events: seq<Event>)
    requires Run(lim, events).Some? && AlwaysOneAtATime(lim, events)
    ensures Fits(lim, Run(lim, events).value)
  {
    if events != [] {
      hide Fits, Next, Enabled, OneAtATime;
      var n := |events| - 1;
      LimitsHoldOneAtATime(lim, events[..n]);
      StepKeepsFits(lim, Run(lim, events[..n]).value, events[n]);
    }
  }

  // ---------- how far racing requests exceed a limit ----------

  datatype Gauge = Requests | Events

  // A request's share in the race for a gauge: what it will add after having
  // passed that gauge's check. For requests that is one each.
  function RacingShare(g: Gauge): Request -> int {
    match g
    case Requests => (r: Request) => if r.phase.CheckEvents? || r.phase.CheckBytes? || r.phase.AddRequest? then 1 else 0
    case Events => (r: Request) => if r.phase.CheckBytes? || r.phase.AddRequest? || r.phase.AddEvents? then r.events else 0
  }

  function Racing(g: Gauge, s: State): int {
    Total(s.requests, RacingShare(g))
  }

  function Limit(g: Gauge, lim: Limits): int {
    if g.Requests? then lim.maxRequests else lim.maxEvents
  }

  function Reading(g: Gauge, s: State): int {
    if g.Requests? then s.inflightRequests else s.inflightEvents
  }

  // Never more than w at once, of requests or of events, are in the race.
  predicate AtMostRacing(g: Gauge, lim: Limits, events: seq<Event>, w: nat)
    requires Run(lim, events).Some?
  {
    Racing(g, Run(lim, events).value) <= w && (events != [] ==> AtMostRacing(g, lim, events[..|events| - 1], w))
  }

  lemma {:induction false} NonNegative(g: Gauge, rs: seq<Request>)
    ensures 0 <= Total(rs, RacingShare(g))
  {
    if rs != [] { NonNegative(g, rs[..|rs| - 1]); }
  }

  // Next to any request in the race, others that race add up to at most w.
  predicate FewOthers(g: Gauge, s: State, w: nat) {
    forall i :: 0 <= i < |s.requests| && RacingShare(g)(s.requests[i]) > 0 ==> Racing(g, s) - RacingShare(g)(s.requests[i]) <= w
  }

  predicate AlwaysFewOthers(g: Gauge, lim: Limits, events: seq<Event>, w: nat)
    requires Run(lim, events).Some?
  {
    FewOthers(g, Run(lim, events).value, w) && (events != [] ==> AlwaysFewOthers(g, lim, events[..|events| - 1], w))
  }

  lemma StepKeepsOvershoot(g: Gauge, lim: Limits, s: State, e: Event, w: nat)
    requires Enabled(s, e) && 0 < Limit(g, lim) && FewOthers(g, Next(lim, s, e), w)
    requires Reading(g, s) + Racing(g, s) <= Limit(g, lim) + w
    ensures Reading(g, Next(lim, s, e)) + Racing(g, Next(lim, s, e)) <= Limit(g, lim) + w
  {
    hide Total;
    match e
    case Arrive(events, bytes) => TotalOneMore(s.requests, Next(lim, s, e).requests[|s.requests|], RacingShare(g));
    case Move(i, queueBytes) => TotalUpdate(s.requests, i, Next(lim, s, e).requests[i], RacingShare(g));
  }

  // A limit is exceeded by at most what races next to one request: other
  // requests for the limit on requests, their events for the limit on events.
  lemma {:induction false} OvershootBounded(g: Gauge, lim: Limits, events: seq<Event>, w: nat)
    requires Run(lim, events).Some? && AlwaysFewOthers(g, lim, events, w) && 0 < Limit(g, lim)
    ensures var s := Run(lim, events).value;
      Reading(g, s) <= Reading(g, s) + Racing(g, s) <= Limit(g, lim) + w
  {
    NonNegative(g, Run(lim, events).value.requests);
    if events != [] {
      hide Next, Enabled, Racing, Reading, Limit, FewOthers;
      var n := |events| - 1;
      OvershootBounded(g, lim, events[..n], w);
      StepKeepsOvershoot(g, lim, Run(lim, events[..n]).value, events[n], w);
    } else {
      assert Total([], RacingShare(g)) == 0;
    }
  }

  // ---------- and that they do ----------

  // These events lead to s with never more than w in the race.
  predicate Leads(g: Gauge, lim: Limits, events: seq<Event>, w: nat, s: State) {
    Run(lim, events) == Some(s) && AtMostRacing(g, lim, events, w)
  }

  lemma LeadsOn(g: Gauge, lim: Limits, events: seq<Event>, w: nat, s: State, e: Event)
    requires Leads(g, lim, events, w, s) && Enabled(s, e) && Racing(g, Next(lim, s, e)) <= w
    ensures Leads(g, lim, events + [e], w, Next(lim, s, e))
  {
    hide Racing, Next, Enabled;
    assert (events + [e])[..|events|] == events;
  }

  // Request i goes through one more operation, which lets it pass.
  function Moved(lim: Limits, s: State, i: nat): State
    requires i < |s.requests| && !s.requests[i].phase.Gone?
  {
    Next(lim, s, Move(i, 0))
  }

  lemma MovedRacing(g: Gauge, lim: Limits, s: State, i: nat)
    requires i < |s.requests| && !s.requests[i].phase.Gone?
    ensures var t := Moved(lim, s, i);
      && |t.requests| == |s.requests| && t.requests[i] == s.requests[i].(phase := t.requests[i].phase)
      && t.requests == s.requests[i := t.requests[i]]
      && Racing(g, t) == Racing(g, s) - RacingShare(g)(s.requests[i]) + RacingShare(g)(t.requests[i])
  {
    hide Total;
    TotalUpdate(s.requests, i, Moved(lim, s, i).requests[i], RacingShare(g));
  }

  // A request with one event that every check lets pass on its own.
  predicate Unit(lim: Limits, bytes: nat) {
    lim.limiterOn && !(0 < lim.maxQueueBytes < bytes)
  }

  function Arrived(s: State, bytes: nat): State {
    s.(requests := s.requests + [Request(1, bytes, CheckRequests)])
  }

  // A new request with one event passes its checks: the last of s.
  function Admitted(s: State, bytes: nat): State {
    s.(requests := s.requests + [Request(1, bytes, AddRequest)])
  }

  lemma EnterOne(g: Gauge, lim: Limits, events: seq<Event>, w: nat, s: State, bytes: nat) returns (more: seq<Event>)
    requires Leads(g, lim, events, w, s) && Unit(lim, bytes) && Racing(g, s) < w
    requires !(0 < lim.maxRequests <= s.inflightRequests) && !(0 < lim.maxEvents < s.inflightEvents + 1)
    ensures Leads(g, lim, more, w, Admitted(s, bytes)) && Racing(g, Admitted(s, bytes)) == Racing(g, s) + 1
  {
    hide Leads, Total;
    var i := |s.requests|;
    var m := Move(i, 0);
    var s0 := Arrived(s, bytes);
    assert s0 == Next(lim, s, Arrive(1, bytes));
    TotalOneMore(s.requests, Request(1, bytes, CheckRequests), RacingShare(g));
    TotalOneMore(s.requests, Request(1, bytes, AddRequest), RacingShare(g));
    LeadsOn(g, lim, events, w, s, Arrive(1, bytes));
    MovedRacing(g, lim, s0, i);
    LeadsOn(g, lim, events + [Arrive(1, bytes)], w, s0, m);
    var s1 := Moved(lim, s0, i);
    MovedRacing(g, lim, s1, i);
    LeadsOn(g, lim, events + [Arrive(1, bytes)] + [m], w, s1, m);
    var s2 := Moved(lim, s1, i);
    MovedRacing(g, lim, s2, i);
    more := events + [Arrive(1, bytes)] + [m] + [m] + [m];
    LeadsOn(g, lim, events + [Arrive(1, bytes)] + [m] + [m], w, s2, m);
    assert Moved(lim, s2, i).requests == s.requests + [Request(1, bytes, AddRequest)];
  }

  // k requests in a row are past their checks and not yet counted.
  function Crowd(s: State, bytes: nat, k: nat): State {
    if k == 0 then s else Admitted(Crowd(s, bytes, k - 1), bytes)
  }

  lemma {:induction false} EnterMany(g: Gauge, lim: Limits, events: seq<Event>, w: nat, s: State, bytes: nat, k: nat)
    returns (more: seq<Event>)
    requires Leads(g, lim, events, w, s) && Unit(lim, bytes) && Racing(g, s) + k <= w
    requires !(0 < lim.maxRequests <= s.inflightRequests) && !(0 < lim.maxEvents < s.inflightEvents + 1)
    ensures var t := Crowd(s, bytes, k);
      && Leads(g, lim, more, w, t) && Racing(g, t) == Racing(g, s) + k
      && t.inflightRequests == s.inflightRequests && t.inflightEvents == s.inflightEvents
      && |t.requests| == |s.requests| + k
      && forall i :: |s.requests| <= i < |t.requests| ==> t.requests[i] == Request(1, bytes, AddRequest)
  {
    more := events;
    if k > 0 {
      hide Leads, Racing;
      more := EnterMany(g, lim, events, w, s, bytes, k - 1);
      more := EnterOne(g, lim, more, w, Crowd(s, bytes, k - 1), bytes);
    }
  }

  // The requests from position `first` on, k of them, count themselves.
  lemma {:induction false} CountMany(g: Gauge, lim: Limits, events: seq<Event>, w: nat, s: State, first: nat, k: nat, bytes: nat)
    returns (more: seq<Event>, t: State)
    requires Leads(g, lim, events, w, s) && first + k <= |s.requests| && Racing(g, s) <= w
    requires forall i :: first <= i < first + k ==> s.requests[i] == Request(1, bytes, AddRequest)
    ensures Leads(g, lim, more, w, t)
    ensures t.inflightRequests == s.inflightRequests + k && t.inflightEvents == s.inflightEvents + k
    decreases k
  {
    more, t := events, s;
    if k > 0 {
      hide Leads, Racing, RacingShare, Run, AtMostRacing;
      var i := first;
      RacingPhases(g, bytes);
      MovedRacing(g, lim, s, i);
      LeadsOn(g, lim, events, w, s, Move(i, 0));
      var s1 := Moved(lim, s, i);
      MovedRacing(g, lim, s1, i);
      LeadsOn(g, lim, events + [Move(i, 0)], w, s1, Move(i, 0));
      var s2 := Moved(lim, s1, i);
      more, t := CountMany(g, lim, events + [Move(i, 0)] + [Move(i, 0)], w, s2, first + 1, k - 1, bytes);
    }
  }

  lemma RacingPhases(g: Gauge, bytes: nat)
    ensures RacingShare(g)(Request(1, bytes, AddEvents)) <= RacingShare(g)(Request(1, bytes, AddRequest)) == 1
    ensures RacingShare(g)(Request(1, bytes, TakeRequest)) == RacingShare(g)(Request(1, bytes, TakeEvents)) == 0
    ensures g.Requests? ==> RacingShare(g)(Request(1, bytes, AddEvents)) == 0
  {
  }

  // An entered request counts itself as a request; for the events gauge it
  // also counts its event and has already gone as a request.
  lemma HoldOne(g: Gauge, lim: Limits, events: seq<Event>, w: nat, s: State, bytes: nat) returns (more: seq<Event>, t: State)
    requires Leads(g, lim, events, w, Admitted(s, bytes)) && Racing(g, Admitted(s, bytes)) == 1 <= w
    ensures Leads(g, lim, more, w, t) && Racing(g, t) == 0
    ensures t.inflightRequests == s.inflightRequests + (if g.Requests? then 1 else 0)
    ensures t.inflightEvents == s.inflightEvents + if g.Events? then 1 else 0
  {
    hide Leads, Racing, RacingShare;
    var i, m := |s.requests|, Move(|s.requests|, 0);
    RacingPhases(g, bytes);
    var s1 := Admitted(s, bytes);
    MovedRacing(g, lim, s1, i);
    LeadsOn(g, lim, events, w, s1, m);
    t := Moved(lim, s1, i);
    more := events + [m];
    if g.Events? {
      MovedRacing(g, lim, t, i);
      LeadsOn(g, lim, more, w, t, m);
      var s3 := Moved(lim, t, i);
      MovedRacing(g, lim, s3, i);
      LeadsOn(g, lim, more + [m], w, s3, m);
      t := Moved(lim, s3, i);
      more := more + [m] + [m];
    }
  }

  // k requests, one after the other, hold their share.
  lemma {:induction false} HoldMany(g: Gauge, lim: Limits, w: nat, bytes: nat, k: nat) returns (events: seq<Event>, s: State)
    requires Unit(lim, bytes) && 0 < w && k < Limit(g, lim)
    ensures Leads(g, lim, events, w, s) && Racing(g, s) == 0
    ensures s.inflightRequests == (if g.Requests? then k else 0) && s.inflightEvents == if g.Events? then k else 0
  {
    if k == 0 {
      events, s := [], INITIAL;
      assert Racing(g, INITIAL) == 0;
    } else {
      hide Leads, Racing, RacingShare;
      var before, s0 := HoldMany(g, lim, w, bytes, k - 1);
      var entered := EnterOne(g, lim, before, w, s0, bytes);
      events, s := HoldOne(g, lim, entered, w, s0, bytes);
    }
  }

  // Each share in the race is at least one, so the others are one less than all.
  lemma {:induction false} OthersAreFewer(g: Gauge, lim: Limits, events: seq<Event>, w: nat)
    requires Run(lim, events).Some? && AtMostRacing(g, lim, events, w + 1)
    ensures AlwaysFewOthers(g, lim, events, w)
  {
    if events != [] { OthersAreFewer(g, lim, events[..|events| - 1], w); }
  }

  // The bound is reached: for every limit and every w there is a run of
  // requests with one event each, never more than w racing next to another,
  // that exceeds the limit by w, whatever the other limits are.
  lemma OvershootReached(g: Gauge, lim: Limits, w: nat, bytes: nat) returns (events: seq<Event>)
    requires Unit(lim, bytes) && 0 < Limit(g, lim)
    ensures Run(lim, events).Some? && AlwaysFewOthers(g, lim, events, w)
    ensures Reading(g, Run(lim, events).value) == Limit(g, lim) + w
  {
    hide Racing, RacingShare, AlwaysFewOthers, AtMostRacing;
    var held, s := HoldMany(g, lim, w + 1, bytes, Limit(g, lim) - 1);
    var entered := EnterMany(g, lim, held, w + 1, s, bytes, w + 1);
    var t: State;
    events, t := CountMany(g, lim, entered, w + 1, Crowd(s, bytes, w + 1), |s.requests|, w + 1, bytes);
    OthersAreFewer(g, lim, events, w);
  }

  // So a limit holds in every run with at most w racing next to a request
  // exactly if w is zero: if no check is ever raced.
  lemma LimitHoldsIff(g: Gauge, lim: Limits, w: nat, bytes: nat)
    requires Unit(lim, bytes) && 0 < Limit(g, lim)
    ensures (forall events :: Run(lim, events).Some? && AlwaysFewOthers(g, lim, events, w) ==>
               Reading(g, Run(lim, events).value) <= Limit(g, lim))
       <==> w == 0
  {
    hide Run, AlwaysFewOthers, Reading, Limit;
    if w == 0 {
      forall events | Run(lim, events).Some? && AlwaysFewOthers(g, lim, events, w)
        ensures Reading(g, Run(lim, events).value) <= Limit(g, lim)
      {
        OvershootBounded(g, lim, events, 0);
      }
    } else {
      var events := OvershootReached(g, lim, w, bytes);
    }
  }
}
