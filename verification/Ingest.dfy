// The per-event loop of handleIngest (handlers.go) with the response counters
// (response.go) and the choice of the HTTP status.
module Ingest {
  import opened ByteStrings

  datatype Mode = Direct | Spool | Queue | Hybrid

  datatype Setup = Setup(mode: Mode, scoped: bool, dedupe: bool, hybridSink: bool)

  datatype ProcessResult = ProcessResult(deduped: bool, quarantined: bool, invalid: bool, failed: bool)

  // One event and how each stage answers for it. prepared and stamped are the
  // rewritten event; duplicate is None when the dedupe store fails.
  datatype Event = Event(
    raw: Bytes,
    isObject: bool,
    breaksContract: bool,
    prepared: Option<Bytes>,
    stamped: Option<Bytes>,
    hasDedupeKey: bool,
    duplicate: Option<bool>,
    spooled: bool,
    forwarded: bool,
    processorReady: bool,
    result: ProcessResult)

  // ---------- what becomes of one event ----------

  datatype Verdict = Invalid | Quarantined | Rejected | Duplicate | Accepted(event: Bytes)

  // The event as the last rewriting stage left it, if every stage let it pass.
  function Rewritten(c: Setup, e: Event): Option<Bytes> {
    if !e.isObject || e.breaksContract || e.prepared.None? then None
    else if c.scoped then e.stamped else e.prepared
  }

  function Deliver(c: Setup, e: Event, event: Bytes): Verdict {
    if c.mode.Spool? || c.mode.Hybrid? then
      if c.dedupe && e.hasDedupeKey && e.duplicate != Some(false) then
        (if e.duplicate.None? then Rejected else Duplicate)
      else if !e.spooled || (c.mode.Hybrid? && c.hybridSink && !e.forwarded) then Rejected
      else Accepted(event)
    else if !e.processorReady then Rejected
    else if e.result.deduped then Duplicate
    else if e.result.quarantined then Quarantined
    else if e.result.invalid then Invalid
    else if e.result.failed then Rejected
    else Accepted(event)
  }

  function Classify(c: Setup, e: Event): Verdict {
    match Rewritten(c, e) case None => Invalid case Some(event) => Deliver(c, e, event)
  }

  // ---------- the same, outcome by outcome ----------

  // The event reaches delivery: it is an object, keeps the contract, governance
  // lets it pass, and a scoped request could stamp it.
  predicate Reaches(c: Setup, e: Event) {
    e.isObject && !e.breaksContract && e.prepared.Some? && (c.scoped ==> e.stamped.Some?)
  }

  predicate Spooling(c: Setup) {
    c.mode == Spool || c.mode == Hybrid
  }

  // The dedupe store must be asked before the event is spooled.
  predicate Asks(c: Setup, e: Event) {
    c.dedupe && e.hasDedupeKey
  }

  predicate IsDelivered(c: Setup, e: Event) {
    Reaches(c, e) &&
    if Spooling(c) then
      (Asks(c, e) ==> e.duplicate == Some(false)) && e.spooled && (c.mode == Hybrid && c.hybridSink ==> e.forwarded)
    else
      e.processorReady && !e.result.deduped && !e.result.quarantined && !e.result.invalid && !e.result.failed
  }

  predicate IsRepeated(c: Setup, e: Event) {
    Reaches(c, e) &&
    if Spooling(c) then Asks(c, e) && e.duplicate.Some? && e.duplicate.value else e.processorReady && e.result.deduped
  }

  predicate IsQuarantined(c: Setup, e: Event) {
    Reaches(c, e) && !Spooling(c) && e.processorReady && e.result.quarantined && !e.result.deduped
  }

  predicate IsInvalid(c: Setup, e: Event) {
    !Reaches(c, e) || (!Spooling(c) && e.processorReady && e.result.invalid && !e.result.deduped && !e.result.quarantined)
  }

  // What is sent on: the stamped form if the request is scoped.
  function SentOn(c: Setup, e: Event): Option<Bytes> {
    if c.scoped then e.stamped else e.prepared
  }

  // Every verdict, in terms of what the stages answered.
  lemma VerdictIff(c: Setup, e: Event)
    ensures Classify(c, e).Accepted? <==> IsDelivered(c, e)
    ensures Classify(c, e).Duplicate? <==> IsRepeated(c, e)
    ensures Classify(c, e).Quarantined? <==> IsQuarantined(c, e)
    ensures Classify(c, e).Invalid? <==> IsInvalid(c, e)
    ensures IsDelivered(c, e) ==> SentOn(c, e) == Some(Classify(c, e).event)
  {
  }

  function CountOf(events: seq<Event>, p: Event -> bool): nat {
    if events == [] then 0 else CountOf(events[..|events| - 1], p) + if p(events[|events| - 1]) then 1 else 0
  }

  // The delivered events as they are sent on, in order.
  function Delivered(c: Setup, events: seq<Event>): seq<Option<Bytes>> {
    if events == [] then []
    else Delivered(c, events[..|events| - 1]) + if IsDelivered(c, events[|events| - 1]) then [SentOn(c, events[|events| - 1])] else []
  }

  function AsSome(sent: seq<Bytes>): (r: seq<Option<Bytes>>)
    ensures |r| == |sent|
  {
    seq(|sent|, i requires 0 <= i < |sent| => Some(sent[i]))
  }

  lemma {:induction false} ForwardedIsDelivered(c: Setup, events: seq<Event>)
    ensures AsSome(Forwarded(c, events)) == Delivered(c, events)
  {
    if events != [] {
      var n := |events| - 1;
      ForwardedIsDelivered(c, events[..n]);
      VerdictIff(c, events[n]);
      hide Classify, IsDelivered, SentOn;
    }
  }

  // ---------- counting ----------

  function Tally(c: Setup, events: seq<Event>, kind: Verdict -> bool): nat {
    if events == [] then 0
    else Tally(c, events[..|events| - 1], kind) + if kind(Classify(c, events[|events| - 1])) then 1 else 0
  }

  function Forwarded(c: Setup, events: seq<Event>): seq<Bytes> {
    if events == [] then []
    else
      var earlier := Forwarded(c, events[..|events| - 1]);
      match Classify(c, events[|events| - 1])
      case Accepted(event) => earlier + [event]
      case _ => earlier
  }

  class Metrics {
    var eventsAccepted: nat
    var eventsInvalid: nat
    var eventsRejected: nat
    var eventsDeduped: nat
  }

  class Response {
    var accepted: nat
    var rejected: nat
    var duplicates: nat
    var invalid: nat
    var quarantined: nat

    constructor ()
      ensures accepted == rejected == duplicates == invalid == quarantined == 0
    {
      accepted, rejected, duplicates, invalid, quarantined := 0, 0, 0, 0, 0;
    }
  }

  const IS_ACCEPTED := (v: Verdict) => v.Accepted? || v.Duplicate?
  const IS_DUPLICATE := (v: Verdict) => v.Duplicate?
  const IS_REJECTED := (v: Verdict) => v.Rejected?
  const IS_INVALID := (v: Verdict) => v.Invalid?
  const IS_QUARANTINED := (v: Verdict) => v.Quarantined?

  // All counters of one request, metrics first.
  datatype Counters = Counters(
    eventsAccepted: nat, eventsInvalid: nat, eventsRejected: nat, eventsDeduped: nat,
    accepted: nat, duplicates: nat, rejected: nat, invalid: nat, quarantined: nat)

  function Snapshot(m: Metrics, r: Response): Counters
    reads m, r
  {
    Counters(m.eventsAccepted, m.eventsInvalid, m.eventsRejected, m.eventsDeduped,
             r.accepted, r.duplicates, r.rejected, r.invalid, r.quarantined)
  }

  function Bump(k: Counters, v: Verdict): Counters {
    match v
    case Accepted(_) => k.(eventsAccepted := k.eventsAccepted + 1, accepted := k.accepted + 1)
    case Duplicate => k.(eventsAccepted := k.eventsAccepted + 1, eventsDeduped := k.eventsDeduped + 1,
                         accepted := k.accepted + 1, duplicates := k.duplicates + 1)
    case Rejected => k.(eventsRejected := k.eventsRejected + 1, rejected := k.rejected + 1)
    case Invalid => k.(eventsInvalid := k.eventsInvalid + 1, invalid := k.invalid + 1)
    case Quarantined => k.(eventsInvalid := k.eventsInvalid + 1, quarantined := k.quarantined + 1)
  }

  function Counted(c: Setup, k: Counters, events: seq<Event>): Counters {
    if events == [] then k else Bump(Counted(c, k, events[..|events| - 1]), Classify(c, events[|events| - 1]))
  }

  lemma {:induction false} CountedIsTally(c: Setup, k: Counters, events: seq<Event>)
    ensures Counted(c, k, events) == Counters(
      k.eventsAccepted + Tally(c, events, IS_ACCEPTED),
      k.eventsInvalid + Tally(c, events, IS_INVALID) + Tally(c, events, IS_QUARANTINED),
      k.eventsRejected + Tally(c, events, IS_REJECTED),
      k.eventsDeduped + Tally(c, events, IS_DUPLICATE),
      k.accepted + Tally(c, events, IS_ACCEPTED),
      k.duplicates + Tally(c, events, IS_DUPLICATE),
      k.rejected + Tally(c, events, IS_REJECTED),
      k.invalid + Tally(c, events, IS_INVALID),
      k.quarantined + Tally(c, events, IS_QUARANTINED))
  {
    hide Classify;
    if events != [] { CountedIsTally(c, k, events[..|events| - 1]); }
  }

  lemma {:induction false} TallyIsCount(c: Setup, events: seq<Event>, p: Event -> bool, kind: Verdict -> bool)
    requires forall e :: p(e) <==> kind(Classify(c, e))
    ensures CountOf(events, p) == Tally(c, events, kind)
  {
    hide Classify;
    if events != [] { TallyIsCount(c, events[..|events| - 1], p, kind); }
  }

  // The counters after the loop, from the outcomes.
  lemma CountedIsCount(c: Setup, k: Counters, events: seq<Event>)
    ensures var t := Counted(c, k, events);
      var accepted := CountOf(events, e => IsDelivered(c, e) || IsRepeated(c, e));
      var repeated := CountOf(events, e => IsRepeated(c, e));
      var invalid, quarantined := CountOf(events, e => IsInvalid(c, e)), CountOf(events, e => IsQuarantined(c, e));
      var rejected := |events| - accepted - invalid - quarantined;
      && t.eventsAccepted == k.eventsAccepted + accepted && t.accepted == k.accepted + accepted
      && t.eventsDeduped == k.eventsDeduped + repeated && t.duplicates == k.duplicates + repeated
      && t.eventsInvalid == k.eventsInvalid + invalid + quarantined
      && t.invalid == k.invalid + invalid && t.quarantined == k.quarantined + quarantined
      && t.eventsRejected == k.eventsRejected + rejected && t.rejected == k.rejected + rejected
  {
    CountedIsTally(c, k, events);
    EachEventCountedOnce(c, events);
    hide Classify, IsDelivered, IsRepeated, IsInvalid, IsQuarantined, Counted, Tally, CountOf;
    forall e ensures (IS_ACCEPTED(Classify(c, e)) <==> IsDelivered(c, e) || IsRepeated(c, e))
      && (IS_DUPLICATE(Classify(c, e)) <==> IsRepeated(c, e))
      && (IS_INVALID(Classify(c, e)) <==> IsInvalid(c, e)) && (IS_QUARANTINED(Classify(c, e)) <==> IsQuarantined(c, e))
    {
      VerdictIff(c, e);
    }
    TallyIsCount(c, events, e => IsDelivered(c, e) || IsRepeated(c, e), IS_ACCEPTED);
    TallyIsCount(c, events, e => IsRepeated(c, e), IS_DUPLICATE);
    TallyIsCount(c, events, e => IsInvalid(c, e), IS_INVALID);
    TallyIsCount(c, events, e => IsQuarantined(c, e), IS_QUARANTINED);
  }

  lemma OneMore(c: Setup, k: Counters, events: seq<Event>, i: nat)
    requires i < |events|
    ensures Counted(c, k, events[..i + 1]) == Bump(Counted(c, k, events[..i]), Classify(c, events[i]))
    ensures Forwarded(c, events[..i + 1])
         == Forwarded(c, events[..i]) + match Classify(c, events[i]) case Accepted(event) => [event] case _ => []
  {
    hide Classify, Bump;
    assert events[..i + 1][..i] == events[..i] && events[..i + 1][i] == events[i];
  }

  lemma NoneYet(c: Setup, k: Counters)
    ensures Counted(c, k, []) == k && Forwarded(c, []) == []
  {
  }

  // The loop with its early exits, stage by stage.
  method HandleEvents(c: Setup, events: seq<Event>, m: Metrics, resp: Response) returns (acceptedForCortex: seq<Bytes>)
    modifies m, resp
    ensures acceptedForCortex == Forwarded(c, events) && AsSome(acceptedForCortex) == Delivered(c, events)
    ensures m.eventsAccepted == old(m.eventsAccepted) + CountOf(events, e => IsDelivered(c, e) || IsRepeated(c, e))
    ensures m.eventsInvalid
         == old(m.eventsInvalid) + CountOf(events, e => IsInvalid(c, e)) + CountOf(events, e => IsQuarantined(c, e))
    ensures Snapshot(m, resp) == Counted(c, old(Snapshot(m, resp)), events)
    ensures m.eventsAccepted + m.eventsInvalid + m.eventsRejected
         == old(m.eventsAccepted + m.eventsInvalid + m.eventsRejected) + |events|
  {
    hide Counted, Forwarded;
    ghost var k := Snapshot(m, resp);
    acceptedForCortex := [];
    NoneYet(c, k);
    for i := 0 to |events|
      invariant Snapshot(m, resp) == Counted(c, k, events[..i])
      invariant acceptedForCortex == Forwarded(c, events[..i])
    {
      OneMore(c, k, events, i);
      var e := events[i];
      if !e.isObject || e.breaksContract || e.prepared.None? {
        m.eventsInvalid := m.eventsInvalid + 1;
        resp.invalid := resp.invalid + 1;
        continue;
      }
      var raw := e.prepared.value;
      if c.scoped {
        if e.stamped.None? {
          m.eventsInvalid := m.eventsInvalid + 1;
          resp.invalid := resp.invalid + 1;
          continue;
        }
        raw := e.stamped.value;
      }
      if c.mode.Spool? || c.mode.Hybrid? {
        if c.dedupe && e.hasDedupeKey {
          if e.duplicate.None? {
            m.eventsRejected := m.eventsRejected + 1;
            resp.rejected := resp.rejected + 1;
            continue;
          }
          if e.duplicate.value {
            m.eventsDeduped := m.eventsDeduped + 1;
            m.eventsAccepted := m.eventsAccepted + 1;
            resp.accepted, resp.duplicates := resp.accepted + 1, resp.duplicates + 1;
            continue;
          }
        }
        if !e.spooled {
          m.eventsRejected := m.eventsRejected + 1;
          resp.rejected := resp.rejected + 1;
          continue;
        }
        if c.mode.Hybrid? && c.hybridSink && !e.forwarded {
          m.eventsRejected := m.eventsRejected + 1;
          resp.rejected := resp.rejected + 1;
          continue;
        }
      } else {
        if !e.processorReady {
          m.eventsRejected := m.eventsRejected + 1;
          resp.rejected := resp.rejected + 1;
          continue;
        }
        if e.result.deduped {
          m.eventsDeduped := m.eventsDeduped + 1;
          m.eventsAccepted := m.eventsAccepted + 1;
          resp.accepted, resp.duplicates := resp.accepted + 1, resp.duplicates + 1;
          continue;
        }
        if e.result.quarantined {
          m.eventsInvalid := m.eventsInvalid + 1;
          resp.quarantined := resp.quarantined + 1;
          continue;
        }
        if e.result.invalid {
          m.eventsInvalid := m.eventsInvalid + 1;
          resp.invalid := resp.invalid + 1;
          continue;
        }
        if e.result.failed {
          m.eventsRejected := m.eventsRejected + 1;
          resp.rejected := resp.rejected + 1;
          continue;
        }
      }
      resp.accepted := resp.accepted + 1;
      m.eventsAccepted := m.eventsAccepted + 1;
      acceptedForCortex := acceptedForCortex + [raw];
    }
    assert events[..|events|] == events;
    MetricsAddUp(c, k, events);
    CountedIsCount(c, k, events);
    ForwardedIsDelivered(c, events);
  }

  // One metric or another goes up by one with each event.
  lemma {:induction false} MetricsAddUp(c: Setup, k: Counters, events: seq<Event>)
    ensures var t := Counted(c, k, events);
      t.eventsAccepted + t.eventsInvalid + t.eventsRejected == k.eventsAccepted + k.eventsInvalid + k.eventsRejected + |events|
  {
    hide Classify;
    if events != [] { MetricsAddUp(c, k, events[..|events| - 1]); }
  }

  // Every event is counted in exactly one of accepted, invalid and rejected.
  lemma {:induction false} EachEventCountedOnce(c: Setup, events: seq<Event>)
    ensures Tally(c, events, IS_ACCEPTED) + Tally(c, events, IS_INVALID) + Tally(c, events, IS_QUARANTINED)
          + Tally(c, events, IS_REJECTED) == |events|
    ensures |Forwarded(c, events)| + Tally(c, events, IS_DUPLICATE) == Tally(c, events, IS_ACCEPTED)
  {
    if events != [] {
      EachEventCountedOnce(c, events[..|events| - 1]);
    }
  }

  // How many of the events before position i go to Cortex.
  function Rank(c: Setup, events: seq<Event>, i: nat): nat
    requires i <= |events|
  {
    |Forwarded(c, events[..i])|
  }

  // What goes to Cortex is, position by position, the rewritten form of the
  // accepted non-duplicate events in their order.
  lemma {:induction false} ForwardedInOrder(c: Setup, events: seq<Event>, i: nat)
    requires i < |events|
    ensures Classify(c, events[i]).Accepted? ==>
      && Rank(c, events, i) < |Forwarded(c, events)|
      && Rewritten(c, events[i]) == Some(Forwarded(c, events)[Rank(c, events, i)])
    ensures Rank(c, events, i + 1) == Rank(c, events, i) + if Classify(c, events[i]).Accepted? then 1 else 0
    decreases |events|
  {
    var n := |events| - 1;
    assert events[..n + 1] == events;
    assert events[..i + 1][..i] == events[..i];
    if i < n {
      ForwardedInOrder(c, events[..n], i);
      assert events[..n][..i] == events[..i] && events[..n][..i + 1] == events[..i + 1];
      assert Forwarded(c, events[..n]) <= Forwarded(c, events);
    }
  }

  // ---------- the HTTP status ----------

  function Status(accepted: nat, invalid: nat, rejected: nat, quarantined: nat): nat {
    if accepted == 0 && invalid > 0 && rejected == 0 && quarantined == 0 then 400
    else if accepted == 0 && quarantined > 0 && invalid == 0 && rejected == 0 then 422
    else if accepted == 0 && rejected > 0 then 503
    else if accepted > 0 && (invalid > 0 || rejected > 0 || quarantined > 0) then 207
    else 202
  }

  function StatusOf(c: Setup, events: seq<Event>): nat {
    Status(Tally(c, events, IS_ACCEPTED), Tally(c, events, IS_INVALID), Tally(c, events, IS_REJECTED), Tally(c, events, IS_QUARANTINED))
  }

  ghost predicate AllAre(c: Setup, events: seq<Event>, kind: Verdict -> bool) {
    forall e :: e in events ==> kind(Classify(c, e))
  }

  ghost predicate SomeIs(c: Setup, events: seq<Event>, kind: Verdict -> bool) {
    exists e :: e in events && kind(Classify(c, e))
  }

  lemma LastEvent(c: Setup, events: seq<Event>, kind: Verdict -> bool)
    requires events != []
    ensures var n := |events| - 1;
      var last := kind(Classify(c, events[n]));
      && (AllAre(c, events, kind) <==> AllAre(c, events[..n], kind) && last)
      && (SomeIs(c, events, kind) <==> SomeIs(c, events[..n], kind) || last)
      && Tally(c, events, kind) == Tally(c, events[..n], kind) + if last then 1 else 0
  {
    hide Classify;
    var n := |events| - 1;
    assert forall e :: e in events <==> e in events[..n] || e == events[n] by {
      assert events == events[..n] + [events[n]];
    }
  }

  lemma {:induction false} TallyAll(c: Setup, events: seq<Event>, kind: Verdict -> bool)
    ensures Tally(c, events, kind) <= |events|
    ensures Tally(c, events, kind) == |events| <==> AllAre(c, events, kind)
    ensures Tally(c, events, kind) > 0 <==> SomeIs(c, events, kind)
  {
    hide Classify;
    if events != [] {
      hide AllAre, SomeIs, Tally;
      LastEvent(c, events, kind);
      TallyAll(c, events[..|events| - 1], kind);
    }
  }

  // The answer is 202 when every event was accepted, and also, although none
  // was, when some were invalid, others quarantined and none rejected.
  lemma AnsweredAccepted(c: Setup, events: seq<Event>)
    requires events != []
    ensures StatusOf(c, events) == 202
       <==> || (forall e :: e in events ==> IS_ACCEPTED(Classify(c, e)))
            || (&& (forall e :: e in events ==> IS_INVALID(Classify(c, e)) || IS_QUARANTINED(Classify(c, e)))
                && (exists e :: e in events && IS_INVALID(Classify(c, e)))
                && (exists e :: e in events && IS_QUARANTINED(Classify(c, e))))
  {
    EachEventCountedOnce(c, events);
    TallyAll(c, events, IS_ACCEPTED);
    TallyAll(c, events, IS_INVALID);
    TallyAll(c, events, IS_QUARANTINED);
    TallyAll(c, events, IS_REJECTED);
    hide Classify;
  }

  // Every status, for every batch that is not empty.
  lemma StatusIff(c: Setup, events: seq<Event>)
    requires events != []
    ensures var accepted := (e: Event) => IsDelivered(c, e) || IsRepeated(c, e);
      var rejected := (e: Event) => !IsDelivered(c, e) && !IsRepeated(c, e) && !IsInvalid(c, e) && !IsQuarantined(c, e);
      var status := StatusOf(c, events);
      && (status == 400 <==> forall e :: e in events ==> IsInvalid(c, e))
      && (status == 422 <==> forall e :: e in events ==> IsQuarantined(c, e))
      && (status == 503 <==> (forall e :: e in events ==> !accepted(e)) && exists e :: e in events && rejected(e))
      && (status == 207 <==> (exists e :: e in events && accepted(e)) && exists e :: e in events && !accepted(e))
      && status in {202, 207, 400, 422, 503}
  {
    hide Classify, IsDelivered, IsRepeated, IsInvalid, IsQuarantined, Tally, AllAre, SomeIs, Forwarded;
    StatusByTally(c, events);
    forall e ensures (IS_ACCEPTED(Classify(c, e)) <==> IsDelivered(c, e) || IsRepeated(c, e))
      && (IS_REJECTED(Classify(c, e)) <==> !IsDelivered(c, e) && !IsRepeated(c, e) && !IsInvalid(c, e) && !IsQuarantined(c, e))
      && (IS_INVALID(Classify(c, e)) <==> IsInvalid(c, e)) && (IS_QUARANTINED(Classify(c, e)) <==> IsQuarantined(c, e))
    {
      VerdictIff(c, e);
    }
    TallyMeans(c, events, IS_ACCEPTED, e => IsDelivered(c, e) || IsRepeated(c, e));
    TallyMeans(c, events, IS_INVALID, e => IsInvalid(c, e));
    TallyMeans(c, events, IS_QUARANTINED, e => IsQuarantined(c, e));
    TallyMeans(c, events, IS_REJECTED, e => !IsDelivered(c, e) && !IsRepeated(c, e) && !IsInvalid(c, e) && !IsQuarantined(c, e));
  }

  // The status in terms of the four tallies, which add up to the batch.
  lemma StatusByTally(c: Setup, events: seq<Event>)
    requires events != []
    ensures var n, status := |events|, StatusOf(c, events);
      var accepted, rejected := Tally(c, events, IS_ACCEPTED), Tally(c, events, IS_REJECTED);
      && (status == 400 <==> Tally(c, events, IS_INVALID) == n) && (status == 422 <==> Tally(c, events, IS_QUARANTINED) == n)
      && (status == 503 <==> accepted == 0 && rejected > 0)
      && (status == 207 <==> accepted > 0 && accepted < n)
      && status in {202, 207, 400, 422, 503}
  {
    hide Tally, Forwarded;
    EachEventCountedOnce(c, events);
  }

  lemma TallyMeans(c: Setup, events: seq<Event>, kind: Verdict -> bool, p: Event -> bool)
    requires forall e :: p(e) <==> kind(Classify(c, e))
    ensures Tally(c, events, kind) <= |events|
    ensures Tally(c, events, kind) == |events| <==> forall e :: e in events ==> p(e)
    ensures Tally(c, events, kind) > 0 <==> exists e :: e in events && p(e)
  {
    hide Classify, Tally;
    TallyAll(c, events, kind);
  }

  // In every direct-mode setup such a batch exists: one event the processor
  // finds invalid and one it quarantines.
  lemma NothingAcceptedYet202(c: Setup, e: Event)
    requires c.mode.Direct? && Rewritten(c, e).Some? && e.processorReady
    ensures var invalid := e.(result := ProcessResult(false, false, true, false));
      var quarantined := e.(result := ProcessResult(false, true, false, false));
      var batch := [invalid, quarantined];
      Tally(c, batch, IS_ACCEPTED) == 0 && StatusOf(c, batch) == 202
  {
    var invalid := e.(result := ProcessResult(false, false, true, false));
    var quarantined := e.(result := ProcessResult(false, true, false, false));
    var batch := [invalid, quarantined];
    assert Classify(c, invalid).Invalid? && Classify(c, quarantined).Quarantined?;
    hide Classify;
    TallyAll(c, batch, IS_ACCEPTED);
    assert batch[0] == invalid && batch[1] == quarantined;
    AnsweredAccepted(c, batch);
  }
}
