// The ingest loop with the dedupe map behind it, in the spool and hybrid
// modes: a value is marked before its event is stored (handlers.go, state.go).
module IngestRetries {
  import opened ByteStrings
  import opened Ingest
  import opened Dedupe
  import Strings

  // An event as it arrives, with its dedupe value and the time. Its duplicate
  // field is not yet known.
  datatype Arrival = Arrival(event: Ingest.Event, value: string, now: int)

  // The loop asks the dedupe map about this event.
  predicate Consults(c: Setup, a: Arrival) {
    Rewritten(c, a.event).Some? && (c.mode.Spool? || c.mode.Hybrid?) && c.dedupe && a.event.hasDedupeKey
  }

  // What the map has been asked, in order.
  function Calls(c: Setup, trace: seq<Arrival>): seq<Call> {
    if trace == [] then []
    else
      var earlier, a := Calls(c, trace[..|trace| - 1]), trace[|trace| - 1];
      if Consults(c, a) then earlier + [Call(a.value, a.now)] else earlier
  }

  // The event with the answer that the map gives it after these arrivals.
  function Faced(c: Setup, window: int, earlier: seq<Arrival>, a: Arrival): Ingest.Event {
    a.event.(duplicate := Some(Observe(window, MapAfter(window, Calls(c, earlier)), Call(a.value, a.now)).1))
  }

  // The events of the trace as the loop meets them.
  function Met(c: Setup, window: int, trace: seq<Arrival>): (events: seq<Ingest.Event>)
    ensures |events| == |trace|
  {
    seq(|trace|, i requires 0 <= i < |trace| => Faced(c, window, trace[..i], trace[i]))
  }

  // The arrival was new to the map, which now holds its value.
  predicate MarkedAt(c: Setup, window: int, trace: seq<Arrival>, i: nat)
    requires i < |trace|
  {
    Consults(c, trace[i]) && Faced(c, window, trace[..i], trace[i]).duplicate == Some(false)
  }

  // Its event is in the spool.
  predicate StoredAt(c: Setup, window: int, trace: seq<Arrival>, i: nat)
    requires i < |trace|
  {
    MarkedAt(c, window, trace, i) && trace[i].event.spooled
  }

  predicate MonotoneTrace(trace: seq<Arrival>) {
    forall i, j :: 0 <= i < j < |trace| ==> trace[i].now <= trace[j].now
  }

  lemma {:induction false} CallsMonotone(c: Setup, trace: seq<Arrival>)
    requires MonotoneTrace(trace)
    ensures Monotone(Calls(c, trace))
    ensures forall x :: x in Calls(c, trace) ==> trace != [] && x.now <= trace[|trace| - 1].now
  {
    if trace != [] {
      hide Consults;
      CallsMonotone(c, trace[..|trace| - 1]);
    }
  }

  // The answer at position i is the specification's.
  lemma AnswerAt(c: Setup, window: int, trace: seq<Arrival>, i: nat)
    requires i < |trace| && MonotoneTrace(trace) && 0 <= window && Consults(c, trace[i])
    ensures var a := trace[i];
      Faced(c, window, trace[..i], a).duplicate
        == Some(IsRepeat(Call(a.value, a.now), window, LastAccepted(window, Calls(c, trace[..i]), a.value)))
  {
    var upTo := trace[..i + 1];
    assert upTo[..|upTo| - 1] == trace[..i] && upTo[i] == trace[i];
    assert Calls(c, upTo) == Calls(c, trace[..i]) + [Call(trace[i].value, trace[i].now)];
    CallsMonotone(c, upTo);
    DedupeRefinesHistory(window, Calls(c, trace[..i]), Call(trace[i].value, trace[i].now));
  }

  // The mark at m is the latest one of v among the first n arrivals; earlier
  // marks are more than a window older.
  ghost predicate LatestMark(c: Setup, window: int, trace: seq<Arrival>, n: nat, v: string, m: nat)
    requires n <= |trace|
  {
    && m < n && trace[m].value == v && MarkedAt(c, window, trace, m)
    && (forall k :: 0 <= k < n && trace[k].value == v && MarkedAt(c, window, trace, k) ==>
          k == m || (k < m && trace[m].now - trace[k].now > window))
  }

  ghost predicate NoMark(c: Setup, window: int, trace: seq<Arrival>, n: nat, v: string)
    requires n <= |trace|
  {
    forall k :: 0 <= k < n && trace[k].value == v ==> !MarkedAt(c, window, trace, k)
  }

  // One more arrival: only a mark of v changes the latest acceptance of v.
  lemma OneMoreArrival(c: Setup, window: int, trace: seq<Arrival>, n: nat, v: string)
    requires n < |trace| && MonotoneTrace(trace) && 0 <= window && !Strings.Blank(v)
    ensures var before, after := LastAccepted(window, Calls(c, trace[..n]), v), LastAccepted(window, Calls(c, trace[..n + 1]), v);
      if trace[n].value == v && MarkedAt(c, window, trace, n)
      then after == Some(trace[n].now) && (before.Some? ==> trace[n].now - before.value > window)
      else after == before
  {
    hide Consults, Faced, Strings.Blank;
    var a := trace[n];
    assert trace[..n + 1][..n] == trace[..n] && trace[..n + 1][n] == a;
    if Consults(c, a) {
      AnswerAt(c, window, trace, n);
      var calls := Calls(c, trace[..n + 1]);
      assert calls == Calls(c, trace[..n]) + [Call(a.value, a.now)];
      assert calls[..|calls| - 1] == Calls(c, trace[..n]) && calls[|calls| - 1] == Call(a.value, a.now);
    }
  }

  ghost predicate Agree(c: Setup, window: int, trace: seq<Arrival>, n: nat, v: string, m: nat, last: Option<int>)
    requires n <= |trace|
  {
    if last.Some? then LatestMark(c, window, trace, n, v, m) && last.value == trace[m].now
    else NoMark(c, window, trace, n, v)
  }

  lemma AgreeOn(c: Setup, window: int, trace: seq<Arrival>, n: nat, v: string, m: nat, last: Option<int>)
    requires n < |trace| && MonotoneTrace(trace) && 0 <= window && Agree(c, window, trace, n, v, m, last)
    ensures if trace[n].value == v && MarkedAt(c, window, trace, n)
            then (last.Some? ==> trace[n].now - last.value > window) ==> Agree(c, window, trace, n + 1, v, n, Some(trace[n].now))
            else Agree(c, window, trace, n + 1, v, m, last)
  {
    hide MarkedAt;
  }

  // The specification's latest acceptance is the latest mark.
  lemma {:induction false} LastIsLatestMark(c: Setup, window: int, trace: seq<Arrival>, n: nat, v: string) returns (m: nat)
    requires n <= |trace| && MonotoneTrace(trace) && 0 <= window && !Strings.Blank(v)
    ensures Agree(c, window, trace, n, v, m, LastAccepted(window, Calls(c, trace[..n]), v))
    decreases n
  {
    m := 0;
    if n > 0 {
      hide *;
      m := LastIsLatestMark(c, window, trace, n - 1, v);
      OneMoreArrival(c, window, trace, n - 1, v);
      AgreeOn(c, window, trace, n - 1, v, m, LastAccepted(window, Calls(c, trace[..n - 1]), v));
      if trace[n - 1].value == v && MarkedAt(c, window, trace, n - 1) { m := n - 1; }
    }
  }

  // An event with a value is in the spool, stored with a call of this value at
  // most one window ago.
  ghost predicate InSpool(c: Setup, window: int, trace: seq<Arrival>, i: nat)
    requires i < |trace|
  {
    exists j :: 0 <= j <= i && trace[j].value == trace[i].value && trace[i].now - trace[j].now <= window && StoredAt(c, window, trace, j)
  }

  // A call of this value at most one window ago marked it and then failed.
  ghost predicate FailedAfterMark(c: Setup, window: int, trace: seq<Arrival>, i: nat)
    requires i < |trace|
  {
    exists j :: 0 <= j < i && trace[j].value == trace[i].value && trace[i].now - trace[j].now <= window
      && MarkedAt(c, window, trace, j) && !trace[j].event.spooled
  }

  // An event answered as accepted is in the spool if and only if no earlier
  // call with its value in the window failed after marking it.
  lemma AcceptedIsStoredIff(c: Setup, window: int, trace: seq<Arrival>, i: nat)
    requires i < |trace| && MonotoneTrace(trace) && 0 <= window && !Strings.Blank(trace[i].value)
    requires Consults(c, trace[i]) && IS_ACCEPTED(Classify(c, Met(c, window, trace)[i]))
    ensures InSpool(c, window, trace, i) <==> !FailedAfterMark(c, window, trace, i)
  {
    var v := trace[i].value;
    AnswerAt(c, window, trace, i);
    AcceptedMeans(c, window, trace, i);
    var m := LastIsLatestMark(c, window, trace, i, v);
    hide Faced, Consults, Strings.Blank, LastAccepted, Classify, Met;
    if MarkedAt(c, window, trace, i) {
      assert StoredAt(c, window, trace, i);
    } else {
      OnlyMark(c, window, trace, i, m);
    }
  }

  lemma AcceptedMeans(c: Setup, window: int, trace: seq<Arrival>, i: nat)
    requires i < |trace| && Consults(c, trace[i]) && IS_ACCEPTED(Classify(c, Met(c, window, trace)[i]))
    ensures MarkedAt(c, window, trace, i) ==> trace[i].event.spooled
  {
    hide Observe, MapAfter, Calls;
  }

  // A repeat refers to the one mark of its value in the window.
  lemma OnlyMark(c: Setup, window: int, trace: seq<Arrival>, i: nat, m: nat)
    requires i < |trace| && MonotoneTrace(trace) && 0 <= window && !MarkedAt(c, window, trace, i)
    requires LatestMark(c, window, trace, i, trace[i].value, m) && trace[i].now - trace[m].now <= window
    ensures InSpool(c, window, trace, i) <==> !FailedAfterMark(c, window, trace, i)
  {
    hide MarkedAt;
    assert trace[m].event.spooled ==> StoredAt(c, window, trace, m);
  }

  // Without a failure in between, accepted means stored: the promise that
  // deduplication is for.
  lemma AcceptedIsStored(c: Setup, window: int, trace: seq<Arrival>, i: nat)
    requires i < |trace| && MonotoneTrace(trace) && 0 <= window && !Strings.Blank(trace[i].value)
    requires Consults(c, trace[i]) && IS_ACCEPTED(Classify(c, Met(c, window, trace)[i]))
    requires forall j :: 0 <= j < i && Consults(c, trace[j]) ==> trace[j].event.spooled
    ensures InSpool(c, window, trace, i)
  {
    hide Met, Classify, InSpool, Strings.Blank;
    AcceptedIsStoredIff(c, window, trace, i);
  }

  // Any event that would be stored: sent again within the window after its
  // append failed, it is answered as an accepted duplicate and stored nowhere.
  lemma RetryIsAcceptedUnstored(c: Setup, window: int, a: Arrival, later: int)
    requires 0 <= window && a.now <= later <= a.now + window && !Strings.Blank(a.value) && Consults(c, a)
    ensures var trace := [a.(event := a.event.(spooled := false)), a.(now := later)];
      && Classify(c, Met(c, window, trace)[0]).Rejected?
      && Classify(c, Met(c, window, trace)[1]).Duplicate?
      && !InSpool(c, window, trace, 1)
  {
    var first, again := a.(event := a.event.(spooled := false)), a.(now := later);
    var trace := [first, again];
    assert trace[..0] == [] && trace[..1] == [first];
    SecondIsRepeat(c, window, first, again);
    hide *;
    Verdicts(c, window, [], first);
    Verdicts(c, window, [first], again);
    assert Met(c, window, trace)[0] == Faced(c, window, trace[..0], trace[0]) by { MetAt(c, window, trace, 0); }
    assert Met(c, window, trace)[1] == Faced(c, window, trace[..1], trace[1]) by { MetAt(c, window, trace, 1); }
    NothingStored(c, window, trace);
  }

  lemma MetAt(c: Setup, window: int, trace: seq<Arrival>, i: nat)
    requires i < |trace|
    ensures Met(c, window, trace)[i] == Faced(c, window, trace[..i], trace[i])
  {
    hide Faced;
  }

  lemma SecondIsRepeat(c: Setup, window: int, first: Arrival, again: Arrival)
    requires 0 <= window && first.now <= again.now <= first.now + window && first.value == again.value
    requires !Strings.Blank(first.value) && Consults(c, first) && Consults(c, again)
    ensures Faced(c, window, [], first).duplicate == Some(false)
    ensures Faced(c, window, [first], again).duplicate == Some(true)
  {
    var trace := [first, again];
    var call := Call(first.value, first.now);
    assert trace[..0] == [] && trace[..1] == [first] && [first][..0] == [];
    assert Calls(c, [first]) == [call];
    AnswerAt(c, window, trace, 0);
    AnswerAt(c, window, trace, 1);
    LastOfOne(window, call);
    hide Strings.Blank, Faced, Observe, MapAfter, Consults, LastAccepted;
  }

  lemma NothingStored(c: Setup, window: int, trace: seq<Arrival>)
    requires |trace| == 2 && !trace[0].event.spooled && Faced(c, window, trace[..1], trace[1]).duplicate == Some(true)
    ensures !InSpool(c, window, trace, 1)
  {
    hide Faced, Consults;
  }

  lemma LastOfOne(window: int, call: Call)
    requires !Strings.Blank(call.value)
    ensures LastAccepted(window, [call], call.value) == Some(call.now)
    ensures LastAccepted(window, [], call.value) == None
  {
    hide Strings.Blank;
    assert [call][..0] == [];
  }

  // The verdict on an arrival that consults the map: a repeat is accepted as a
  // duplicate, anything else stands or falls with the spool first.
  lemma Verdicts(c: Setup, window: int, earlier: seq<Arrival>, a: Arrival)
    requires Consults(c, a)
    ensures var v := Classify(c, Faced(c, window, earlier, a));
      var repeat := Faced(c, window, earlier, a).duplicate == Some(true);
      (repeat ==> v.Duplicate?) && (!repeat && !a.event.spooled ==> v.Rejected?)
  {
    hide MapAfter, Calls;
    var e := Faced(c, window, earlier, a);
    assert Rewritten(c, e) == Rewritten(c, a.event);
    assert Classify(c, e) == Deliver(c, e, Rewritten(c, e).value);
    assert e.duplicate == Some(true) || e.duplicate == Some(false);
    assert e.spooled == a.event.spooled;
  }
}
