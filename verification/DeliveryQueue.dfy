// The byte budget of the delivery channel at the grain of its atomic
// operations: one enqueuer at a time (spoolMu, or the replay loop) with its
// compare-and-swap loop, and the worker with its release. deliverySpace is a
// one-slot channel: a token or nothing.
module DeliveryQueue {
  import opened ByteStrings

  datatype Limits = Limits(limiterOn: bool, maxQueueBytes: int, capacity: nat)
  {
    predicate Limited() {
      limiterOn && maxQueueBytes > 0
    }

    predicate Admits(item: Item, current: int) {
      !Limited() || current + item.size <= maxQueueBytes || (item.durable && current == 0)
    }

    // Items without a place in the spool file are refused up front when too big.
    predicate Acceptable(item: Item) {
      item.durable || !Limited() || item.size <= maxQueueBytes
    }
  }

  datatype Item = Item(size: nat, durable: bool)

  datatype Enqueuer =
    | Out
    | Looping(item: Item)
    | Loaded(item: Item, current: int)
    | Waiting(item: Item, current: int)
    | Sending(item: Item)
    | GivingBack

  datatype Worker = Receiving | Holding(size: nat) | Signalling | Working

  datatype State = State(queueBytes: int, channel: seq<nat>, token: bool, enqueuer: Enqueuer, worker: Worker)

  const INITIAL := State(0, [], false, Out, Receiving)

  datatype Event =
    | Begin(item: Item)
    | Load
    | Attempt
    | Wake
    | CancelWait
    | Send
    | CancelSend
    | SignalBack
    | Receive
    | Release
    | Signal
    | Finish

  predicate Enabled(lim: Limits, s: State, e: Event) {
    match e
    case Begin(_) => s.enqueuer.Out?
    case Load => s.enqueuer.Looping?
    case Attempt => s.enqueuer.Loaded?
    case Wake => s.enqueuer.Waiting? && s.token
    case CancelWait => s.enqueuer.Waiting?
    case Send => s.enqueuer.Sending? && (|s.channel| < lim.capacity || (lim.capacity == 0 && s.channel == [] && s.worker.Receiving?))
    case CancelSend => s.enqueuer.Sending?
    case SignalBack => s.enqueuer.GivingBack?
    case Receive => s.worker.Receiving? && s.channel != []
    case Release => s.worker.Holding?
    case Signal => s.worker.Signalling?
    case Finish => s.worker.Working?
  }

  function Next(lim: Limits, s: State, e: Event): State
    requires Enabled(lim, s, e)
  {
    match e
    case Begin(item) => if lim.Acceptable(item) then s.(enqueuer := Looping(item)) else s
    case Load => s.(enqueuer := Loaded(s.enqueuer.item, s.queueBytes))
    case Attempt =>
      var Loaded(item, current) := s.enqueuer;
      if !lim.Admits(item, current) then s.(enqueuer := Waiting(item, current))
      else if s.queueBytes == current then s.(queueBytes := current + item.size, enqueuer := Sending(item))
      else s.(enqueuer := Looping(item))
    case Wake => s.(token := false, enqueuer := Looping(s.enqueuer.item))
    case CancelWait => s.(enqueuer := Out)
    case Send =>
      if lim.capacity == 0 then s.(worker := Holding(s.enqueuer.item.size), enqueuer := Out)
      else s.(channel := s.channel + [s.enqueuer.item.size], enqueuer := Out)
    case CancelSend => s.(queueBytes := s.queueBytes - s.enqueuer.item.size, enqueuer := GivingBack)
    case SignalBack => s.(token := true, enqueuer := Out)
    case Receive => s.(channel := s.channel[1..], worker := Holding(s.channel[0]))
    case Release => s.(queueBytes := s.queueBytes - s.worker.size, worker := Signalling)
    case Signal => s.(token := true, worker := Working)
    case Finish => s.(worker := Receiving)
  }

  function Run(lim: Limits, events: seq<Event>): Option<State> {
    if events == [] then Some(INITIAL)
    else
      match Run(lim, events[..|events| - 1])
      case None => None
      case Some(s) =>
        var e := events[|events| - 1];
        if Enabled(lim, s, e) then Some(Next(lim, s, e)) else None
  }

  // ---------- what is outstanding ----------

  // Sizes reserved and not yet released, in channel order.
  function Outstanding(s: State): seq<nat> {
    (if s.worker.Holding? then [s.worker.size] else []) + s.channel
      + (if s.enqueuer.Sending? then [s.enqueuer.item.size] else [])
  }

  function Sum(sizes: seq<nat>): nat {
    if sizes == [] then 0 else sizes[0] + Sum(sizes[1..])
  }

  function NonEmpty(sizes: seq<nat>): nat {
    if sizes == [] then 0 else (if sizes[0] > 0 then 1 else 0) + NonEmpty(sizes[1..])
  }

  lemma {:induction false} Appended(sizes: seq<nat>, n: nat)
    ensures Sum(sizes + [n]) == Sum(sizes) + n
    ensures NonEmpty(sizes + [n]) == NonEmpty(sizes) + if n > 0 then 1 else 0
  {
    if sizes != [] {
      assert (sizes + [n])[1..] == sizes[1..] + [n];
      Appended(sizes[1..], n);
    }
  }

  lemma {:induction false} NoneNonEmpty(sizes: seq<nat>)
    ensures NonEmpty(sizes) == 0 <==> Sum(sizes) == 0
  {
    if sizes != [] { NoneNonEmpty(sizes[1..]); }
  }

  // ---------- the invariant ----------

  predicate WithinBudget(lim: Limits, s: State) {
    lim.Limited() ==> s.queueBytes <= lim.maxQueueBytes || NonEmpty(Outstanding(s)) == 1
  }

  // The enqueuer has looked at the counter: if it has dropped since, it is told.
  predicate Told(s: State, current: int) {
    s.queueBytes <= current && (s.queueBytes < current ==> s.token || s.worker.Signalling?)
  }

  predicate EnqueuerInv(lim: Limits, s: State) {
    match s.enqueuer
    case Out => true
    case Looping(item) => lim.Acceptable(item)
    case Loaded(item, current) => lim.Acceptable(item) && Told(s, current)
    case Waiting(item, current) => lim.Acceptable(item) && Told(s, current) && !lim.Admits(item, current)
    case Sending(_) => true
    case GivingBack => true
  }

  predicate Inv(lim: Limits, s: State) {
    && s.queueBytes == Sum(Outstanding(s))
    && WithinBudget(lim, s)
    && EnqueuerInv(lim, s)
  }

  // A step adds one size at the end, takes one off either end, or keeps all.
  lemma OutstandingStep(lim: Limits, s: State, e: Event, t: State)
    requires Enabled(lim, s, e) && t == Next(lim, s, e)
    ensures e.Attempt? && t.enqueuer.Sending? ==>
      && Outstanding(t) == Outstanding(s) + [s.enqueuer.item.size] && t.queueBytes == s.queueBytes + s.enqueuer.item.size
      && s.queueBytes == s.enqueuer.current && lim.Admits(s.enqueuer.item, s.queueBytes)
    ensures e.CancelSend? ==>
      Outstanding(s) == Outstanding(t) + [s.enqueuer.item.size] && t.queueBytes == s.queueBytes - s.enqueuer.item.size
    ensures e.Release? ==>
      Outstanding(s) == [s.worker.size] + Outstanding(t) && t.queueBytes == s.queueBytes - s.worker.size
    ensures !(e.Attempt? && t.enqueuer.Sending?) && !e.CancelSend? && !e.Release? ==>
      Outstanding(t) == Outstanding(s) && t.queueBytes == s.queueBytes
  {
  }

  predicate Counted(lim: Limits, s: State) {
    s.queueBytes == Sum(Outstanding(s)) && WithinBudget(lim, s)
  }

  lemma StepKeepsCount(lim: Limits, s: State, e: Event, t: State)
    requires Enabled(lim, s, e) && t == Next(lim, s, e) && Inv(lim, s)
    ensures Counted(lim, t)
  {
    OutstandingStep(lim, s, e, t);
    hide Outstanding, Next, Enabled;
    var before, after := Outstanding(s), Outstanding(t);
    NoneNonEmpty(before);
    NoneNonEmpty(after);
    if e.Attempt? && t.enqueuer.Sending? {
      hide EnqueuerInv;
      Appended(before, s.enqueuer.item.size);
    } else if e.CancelSend? {
      Appended(after, s.enqueuer.item.size);
    } else if e.Release? {
      assert before[0] == s.worker.size && before[1..] == after;
    }
  }

  // The counter drops only when the worker releases, and then it is signalling,
  // or when the enqueuer itself gives up, and then it has nothing loaded.
  lemma StepKeepsEnqueuer(lim: Limits, s: State, e: Event, t: State)
    requires Enabled(lim, s, e) && t == Next(lim, s, e) && EnqueuerInv(lim, s)
    ensures EnqueuerInv(lim, t)
  {
  }

  lemma StepKeepsInv(lim: Limits, s: State, e: Event)
    requires Inv(lim, s) && Enabled(lim, s, e)
    ensures Inv(lim, Next(lim, s, e))
  {
    StepKeepsCount(lim, s, e, Next(lim, s, e));
    StepKeepsEnqueuer(lim, s, e, Next(lim, s, e));
    hide Next, WithinBudget, EnqueuerInv;
  }

  lemma {:induction false} RunKeepsInv(lim: Limits, events: seq<Event>)
    requires Run(lim, events).Some?
    ensures Inv(lim, Run(lim, events).value)
  {
    if events != [] {
      hide Inv, Next, Enabled;
      var n := |events| - 1;
      RunKeepsInv(lim, events[..n]);
      StepKeepsInv(lim, Run(lim, events[..n]).value, events[n]);
    } else {
      assert Outstanding(INITIAL) == [];
    }
  }

  // ---------- the promises ----------

  // queueBytes is exactly what is outstanding, and over the limit only while
  // a single non-empty item is.
  lemma ByteAccounting(lim: Limits, events: seq<Event>)
    requires Run(lim, events).Some?
    ensures var s := Run(lim, events).value;
      && s.queueBytes == Sum(Outstanding(s))
      && (lim.limiterOn && 0 < lim.maxQueueBytes < s.queueBytes ==> NonEmpty(Outstanding(s)) == 1)
  {
    RunKeepsInv(lim, events);
  }

  // A drop of the counter since the waiter's last look is never missed.
  lemma NoLostWakeup(lim: Limits, events: seq<Event>)
    requires Run(lim, events).Some? && Run(lim, events).value.enqueuer.Waiting?
    ensures var s := Run(lim, events).value;
      s.queueBytes < s.enqueuer.current ==> s.token || s.worker.Signalling?
  {
    RunKeepsInv(lim, events);
  }

  // In particular a waiter that would be admitted now has been told or is
  // about to be, and no waiter is left with nothing outstanding to wake it.
  lemma WaiterNotStranded(lim: Limits, events: seq<Event>)
    requires Run(lim, events).Some? && Run(lim, events).value.enqueuer.Waiting?
    ensures var s := Run(lim, events).value;
      && (|| !lim.limiterOn || lim.maxQueueBytes <= 0
          || s.queueBytes + s.enqueuer.item.size <= lim.maxQueueBytes
          || (s.enqueuer.item.durable && s.queueBytes == 0)
          ==> s.token || s.worker.Signalling?)
      && (s.token || s.worker.Signalling? || s.worker.Holding? || s.channel != [])
  {
    RunKeepsInv(lim, events);
    var s := Run(lim, events).value;
    if !s.worker.Holding? && s.channel == [] {
      assert Outstanding(s) == [];
    }
  }

  // In every run an enqueuer waits only for a reason: with the limiter on, the
  // counter it saw left no room, and its item was not a durable one met by an
  // empty queue.
  lemma WaitsOnlyWhenFull(lim: Limits, events: seq<Event>)
    requires Run(lim, events).Some? && Run(lim, events).value.enqueuer.Waiting?
    ensures var Waiting(item, current) := Run(lim, events).value.enqueuer;
      lim.limiterOn && 0 < lim.maxQueueBytes < current + item.size && !(item.durable && current == 0)
  {
    RunKeepsInv(lim, events);
  }

  // Refused up front are exactly the items without a place in the file that
  // the whole budget could not hold.
  lemma RefusedIff(lim: Limits, s: State, item: Item)
    requires s.enqueuer.Out?
    ensures Next(lim, s, Begin(item)) == s <==> !item.durable && lim.limiterOn && 0 < lim.maxQueueBytes < item.size
  {
  }

  // The one-slot channel: a signal leaves a token whether or not one was
  // there, a wake-up takes it, and nothing else touches it.
  lemma TokenStep(lim: Limits, s: State, e: Event)
    requires Enabled(lim, s, e)
    ensures Next(lim, s, e).token == if e.Signal? || e.SignalBack? then true else if e.Wake? then false else s.token
    ensures e.Wake? ==> s.token
  {
  }
}
