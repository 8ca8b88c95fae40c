// The asynchronous bridge to Cortex (cortex_bridge.go): producers offer events
// to a bounded channel, one loop batches them and hands batches on.
module CortexBridge {
  import opened ByteStrings

  datatype Settings = Settings(queueSize: int, batchSize: int)
  {
    function QueueSize(): (n: nat)
      ensures 0 < n
    {
      if queueSize <= 0 then 4096 else queueSize
    }

    function BatchSize(): (n: nat)
      ensures 0 < n
    {
      if batchSize <= 0 then 128 else batchSize
    }
  }

  // A batch handed to sendBatch and whether the call succeeded.
  datatype Flushed = Flushed(batch: seq<Bytes>, ok: bool)

  // sent and enqueued are the history of the run.
  datatype Bridge = Bridge(
    queue: seq<Bytes>, batch: seq<Bytes>, closed: bool, stopped: bool,
    flushes: nat, events: nat, errors: nat,
    sent: seq<Flushed>, enqueued: seq<Bytes>)

  const INITIAL := Bridge([], [], false, false, 0, 0, 0, [], [])

  // ok: how sendBatch answers if the step flushes.
  datatype Step = Offer(raw: Bytes) | Receive(ok: bool) | Tick(ok: bool) | CloseQueue | Finish(ok: bool)

  function Flush(b: Bridge, ok: bool): Bridge {
    if b.batch == [] then b
    else
      var t := b.(batch := [], sent := b.sent + [Flushed(b.batch, ok)]);
      if ok then t.(flushes := b.flushes + 1, events := b.events + |b.batch|) else t.(errors := b.errors + 1)
  }

  predicate Enabled(b: Bridge, e: Step) {
    match e
    case Offer(_) => !b.closed
    case Receive(_) => !b.stopped && b.queue != []
    case Tick(_) => !b.stopped
    case CloseQueue => !b.closed
    case Finish(_) => b.closed && b.queue == [] && !b.stopped
  }

  // An offer to a full channel is refused and counted.
  function Next(s: Settings, b: Bridge, e: Step): Bridge
    requires Enabled(b, e)
  {
    match e
    case Offer(raw) =>
      if |b.queue| < s.QueueSize() then b.(queue := b.queue + [raw], enqueued := b.enqueued + [raw])
      else b.(errors := b.errors + 1)
    case Receive(ok) =>
      var t := b.(queue := b.queue[1..], batch := b.batch + [b.queue[0]]);
      if |t.batch| >= s.BatchSize() then Flush(t, ok) else t
    case Tick(ok) => Flush(b, ok)
    case CloseQueue => b.(closed := true)
    case Finish(ok) => Flush(b, ok).(stopped := true)
  }

  function Run(s: Settings, steps: seq<Step>): Option<Bridge> {
    if steps == [] then Some(INITIAL)
    else
      match Run(s, steps[..|steps| - 1])
      case None => None
      case Some(b) => if Enabled(b, steps[|steps| - 1]) then Some(Next(s, b, steps[|steps| - 1])) else None
  }

  // ---------- conservation ----------

  function Concat(sent: seq<Flushed>): seq<Bytes> {
    if sent == [] then [] else Concat(sent[..|sent| - 1]) + sent[|sent| - 1].batch
  }

  function Succeeded(sent: seq<Flushed>): nat {
    if sent == [] then 0 else Succeeded(sent[..|sent| - 1]) + if sent[|sent| - 1].ok then |sent[|sent| - 1].batch| else 0
  }

  // Handed on, then batched, then queued: exactly what was enqueued, in order.
  predicate Inv(s: Settings, b: Bridge) {
    && Concat(b.sent) + b.batch + b.queue == b.enqueued
    && (forall f :: f in b.sent ==> 1 <= |f.batch| <= s.BatchSize())
    && |b.batch| < s.BatchSize()
    && |b.queue| <= s.QueueSize()
    && b.events == Succeeded(b.sent)
    && (b.stopped ==> b.queue == [] && b.batch == [] && b.closed)
  }

  lemma FlushKeeps(b: Bridge, ok: bool)
    ensures var t := Flush(b, ok);
      && t.batch == [] && Concat(t.sent) == Concat(b.sent) + b.batch
      && (b.events == Succeeded(b.sent) ==> t.events == Succeeded(t.sent))
      && (forall f :: f in t.sent ==> f in b.sent || (f.batch == b.batch && f.batch != []))
      && t.queue == b.queue && t.enqueued == b.enqueued && t.closed == b.closed && t.stopped == b.stopped
  {
    if b.batch != [] {
      var t := Flush(b, ok);
      assert t.sent[..|t.sent| - 1] == b.sent;
    }
  }

  lemma StepKeeps(s: Settings, b: Bridge, e: Step)
    requires Inv(s, b) && Enabled(b, e)
    ensures Inv(s, Next(s, b, e))
  {
    hide Flush, Concat, Succeeded;
    var handed := Concat(b.sent);
    match e
    case Receive(ok) =>
      var t := b.(queue := b.queue[1..], batch := b.batch + [b.queue[0]]);
      assert handed + t.batch + t.queue == handed + b.batch + b.queue;
      FlushKeeps(t, ok);
      assert (handed + t.batch) + [] + t.queue == handed + t.batch + t.queue;
    case Tick(ok) =>
      FlushKeeps(b, ok);
      assert (handed + b.batch) + [] + b.queue == handed + b.batch + b.queue;
    case Finish(ok) =>
      FlushKeeps(b, ok);
      assert (handed + b.batch) + [] + b.queue == handed + b.batch + b.queue;
    case Offer(raw) =>
      assert handed + b.batch + (b.queue + [raw]) == handed + b.batch + b.queue + [raw];
    case CloseQueue =>
  }

  lemma {:induction false} RunKeeps(s: Settings, steps: seq<Step>)
    requires Run(s, steps).Some?
    ensures Inv(s, Run(s, steps).value)
  {
    if steps != [] {
      hide Inv, Next, Enabled;
      var n := |steps| - 1;
      RunKeeps(s, steps[..n]);
      StepKeeps(s, Run(s, steps[..n]).value, steps[n]);
    }
  }

  // Over every run: first in, first out, nothing dropped or duplicated between
  // the channel and sendBatch; batches are non-empty and bounded.
  lemma FifoConserving(s: Settings, steps: seq<Step>)
    requires Run(s, steps).Some?
    ensures var b := Run(s, steps).value;
      && Concat(b.sent) + b.batch + b.queue == b.enqueued
      && (forall f :: f in b.sent ==> 1 <= |f.batch| <= s.BatchSize())
      && b.events == Succeeded(b.sent)
  {
    RunKeeps(s, steps);
  }

  // ---------- step by step ----------

  // An event offered is enqueued exactly if the channel, 4096 events unless
  // set, has room; otherwise an error is counted and nothing else changes.
  lemma OfferIff(s: Settings, b: Bridge, raw: Bytes)
    requires !b.closed
    ensures var t := Next(s, b, Offer(raw));
      var size := if s.queueSize > 0 then s.queueSize else 4096;
      if |b.queue| < size then t.queue == b.queue + [raw] && t.enqueued == b.enqueued + [raw] && t.errors == b.errors
      else t == b.(errors := b.errors + 1)
  {
  }

  // The first queued event joins the batch, which is handed on exactly if it
  // then has the batch size, 128 unless set.
  lemma ReceiveIff(s: Settings, b: Bridge, ok: bool)
    requires !b.stopped && b.queue != []
    ensures var t := Next(s, b, Receive(ok));
      var batch, size := b.batch + [b.queue[0]], if s.batchSize > 0 then s.batchSize else 128;
      && t.queue == b.queue[1..]
      && if |batch| >= size then t.batch == [] && t.sent == b.sent + [Flushed(batch, ok)] else t.batch == batch && t.sent == b.sent
  {
  }

  // The ticker hands on whatever is batched, so nothing waits longer than one
  // tick in the batch; success and failure are counted.
  lemma TickIff(s: Settings, b: Bridge, ok: bool)
    requires !b.stopped
    ensures var t := Next(s, b, Tick(ok));
      if b.batch == [] then t == b
      else
        && t.batch == [] && t.queue == b.queue && t.sent == b.sent + [Flushed(b.batch, ok)]
        && t.flushes == b.flushes + (if ok then 1 else 0) && t.events == b.events + (if ok then |b.batch| else 0)
        && t.errors == b.errors + if ok then 0 else 1
  {
  }

  // Once the loop has stopped, everything enqueued has been handed on.
  lemma CloseDrains(s: Settings, steps: seq<Step>)
    requires Run(s, steps).Some? && Run(s, steps).value.stopped
    ensures var b := Run(s, steps).value; b.queue == [] && b.batch == [] && Concat(b.sent) == b.enqueued
  {
    RunKeeps(s, steps);
    var b := Run(s, steps).value;
    assert Concat(b.sent) + [] + [] == Concat(b.sent);
  }

  // ---------- the object ----------

  class CortexBridgeClient {
    const settings: Settings
    var queue: seq<Bytes>
    var batch: seq<Bytes>
    var closed: bool
    var stopped: bool
    var flushes: nat
    var events: nat
    var errors: nat
    ghost var sent: seq<Flushed>
    ghost var enqueued: seq<Bytes>

    ghost function Contents(): Bridge
      reads this
    {
      Bridge(queue, batch, closed, stopped, flushes, events, errors, sent, enqueued)
    }

    constructor (settings: Settings)
      ensures this.settings == settings && Contents() == INITIAL
    {
      this.settings := settings;
      queue, batch, closed, stopped := [], [], false, false;
      flushes, events, errors := 0, 0, 0;
      sent, enqueued := [], [];
    }

    // Deliver in async mode: copies go in until the channel is full.
    method Deliver(raws: seq<Bytes>) returns (ok: bool)
      requires !closed && |queue| <= settings.QueueSize()
      modifies this
      ensures var room := settings.QueueSize() - old(|queue|);
        var taken := if |raws| <= room then raws else raws[..room];
        && (ok <==> |raws| <= room)
        && Contents() == old(Contents()).(queue := old(queue) + taken, enqueued := old(enqueued) + taken,
                                          errors := old(errors) + if ok then 0 else 1)
    {
      for i := 0 to |raws|
        invariant i <= settings.QueueSize() - old(|queue|)
        invariant Contents() == old(Contents()).(queue := old(queue) + raws[..i], enqueued := old(enqueued) + raws[..i])
      {
        assert raws[..i + 1] == raws[..i] + [raws[i]];
        if |queue| < settings.QueueSize() {
          queue := queue + [raws[i]];
          enqueued := enqueued + [raws[i]];
        } else {
          errors := errors + 1;
          return false;
        }
      }
      assert raws[..|raws|] == raws;
      ok := true;
    }

    method FlushBatch(sendOk: bool)
      modifies this
      ensures Contents() == Flush(old(Contents()), sendOk)
    {
      if |batch| == 0 {
        return;
      }
      sent := sent + [Flushed(batch, sendOk)];
      if !sendOk {
        errors := errors + 1;
      } else {
        flushes := flushes + 1;
        events := events + |batch|;
      }
      batch := [];
    }

    // One pass of the run loop: an event arrives, or the ticker fires.
    method ReceiveOne(sendOk: bool)
      requires !stopped && queue != []
      modifies this
      ensures Contents() == Next(settings, old(Contents()), Receive(sendOk))
    {
      batch := batch + [queue[0]];
      queue := queue[1..];
      if |batch| >= settings.BatchSize() {
        FlushBatch(sendOk);
      }
    }

    method OnTick(sendOk: bool)
      requires !stopped
      modifies this
      ensures Contents() == Next(settings, old(Contents()), Tick(sendOk))
    {
      FlushBatch(sendOk);
    }

    // Close: the loop drains the closed channel, flushes and ends.
    method CloseAndWait(sendOk: nat -> bool)
      requires !closed && !stopped && Inv(settings, Contents())
      modifies this
      ensures Inv(settings, Contents()) && stopped && queue == [] && batch == []
      ensures enqueued == old(enqueued) && Concat(sent) == enqueued
    {
      hide Inv, Flush, Concat;
      closed := true;
      StepKeeps(settings, old(Contents()), CloseQueue);
      while queue != []
        invariant closed && !stopped && Inv(settings, Contents()) && enqueued == old(enqueued)
        decreases |queue|
      {
        StepKeeps(settings, Contents(), Receive(sendOk(|queue|)));
        FlushKeeps(Contents().(queue := queue[1..], batch := batch + [queue[0]]), sendOk(|queue|));
        ReceiveOne(sendOk(|queue|));
      }
      StepKeeps(settings, Contents(), Finish(sendOk(0)));
      FlushKeeps(Contents(), sendOk(0));
      FlushBatch(sendOk(0));
      stopped := true;
      Drained(settings, Contents());
    }
  }

  lemma Drained(s: Settings, b: Bridge)
    requires Inv(s, b) && b.queue == [] && b.batch == []
    ensures Concat(b.sent) == b.enqueued
  {
    assert Concat(b.sent) + [] + [] == Concat(b.sent);
  }
}
