// Where the spool's pending work stops: a request that waits under spoolMu for
// the delivery queue, and a worker that needs spoolMu for its checkpoint.
module SpoolDeadlock {
  import opened ByteStrings
  import opened Framing
  import opened SpoolDisk
  import opened SpoolRuns
  import BlobCipher
  import DeliveryQueue

  // ---------- every job in flight has a place in the file ----------

  ghost predicate AllDurable(js: seq<Job>) {
    forall j :: j in js ==> j.item.start < j.item.end
  }

  lemma {:induction false} ReplayIsDurable(cfg: Config, data: Bytes, next: nat, size: nat)
    requires next + |data| <= size
    ensures forall d :: d in ReplayFrom(cfg, data, next, size).items ==> d.start < d.end
    decreases |data|
  {
    hide NextLine, Rebuild;
    match NextLine(data, cfg.MaxRecordBytes())
    case Line(text, n) =>
      LineSize(data, cfg.MaxRecordBytes());
      ReplayIsDurable(cfg, data[n..], next + StoredBytes(text, size - next), size);
    case _ =>
  }

  lemma RestartIsDurable(cfg: Config, d: Disk)
    ensures forall x :: x in RestartDisk(cfg, d).1.items ==> x.start < x.end
  {
    hide ReplayFrom;
    if d.pos < |d.file| { ReplayIsDurable(cfg, d.file[d.pos..], d.pos, |d.file|); }
  }

  lemma StepKeepsDurable(cfg: Config, lim: DeliveryQueue.Limits, s: State, e: Event)
    requires Enabled(lim, s, e) && AllDurable(Jobs(s))
    ensures AllDurable(Jobs(Next(cfg, lim, s, e)))
  {
    hide RestartDisk, MarkDisk, Config.StoredLine;
    var t := Next(cfg, lim, s, e);
    match e
    case Append(_, _, _) =>
      if t != s { assert Jobs(t) == Jobs(s) + [t.producer.job]; }
    case Mark =>
      assert Jobs(t) == Jobs(s)[1..];
    case CrashAndRestart(positionLost) =>
      var r := Reopened(s, positionLost);
      var items := RestartDisk(cfg, r.disk).1.items;
      RestartIsDurable(cfg, r.disk);
      assert Jobs(t) == NumberedFrom(items, r.ck);
      assert forall j :: j in Jobs(t) ==> j.item in items;
    case EnqueueCancelled => var from, to := FailureStep(cfg, lim, s, e, t);
    case ProcessFailed => var from, to := FailureStep(cfg, lim, s, e, t);
    case _ => SameInFlight(lim, cfg, s, e, t);
  }

  lemma {:induction false} RunKeepsDurable(cfg: Config, lim: DeliveryQueue.Limits, events: seq<Event>)
    requires Run(cfg, lim, events).Some?
    ensures AllDurable(Jobs(Run(cfg, lim, events).value))
  {
    if events != [] {
      hide Next, Enabled, Jobs, AllDurable;
      var n := |events| - 1;
      RunKeepsDurable(cfg, lim, events[..n]);
      StepKeepsDurable(cfg, lim, Run(cfg, lim, events[..n]).value, events[n]);
    }
  }

  // ---------- when pending work stops ----------

  predicate CanProgress(lim: DeliveryQueue.Limits, s: State) {
    exists e :: e in {Enqueue, Receive, ProcessOk, ProcessFailed, Mark} && Enabled(lim, s, e)
  }

  // A request holds the lock and the channel or the byte budget refuses its
  // record, while the worker holds a record to checkpoint.
  predicate Stuck(lim: DeliveryQueue.Limits, s: State) {
    && s.producer.Enqueueing? && s.worker.Marking?
    && var size, queued := |s.producer.job.item.payload|, QueueBytes(s.queue);
       |s.queue| >= lim.capacity || (lim.limiterOn && 0 < lim.maxQueueBytes < queued + size && 0 < queued)
  }

  // In every run pending work moves on except then; and then nothing at all
  // can happen but that the wait is cancelled or the process ends.
  lemma StuckIff(cfg: Config, lim: DeliveryQueue.Limits, events: seq<Event>)
    requires 0 < lim.capacity && Run(cfg, lim, events).Some? && Jobs(Run(cfg, lim, events).value) != []
    ensures var s := Run(cfg, lim, events).value;
      && (!CanProgress(lim, s) <==> Stuck(lim, s))
      && (Stuck(lim, s) ==> forall e :: Enabled(lim, s, e) ==> e.EnqueueCancelled? || e.CrashAndRestart?)
  {
    hide Run;
    RunKeepsDurable(cfg, lim, events);
    var s := Run(cfg, lim, events).value;
    if s.worker.Busy? { assert Enabled(lim, s, ProcessOk); }
    else if s.worker.Idle? && s.queue != [] { assert Enabled(lim, s, Receive); }
    else if s.worker.Marking? && !s.producer.Enqueueing? { assert Enabled(lim, s, Mark); }
    else if s.worker.Idle? {
      assert QueueBytes([]) == 0;
      var job := Offered(s.producer).value;
      assert job in Jobs(s) by { assert Jobs(s)[0] == job; }
      assert Enabled(lim, s, Enqueue);
    } else {
      var job := s.producer.job;
      assert job in Jobs(s) by { assert Jobs(s)[|Jobs(s)| - 1] == job; }
      assert Enabled(lim, s, Enqueue) <==> HasRoom(lim, s.queue, job);
      assert HasRoom(lim, s.queue, job) <==> !Stuck(lim, s);
    }
  }

  // ---------- every configuration can get there ----------

  // How many records of this size the delivery queue holds.
  function Fitting(lim: DeliveryQueue.Limits, size: nat): nat {
    if lim.Limited() && size > 0 && lim.maxQueueBytes / size < lim.capacity then lim.maxQueueBytes / size else lim.capacity
  }

  lemma RunStep(cfg: Config, lim: DeliveryQueue.Limits, events: seq<Event>, e: Event, s: State)
    requires Run(cfg, lim, events) == Some(s) && Enabled(lim, s, e)
    ensures Run(cfg, lim, events + [e]) == Some(Next(cfg, lim, s, e))
  {
    assert (events + [e])[..|events|] == events;
  }

  // The worker holds one processed record of `line` octets, and i more of
  // `size` octets are queued behind it.
  ghost predicate Filled(s: State, line: nat, size: nat, i: nat) {
    && s.worker.Marking? && s.producer.Ready? && |s.queue| == i
    && (forall j :: j in s.queue ==> |j.item.payload| == size)
    && s.disk.pos == 0 && |s.disk.file| == (i + 1) * line
  }

  lemma {:induction false} UniformBytes(queue: seq<Job>, size: nat)
    requires forall j :: j in queue ==> |j.item.payload| == size
    ensures QueueBytes(queue) == |queue| * size
  {
    if queue != [] { UniformBytes(queue[..|queue| - 1], size); }
  }

  // The i-th record is let in exactly while fewer than Fitting are queued.
  lemma RoomIff(lim: DeliveryQueue.Limits, queue: seq<Job>, job: Job)
    requires job.item.start < job.item.end && (lim.Limited() ==> |job.item.payload| <= lim.maxQueueBytes)
    requires forall j :: j in queue ==> |j.item.payload| == |job.item.payload|
    ensures HasRoom(lim, queue, job) <==> |queue| < Fitting(lim, |job.item.payload|)
  {
    var i, size := |queue|, |job.item.payload|;
    UniformBytes(queue, size);
    if lim.Limited() && size > 0 { Quotient(lim.maxQueueBytes, size, i); }
  }

  lemma Quotient(max: nat, size: nat, i: nat)
    requires 0 < size <= max
    ensures i < max / size <==> i * size + size <= max
    ensures 1 <= max / size && (i * size == 0 <==> i == 0)
  {
    var q := max / size;
    assert max == q * size + max % size;
    if i < q { assert (i + 1) * size <= q * size; }
    if q <= i { assert q * size <= i * size; }
  }

  // What one append does while the worker waits at its checkpoint.
  lemma AppendOne(cfg: Config, lim: DeliveryQueue.Limits, s: State, raw: Bytes, nonce: BlobCipher.Nonce, i: nat)
    requires PassesSizeCheck(lim, raw) && s.producer.Ready?
    requires s.disk.pos == 0 && |s.disk.file| == i * (|cfg.StoredLine(raw, nonce)| + 1)
    requires cfg.maxSpoolBytes <= 0 || (i + 1) * (|cfg.StoredLine(raw, nonce)| + 1) <= cfg.maxSpoolBytes
    ensures var t := Next(cfg, lim, s, Append(raw, nonce, Written));
      && t.producer.Enqueueing? && t.producer.job.item.payload == raw && t.producer.job.item.start < t.producer.job.item.end
      && !t.producer.job.item.skip
      && t.worker == s.worker && t.queue == s.queue
      && t.disk.pos == 0 && |t.disk.file| == (i + 1) * (|cfg.StoredLine(raw, nonce)| + 1)
  {
    hide Config.StoredLine;
  }

  lemma FirstDelivered(cfg: Config, lim: DeliveryQueue.Limits, raw: Bytes, nonce: BlobCipher.Nonce)
    requires 0 < lim.capacity && PassesSizeCheck(lim, raw)
    requires cfg.maxSpoolBytes <= 0 || |cfg.StoredLine(raw, nonce)| + 1 <= cfg.maxSpoolBytes
    ensures var r := Run(cfg, lim, [Append(raw, nonce, Written), Enqueue, Receive, ProcessOk]);
      r.Some? && Filled(r.value, |cfg.StoredLine(raw, nonce)| + 1, |raw|, 0)
  {
    var a := Append(raw, nonce, Written);
    assert Run(cfg, lim, []) == Some(INITIAL);
    hide Config.StoredLine, Run, MarkDisk, RestartDisk, AppendDisk;
    AppendOne(cfg, lim, INITIAL, raw, nonce, 0);
    var s1 := Next(cfg, lim, INITIAL, a);
    assert HasRoom(lim, [], s1.producer.job);
    var s2 := Next(cfg, lim, s1, Enqueue);
    var s3 := Next(cfg, lim, s2, Receive);
    assert [] + [a] == [a] && [a] + [Enqueue] == [a, Enqueue];
    assert [a, Enqueue] + [Receive] == [a, Enqueue, Receive];
    assert [a, Enqueue, Receive] + [ProcessOk] == [a, Enqueue, Receive, ProcessOk];
    RunStep(cfg, lim, [], a, INITIAL);
    RunStep(cfg, lim, [a], Enqueue, s1);
    RunStep(cfg, lim, [a, Enqueue], Receive, s2);
    RunStep(cfg, lim, [a, Enqueue, Receive], ProcessOk, s3);
  }

  lemma {:induction false} FillQueue(cfg: Config, lim: DeliveryQueue.Limits, raw: Bytes, nonce: BlobCipher.Nonce, i: nat)
    returns (events: seq<Event>)
    requires 0 < lim.capacity && PassesSizeCheck(lim, raw) && i <= Fitting(lim, |raw|)
    requires cfg.maxSpoolBytes <= 0 || (i + 1) * (|cfg.StoredLine(raw, nonce)| + 1) <= cfg.maxSpoolBytes
    ensures Run(cfg, lim, events).Some?
    ensures Filled(Run(cfg, lim, events).value, |cfg.StoredLine(raw, nonce)| + 1, |raw|, i)
  {
    if i == 0 {
      FirstDelivered(cfg, lim, raw, nonce);
      events := [Append(raw, nonce, Written), Enqueue, Receive, ProcessOk];
    } else {
      hide Config.StoredLine, Run, MarkDisk, RestartDisk, AppendDisk, Fitting;
      events := FillQueue(cfg, lim, raw, nonce, i - 1);
      var a := Append(raw, nonce, Written);
      var s := Run(cfg, lim, events).value;
      AppendOne(cfg, lim, s, raw, nonce, i);
      RunStep(cfg, lim, events, a, s);
      var t := Next(cfg, lim, s, a);
      RoomIff(lim, t.queue, t.producer.job);
      RunStep(cfg, lim, events + [a], Enqueue, t);
      events := events + [a] + [Enqueue];
    }
  }

  // For every channel size, byte budget and record that passes the up-front
  // check, with spool room for two records more than the queue holds: one
  // record processed, as many queued as fit, and one more appended. With
  // Fitting below the capacity it is the byte budget that refuses the last.
  lemma StuckIsReachable(cfg: Config, lim: DeliveryQueue.Limits, raw: Bytes, nonce: BlobCipher.Nonce)
    returns (events: seq<Event>)
    requires 0 < lim.capacity && PassesSizeCheck(lim, raw)
    requires cfg.maxSpoolBytes <= 0
          || (Fitting(lim, |raw|) + 2) * (|cfg.StoredLine(raw, nonce)| + 1) <= cfg.maxSpoolBytes
    ensures Run(cfg, lim, events).Some?
    ensures var s := Run(cfg, lim, events).value;
      Jobs(s) != [] && Stuck(lim, s) && !CanProgress(lim, s) && |s.queue| == Fitting(lim, |raw|)
  {
    hide Config.StoredLine, Run, MarkDisk, RestartDisk, AppendDisk, Fitting;
    var n := Fitting(lim, |raw|);
    events := FillQueue(cfg, lim, raw, nonce, n);
    var a := Append(raw, nonce, Written);
    var s := Run(cfg, lim, events).value;
    AppendOne(cfg, lim, s, raw, nonce, n + 1);
    RunStep(cfg, lim, events, a, s);
    var t := Next(cfg, lim, s, a);
    RoomIff(lim, t.queue, t.producer.job);
    events := events + [a];
    StuckIff(cfg, lim, events);
  }
}
