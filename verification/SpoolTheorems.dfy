// What holds of the spool over every run, and where its guarantees stop.
module SpoolTheorems {
  import opened ByteStrings
  import opened Framing
  import opened SpoolDisk
  import opened SpoolRuns
  import BlobCipher
  import DeliveryQueue

  // ---------- no durable record is lost ----------

  // Record i is still in the file, whole, at or above the checkpoint.
  predicate Kept(s: State, i: nat)
    requires s.base <= |s.log| && i < |s.log|
  {
    && s.base <= i
    && s.disk.pos <= Off(s, i) <= Off(s, i + 1) <= |s.disk.file|
    && s.disk.file[Off(s, i)..Off(s, i + 1)] == s.log[i].line + [NEWLINE]
  }

  lemma UndeliveredIsKept(s: State, i: nat)
    requires DiskInv(s) && s.ck <= i < |s.log|
    ensures Kept(s, i)
  {
    hide Framed, OneLine;
    OffsetStep(s.log[s.base..], i - s.base);
    OffInjective(s, s.ck, i);
    OffInjective(s, i, i + 1);
  }

  // In every run, each stored record was processed without error, or could
  // not be rebuilt from its line and was set aside, or is still in the file
  // above the checkpoint; everything below the checkpoint is of the first two kinds.
  lemma NoDurableRecordLost(cfg: Config, lim: DeliveryQueue.Limits, events: seq<Event>)
    requires forall e :: e in events ==> WritesOneLine(cfg, e)
    requires Run(cfg, lim, events).Some?
    ensures var s := Run(cfg, lim, events).value;
      && s.base <= s.ck <= |s.log| && s.disk.pos == Off(s, s.ck)
      && (forall i: nat :: i < s.ck ==> i in s.done || i in s.skipped)
      && (forall i: nat :: i < |s.log| ==>
           || (i in s.done && PayloadOf(cfg, s.log[i], s.done[i]))
           || (i in s.skipped && !Rebuild(cfg, s.log[i].line).Payload?)
           || Kept(s, i))
  {
    hide Run, Rebuild, Offset, Framed, OneLine;
    RunKeepsInv(cfg, lim, events);
    var s := Run(cfg, lim, events).value;
    hide JobsInv, FlawlessInv;
    forall i: nat | s.ck <= i < |s.log| ensures Kept(s, i) {
      UndeliveredIsKept(s, i);
    }
    forall i: nat | i < s.ck ensures i in s.done || i in s.skipped {
      assert i in s.done.Keys + s.skipped;
    }
  }

  // The record is one line and that line gives its payload back.
  predicate WritesFaithfully(cfg: Config, e: Event) {
    e.Append? ==>
      var line := cfg.StoredLine(e.raw, e.nonce);
      OneLine(line) && Rebuild(cfg, line) == Payload(e.raw)
  }

  lemma EncryptedJsonIsFaithful(cfg: Config, e: Event)
    requires cfg.Encrypted() && cfg.format.Sound() && (e.Append? ==> cfg.jsonValid(e.raw))
    ensures WritesFaithfully(cfg, e)
  {
    if e.Append? {
      hide BlobCipher.EncryptionEnabled, TrimSpace;
      assert cfg.format.OpensAgain(e.raw, cfg.key, e.nonce);
      TrimSpaceFree(cfg.StoredLine(e.raw, e.nonce));
    }
  }

  // The event appends a record and the append succeeds.
  predicate Stores(cfg: Config, lim: DeliveryQueue.Limits, s: State, e: Event) {
    && e.Append? && PassesSizeCheck(lim, e.raw)
    && AppendDisk(cfg, s.disk, e.raw, e.nonce, e.outcome).1.Stored?
  }

  lemma StepLog(cfg: Config, lim: DeliveryQueue.Limits, s: State, e: Event)
    requires Enabled(lim, s, e)
    ensures var t := Next(cfg, lim, s, e);
      if Stores(cfg, lim, s, e)
      then t.log == s.log + [Record(e.raw, cfg.StoredLine(e.raw, e.nonce))]
      else t.log == s.log
  {
    hide AppendDisk, MarkDisk, RestartDisk;
  }

  ghost predicate AllFaithful(cfg: Config, log: seq<Record>) {
    forall r :: r in log ==> Rebuild(cfg, r.line) == Payload(r.payload)
  }

  lemma StepIsFaithful(cfg: Config, lim: DeliveryQueue.Limits, s: State, e: Event)
    requires Enabled(lim, s, e) && AllFaithful(cfg, s.log) && WritesFaithfully(cfg, e)
    ensures AllFaithful(cfg, Next(cfg, lim, s, e).log)
  {
    hide Rebuild, Next, Enabled, AppendDisk, OneLine, BlobCipher.EncryptionEnabled;
    StepLog(cfg, lim, s, e);
  }

  lemma {:induction false} LogIsFaithful(cfg: Config, lim: DeliveryQueue.Limits, events: seq<Event>)
    requires forall e :: e in events ==> WritesFaithfully(cfg, e)
    requires Run(cfg, lim, events).Some?
    ensures AllFaithful(cfg, Run(cfg, lim, events).value.log)
  {
    if events != [] {
      hide Next, Enabled, AllFaithful, WritesFaithfully;
      var n := |events| - 1;
      LogIsFaithful(cfg, lim, events[..n]);
      StepIsFaithful(cfg, lim, Run(cfg, lim, events[..n]).value, events[n]);
    }
  }

  // With encryption on, as validated configurations have it, every JSON event
  // ever stored was processed as it was written or is still in the file.
  lemma EveryEventDeliveredOrKept(cfg: Config, lim: DeliveryQueue.Limits, events: seq<Event>)
    requires cfg.Encrypted() && cfg.format.Sound() && forall e :: e in events && e.Append? ==> cfg.jsonValid(e.raw)
    requires Run(cfg, lim, events).Some?
    ensures var s := Run(cfg, lim, events).value;
      && s.base <= |s.log| && s.skipped == {}
      && forall i: nat :: i < |s.log| ==> (i in s.done && s.done[i] == s.log[i].payload) || Kept(s, i)
  {
    hide Run, Rebuild, Kept, Framed, OneLine, BlobCipher.EncryptionEnabled;
    forall e | e in events ensures WritesFaithfully(cfg, e) {
      EncryptedJsonIsFaithful(cfg, e);
    }
    NoDurableRecordLost(cfg, lim, events);
    LogIsFaithful(cfg, lim, events);
    RunKeepsInv(cfg, lim, events);
    var s := Run(cfg, lim, events).value;
    hide DiskInv, JobsInv, FlawlessInv;
    assert forall i :: 0 <= i < |s.log| ==> s.log[i] in s.log;
    assert forall i :: i !in s.skipped;
  }

  // An acknowledged append is in the log for good, whatever happens next.
  lemma {:induction false} AcknowledgedIsLogged(cfg: Config, lim: DeliveryQueue.Limits, events: seq<Event>, k: nat)
    requires k < |events| && Run(cfg, lim, events).Some? && Run(cfg, lim, events[..k]).Some?
    requires Stores(cfg, lim, Run(cfg, lim, events[..k]).value, events[k])
    ensures var n := |Run(cfg, lim, events[..k]).value.log|;
      var log := Run(cfg, lim, events).value.log;
      n < |log| && log[n] == Record(events[k].raw, cfg.StoredLine(events[k].raw, events[k].nonce))
    decreases |events|
  {
    hide Next, AppendDisk, BlobCipher.EncryptionEnabled;
    var n := |events| - 1;
    if k < n {
      assert events[..n][..k] == events[..k];
      AcknowledgedIsLogged(cfg, lim, events[..n], k);
    }
    StepLog(cfg, lim, Run(cfg, lim, events[..n]).value, events[n]);
  }

  // What is received next is not older than what has been received since the start.
  lemma FrontNotReceived(cfg: Config, lim: DeliveryQueue.Limits, s: State)
    requires s.queue != [] && Inv(cfg, s)
    ensures s.received <= s.queue[0].id
  {
    hide DiskInv, HistoryInv, FlawlessInv, JobOk, Increasing;
    assert s.queue[0] in s.queue + ProducerJobs(s.producer);
  }

  lemma ReceivedGrows(cfg: Config, lim: DeliveryQueue.Limits, s: State, e: Event)
    requires Enabled(lim, s, e) && !e.CrashAndRestart? && Inv(cfg, s)
    ensures s.received <= Next(cfg, lim, s, e).received
    ensures e.Receive? ==> s.queue[0].id < Next(cfg, lim, s, e).received
  {
    hide Inv, AppendDisk, MarkDisk, RestartDisk, Config.StoredLine;
    if e.Receive? { FrontNotReceived(cfg, lim, s); }
  }

  // The record that the worker receives with event i.
  function ReceivedAt(cfg: Config, lim: DeliveryQueue.Limits, events: seq<Event>, i: nat): Option<nat>
    requires i < |events|
  {
    match Run(cfg, lim, events[..i])
    case None => None
    case Some(s) => if events[i].Receive? && Enabled(lim, s, Receive) then Some(s.queue[0].id) else None
  }

  // Every part of a run is a run.
  lemma {:induction false} PrefixRuns(cfg: Config, lim: DeliveryQueue.Limits, events: seq<Event>, i: nat)
    requires i <= |events| && Run(cfg, lim, events).Some?
    ensures Run(cfg, lim, events[..i]).Some?
    ensures i < |events| ==> Enabled(lim, Run(cfg, lim, events[..i]).value, events[i])
    decreases |events|
  {
    hide Next, Enabled;
    var n := |events| - 1;
    if i == |events| {
      assert events[..i] == events;
    } else if i < n {
      PrefixRuns(cfg, lim, events[..n], i);
      assert events[..n][..i] == events[..i];
    }
  }

  lemma {:induction false} ReceivedSince(cfg: Config, lim: DeliveryQueue.Limits, events: seq<Event>, i: nat, j: nat)
    requires i < j <= |events| && forall e :: e in events ==> WritesOneLine(cfg, e)
    requires Run(cfg, lim, events).Some? && ReceivedAt(cfg, lim, events, i).Some?
    requires forall k :: i < k < j ==> !events[k].CrashAndRestart?
    ensures Run(cfg, lim, events[..j]).Some? && ReceivedAt(cfg, lim, events, i).value < Run(cfg, lim, events[..j]).value.received
    decreases j
  {
    hide Next, Enabled, Inv, OneLine;
    var n := j - 1;
    PrefixRuns(cfg, lim, events, j);
    PrefixRuns(cfg, lim, events, n);
    assert events[..j][..n] == events[..n] && events[..j][n] == events[n];
    RunKeepsInv(cfg, lim, events[..n]);
    ReceivedGrows(cfg, lim, Run(cfg, lim, events[..n]).value, events[n]);
    if i < n { ReceivedSince(cfg, lim, events, i, n); }
  }

  // In every run: of two receives with no restart between them, the later
  // one gets the later record. So each start delivers in log order, none twice.
  lemma InOrderOncePerStart(cfg: Config, lim: DeliveryQueue.Limits, events: seq<Event>, i: nat, j: nat)
    requires i < j < |events| && forall e :: e in events ==> WritesOneLine(cfg, e)
    requires Run(cfg, lim, events).Some? && events[i].Receive? && events[j].Receive?
    requires forall k :: i < k < j ==> !events[k].CrashAndRestart?
    ensures var first, second := ReceivedAt(cfg, lim, events, i), ReceivedAt(cfg, lim, events, j);
      first.Some? && second.Some? && first.value < second.value
  {
    PrefixRuns(cfg, lim, events, i);
    PrefixRuns(cfg, lim, events, j);
    hide Run, Inv, OneLine;
    ReceivedSince(cfg, lim, events, i, j);
    RunKeepsInv(cfg, lim, events[..j]);
    FrontNotReceived(cfg, lim, Run(cfg, lim, events[..j]).value);
  }

  // ---------- accounting ----------

  // After every append that stores and every checkpoint that moves, the gauge
  // is the number of unprocessed bytes.
  lemma SpoolBytesExact(cfg: Config, lim: DeliveryQueue.Limits, s: State, e: Event)
    requires Inv(cfg, s) && Enabled(lim, s, e)
    ensures var d := Next(cfg, lim, s, e).disk;
      || Stores(cfg, lim, s, e)
      || (e.Mark? && MarkDisk(s.disk, s.worker.marked.item).1 in {Advanced, Compacted})
      ==> d.spoolBytes == |d.file| - d.pos
  {
    hide Framed, Offset, OneLine, RestartDisk, Config.StoredLine, JobsInv, HistoryInv, FlawlessInv;
    OffsetsInFile(s, s.ck);
  }

  // One append, with `left` octets not yet processed.
  lemma AppendStep(cfg: Config, lim: DeliveryQueue.Limits, s: State, raw: Bytes, nonce: BlobCipher.Nonce, outcome: WriteOutcome, left: nat)
    requires s.producer.Ready? && s.disk.pos <= |s.disk.file| && left == |s.disk.file| - s.disk.pos
    ensures var t, line := Next(cfg, lim, s, Append(raw, nonce, outcome)), cfg.StoredLine(raw, nonce);
      if && !(lim.limiterOn && 0 < lim.maxQueueBytes < |raw|)
         && outcome == Written
         && (cfg.maxSpoolBytes <= 0 || left + |line| + 1 <= cfg.maxSpoolBytes)
      then && t.log == s.log + [Record(raw, line)]
           && t.disk.file == s.disk.file + line + [NEWLINE] && t.disk.pos == s.disk.pos
           && t.producer.Enqueueing? && t.producer.job.item.payload == raw && t.producer.job.id == |s.log|
      else t == s
  {
    hide Config.StoredLine, MarkDisk, RestartDisk, Reopened;
    var line := cfg.StoredLine(raw, nonce);
    assert s.disk.file + (line + [NEWLINE]) == s.disk.file + line + [NEWLINE];
  }

  lemma StoredLineIs(cfg: Config, raw: Bytes, nonce: BlobCipher.Nonce)
    ensures cfg.StoredLine(raw, nonce) == if NotBlank(cfg.key) then cfg.format.encrypt(raw, cfg.key, nonce) else raw
  {
    BlobCipher.EncryptionEnabledIff(cfg.key);
    hide BlobCipher.EncryptionEnabled, NotBlank;
  }

  // In every run an append is stored exactly if the event passes the size check,
  // the write succeeds and the bytes not yet processed leave room for its line;
  // what has been processed does not count. Otherwise nothing changes.
  lemma AppendStoresIff(cfg: Config, lim: DeliveryQueue.Limits, events: seq<Event>, raw: Bytes, nonce: BlobCipher.Nonce, outcome: WriteOutcome)
    requires Run(cfg, lim, events).Some? && Run(cfg, lim, events).value.producer.Ready?
    requires forall e :: e in events ==> WritesOneLine(cfg, e)
    ensures var s := Run(cfg, lim, events).value;
      var t := Next(cfg, lim, s, Append(raw, nonce, outcome));
      var line := if NotBlank(cfg.key) then cfg.format.encrypt(raw, cfg.key, nonce) else raw;
      && s.base <= s.ck <= |s.log|
      && if && !(lim.limiterOn && 0 < lim.maxQueueBytes < |raw|)
            && outcome == Written
            && (cfg.maxSpoolBytes <= 0 || |Framed(s.log[s.ck..])| + |line| + 1 <= cfg.maxSpoolBytes)
         then && t.log == s.log + [Record(raw, line)]
              && t.disk.file == s.disk.file + line + [NEWLINE] && t.disk.pos == s.disk.pos
              && t.producer.Enqueueing? && t.producer.job.item.payload == raw && t.producer.job.id == |s.log|
         else t == s
  {
    RunKeepsInv(cfg, lim, events);
    var s := Run(cfg, lim, events).value;
    assert DiskInv(s);
    hide *;
    CheckpointInLog(s);
    TailOffsets(s, 0);
    StoredLineIs(cfg, raw, nonce);
    AppendStep(cfg, lim, s, raw, nonce, outcome, |Framed(s.log[s.ck..])|);
  }

  lemma CheckpointInLog(s: State)
    requires DiskInv(s)
    ensures s.base <= s.ck <= |s.log|
  {
    hide OneLine, Framed;
  }

  predicate KeepsPosition(e: Event) {
    e.CrashAndRestart? ==> !e.positionLost
  }

  // Unprocessed bytes never exceed max_spool_bytes, as long as the saved
  // position is never lost (a restart from offset 0 counts old bytes again).
  lemma {:induction false} CapacityRespected(cfg: Config, lim: DeliveryQueue.Limits, events: seq<Event>)
    requires forall e :: e in events ==> WritesOneLine(cfg, e)
    requires Run(cfg, lim, events).Some? && 0 < cfg.maxSpoolBytes
    requires forall e :: e in events ==> KeepsPosition(e)
    ensures var d := Run(cfg, lim, events).value.disk; |d.file| - d.pos <= cfg.maxSpoolBytes
  {
    if events != [] {
      hide Next, Inv, OneLine, BlobCipher.EncryptionEnabled;
      var n := |events| - 1;
      CapacityRespected(cfg, lim, events[..n]);
      RunKeepsInv(cfg, lim, events[..n]);
      StaysWithinCapacity(cfg, lim, Run(cfg, lim, events[..n]).value, events[n]);
    }
  }

  lemma StaysWithinCapacity(cfg: Config, lim: DeliveryQueue.Limits, s: State, e: Event)
    requires Inv(cfg, s) && Enabled(lim, s, e) && KeepsPosition(e)
    requires 0 < cfg.maxSpoolBytes && |s.disk.file| - s.disk.pos <= cfg.maxSpoolBytes
    ensures var d := Next(cfg, lim, s, e).disk; |d.file| - d.pos <= cfg.maxSpoolBytes
  {
    hide Framed, Offset, OneLine, Config.StoredLine, JobsInv, HistoryInv, FlawlessInv, ReplayFrom;
    OffsetsInFile(s, s.ck);
  }

  // With nothing in flight and no failure since the last start the spool is empty.
  lemma DrainedSpoolIsEmpty(cfg: Config, lim: DeliveryQueue.Limits, events: seq<Event>)
    requires forall e :: e in events ==> WritesOneLine(cfg, e)
    requires Run(cfg, lim, events).Some?
    requires var s := Run(cfg, lim, events).value; s.flawless && Jobs(s) == []
    ensures Run(cfg, lim, events).value.disk == EMPTY_DISK
  {
    hide Run, OneLine, JobsInv, HistoryInv;
    RunKeepsInv(cfg, lim, events);
    EmptyTail(Run(cfg, lim, events).value);
  }

  // ---------- a crash inside a checkpoint ----------

  lemma FreshFileReplays(cfg: Config, r: Record)
    requires Replayable(cfg, r)
    ensures RestartDisk(cfg, Disk(r.line + [NEWLINE], 0, 0)).1 == Replay([Delivery(r.payload, 0, |r.line| + 1, false)], true)
  {
    hide Rebuild, ReplayFrom;
    var file := r.line + [NEWLINE];
    assert Framed([r]) == file && file[0..] == file;
    assert forall x :: x in [r] ==> x == r;
    ReplayInvertsAppend(cfg, [r], 0);
    assert Appended([r], 0) == [Delivery(r.payload, 0, |r.line| + 1, false)];
  }

  // Whatever the file, a replay starts at the saved offset or not at all.
  lemma ReplayStartsAtOffset(cfg: Config, d: Disk)
    ensures var items := RestartDisk(cfg, d).1.items; items == [] || items[0].start == d.pos
  {
    hide Rebuild;
  }

  // A crash between truncating the file and saving offset 0 leaves an empty
  // file with the old offset. The next record stored survives a restart if and
  // only if that offset was 0.
  lemma TornCompaction(cfg: Config, saved: nat, raw: Bytes, nonce: BlobCipher.Nonce)
    requires Replayable(cfg, Record(raw, cfg.StoredLine(raw, nonce)))
    requires AppendDisk(cfg, Disk([], saved, 0), raw, nonce, Written).1.Stored?
    ensures var (d, r) := AppendDisk(cfg, Disk([], saved, 0), raw, nonce, Written);
      RestartDisk(cfg, d).1 == Replay([r.item], true) <==> saved == 0
  {
    hide Rebuild, ReplayFrom, Config.StoredLine;
    var (d, r) := AppendDisk(cfg, Disk([], saved, 0), raw, nonce, Written);
    var rec := Record(raw, cfg.StoredLine(raw, nonce));
    assert d.file == rec.line + [NEWLINE];
    ReplayStartsAtOffset(cfg, d);
    if saved == 0 {
      FreshFileReplays(cfg, rec);
    }
  }
}
