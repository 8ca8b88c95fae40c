// Runs of the spool: one producer (replay at start-up, later the request that
// holds spoolMu), the delivery queue bounded in records and bytes, the single
// worker, and crashes at any point. Each spoolMu critical section is one step.
// The history fields log, base, ck, done, skipped and received record what
// happened and steer nothing.
module SpoolRuns {
  import opened ByteStrings
  import opened Framing
  import opened SpoolDisk
  import BlobCipher
  import DeliveryQueue

  // A delivery together with the number of the record it came from.
  datatype Job = Job(item: Delivery, id: nat)

  datatype Worker = Idle | Busy(job: Job) | Marking(marked: Job)

  // Enqueueing holds spoolMu; Replaying does not.
  datatype Producer = Ready | Enqueueing(job: Job) | Replaying(todo: seq<Job>)

  datatype State = State(
    disk: Disk,
    log: seq<Record>,        // every record ever stored, oldest first
    base: nat,               // records before base were compacted away
    ck: nat,                 // records before ck lie below the checkpoint
    done: map<nat, Bytes>,   // what Process was given when it returned no error
    skipped: set<nat>,       // records that replay could not rebuild
    received: nat,           // records from here on have not been received since the last start
    queue: seq<Job>,
    worker: Worker,
    producer: Producer,
    flawless: bool)          // no enqueue, Process or scan failed since the last start

  const INITIAL := State(EMPTY_DISK, [], 0, 0, map[], {}, 0, [], Idle, Ready, true)

  datatype Event =
    | Append(raw: Bytes, nonce: BlobCipher.Nonce, outcome: WriteOutcome)
    | Enqueue
    | EnqueueCancelled
    | Receive
    | ProcessOk
    | ProcessFailed
    | Mark
    | CrashAndRestart(positionLost: bool)

  // The job that the producer hands over next.
  function Offered(p: Producer): Option<Job> {
    match p
    case Ready => None
    case Enqueueing(job) => Some(job)
    case Replaying(todo) => if todo == [] then None else Some(todo[0])
  }

  // The delivery queue's byte counter: the worker releases what it receives.
  function QueueBytes(queue: seq<Job>): nat {
    if queue == [] then 0 else QueueBytes(queue[..|queue| - 1]) + |queue[|queue| - 1].item.payload|
  }

  // The byte budget lets this job into the channel.
  predicate Admitted(lim: DeliveryQueue.Limits, queue: seq<Job>, job: Job) {
    lim.Admits(DeliveryQueue.Item(|job.item.payload|, job.item.start < job.item.end), QueueBytes(queue))
  }

  // Room in the channel and in the byte budget.
  predicate HasRoom(lim: DeliveryQueue.Limits, queue: seq<Job>, job: Job) {
    |queue| < lim.capacity && Admitted(lim, queue, job)
  }

  // The check that comes before anything is written.
  predicate PassesSizeCheck(lim: DeliveryQueue.Limits, raw: Bytes) {
    lim.Acceptable(DeliveryQueue.Item(|raw|, false))
  }

  predicate Enabled(lim: DeliveryQueue.Limits, s: State, e: Event) {
    match e
    case Append(_, _, _) => s.producer.Ready?
    case Enqueue => Offered(s.producer).Some? && HasRoom(lim, s.queue, Offered(s.producer).value)
    case EnqueueCancelled => Offered(s.producer).Some?
    case Receive => s.worker.Idle? && s.queue != []
    case ProcessOk => s.worker.Busy?
    case ProcessFailed => s.worker.Busy?
    case Mark => s.worker.Marking? && !s.producer.Enqueueing?
    case CrashAndRestart(_) => true
  }

  function AfterReplay(todo: seq<Job>): Producer {
    if todo == [] then Ready else Replaying(todo)
  }

  function NumberedFrom(items: seq<Delivery>, first: nat): (js: seq<Job>)
    ensures |js| == |items|
  {
    seq(|items|, i requires 0 <= i < |items| => Job(items[i], first + i))
  }

  // A missing or unreadable position file means offset 0. That is also what a
  // crash leaves that hits between removing the old position file and renaming
  // the new one into place.
  function Reopened(s: State, positionLost: bool): State {
    if positionLost then s.(disk := s.disk.(pos := 0, spoolBytes := |s.disk.file|), ck := s.base) else s
  }

  function Next(cfg: Config, lim: DeliveryQueue.Limits, s: State, e: Event): State
    requires Enabled(lim, s, e)
  {
    match e
    case Append(raw, nonce, outcome) =>
      var (disk, r) := AppendDisk(cfg, s.disk, raw, nonce, outcome);
      if PassesSizeCheck(lim, raw) && r.Stored? then
        s.(disk := disk, log := s.log + [Record(raw, cfg.StoredLine(raw, nonce))], producer := Enqueueing(Job(r.item, |s.log|)))
      else s
    case Enqueue =>
      (match s.producer
       case Enqueueing(job) => s.(queue := s.queue + [job], producer := Ready)
       case Replaying(todo) => s.(queue := s.queue + [todo[0]], producer := AfterReplay(todo[1..])))
    case EnqueueCancelled => s.(producer := Ready, flawless := false)
    case Receive =>
      var job := s.queue[0];
      var t := s.(queue := s.queue[1..], received := job.id + 1);
      if job.item.skip then t.(worker := Marking(job), skipped := s.skipped + {job.id})
      else t.(worker := Busy(job))
    case ProcessOk =>
      var job := s.worker.job;
      s.(worker := Marking(job), done := s.done[job.id := job.item.payload])
    case ProcessFailed => s.(worker := Idle, flawless := false)
    case Mark =>
      var job := s.worker.marked;
      var (disk, r) := MarkDisk(s.disk, job.item);
      var t := s.(disk := disk, worker := Idle);
      (match r
       case Advanced => t.(ck := job.id + 1)
       case Compacted => t.(ck := job.id + 1, base := job.id + 1)
       case _ => t)
    case CrashAndRestart(positionLost) =>
      var r := Reopened(s, positionLost);
      var (disk, replay) := RestartDisk(cfg, r.disk);
      r.(disk := disk, queue := [], worker := Idle, received := 0,
         producer := AfterReplay(NumberedFrom(replay.items, r.ck)), flawless := replay.complete)
  }

  // The state after these events, if each was possible in turn.
  function Run(cfg: Config, lim: DeliveryQueue.Limits, events: seq<Event>): Option<State> {
    if events == [] then Some(INITIAL)
    else
      match Run(cfg, lim, events[..|events| - 1])
      case None => None
      case Some(s) =>
        var e := events[|events| - 1];
        if Enabled(lim, s, e) then Some(Next(cfg, lim, s, e)) else None
  }

  // ---------- the invariant ----------

  function Off(s: State, i: nat): nat
    requires s.base <= i <= |s.log|
  {
    Offset(s.log[s.base..], i - s.base)
  }

  function WorkerJobs(w: Worker): seq<Job> {
    match w case Idle => [] case Busy(j) => [j] case Marking(j) => [j]
  }

  function ProducerJobs(p: Producer): seq<Job> {
    match p case Ready => [] case Enqueueing(j) => [j] case Replaying(todo) => todo
  }

  // Everything in flight, in delivery order.
  function Jobs(s: State): seq<Job> {
    WorkerJobs(s.worker) + s.queue + ProducerJobs(s.producer)
  }

  // A payload that may be delivered for a record: its own, or what its line decodes to.
  predicate PayloadOf(cfg: Config, r: Record, payload: Bytes) {
    payload == r.payload || Rebuild(cfg, r.line) == Payload(payload)
  }

  ghost predicate JobOk(cfg: Config, s: State, j: Job)
    requires s.base <= |s.log|
  {
    && s.base <= j.id < |s.log|
    && j.item.start == Off(s, j.id)
    && j.item.end == Off(s, j.id + 1)
    && if j.item.skip then !Rebuild(cfg, s.log[j.id].line).Payload? else PayloadOf(cfg, s.log[j.id], j.item.payload)
  }

  ghost predicate Increasing(js: seq<Job>) {
    forall i, j :: 0 <= i < j < |js| ==> js[i].id < js[j].id
  }

  ghost predicate DiskInv(s: State) {
    && s.base <= s.ck <= |s.log|
    && (forall r :: r in s.log ==> OneLine(r.line))
    && s.disk.file == Framed(s.log[s.base..])
    && s.disk.pos == Off(s, s.ck)
    && (s.ck == |s.log| ==> s.base == |s.log|)
    && s.disk.spoolBytes in {|s.disk.file| - s.disk.pos, |s.disk.file|}
  }

  ghost predicate JobsInv(cfg: Config, s: State)
    requires s.base <= |s.log|
  {
    && (forall j :: j in Jobs(s) ==> JobOk(cfg, s, j))
    && Increasing(Jobs(s))
    && (s.producer.Enqueueing? ==> s.producer.job.id == |s.log| - 1)
    && s.received <= |s.log|
    && (forall j :: j in s.queue + ProducerJobs(s.producer) ==> s.received <= j.id)
    && (s.worker.Busy? ==> !s.worker.job.item.skip)
    && (s.worker.Marking? ==> s.worker.marked.id in s.done.Keys + s.skipped)
  }

  ghost predicate HistoryInv(cfg: Config, s: State) {
    && (forall i: nat :: i < s.ck ==> i in s.done.Keys + s.skipped)
    && (forall i :: i in s.done ==> i < |s.log| && PayloadOf(cfg, s.log[i], s.done[i]))
    && (forall i :: i in s.skipped ==> i < |s.log| && !Rebuild(cfg, s.log[i].line).Payload?)
  }

  // Without failures nothing is missing between the checkpoint and the log's end.
  ghost predicate FlawlessInv(s: State) {
    s.flawless ==>
      && |Jobs(s)| == |s.log| - s.ck
      && forall i :: 0 <= i < |Jobs(s)| ==> Jobs(s)[i].id == s.ck + i
  }

  ghost predicate Inv(cfg: Config, s: State) {
    && DiskInv(s)
    && JobsInv(cfg, s)
    && HistoryInv(cfg, s)
    && FlawlessInv(s)
  }

  // ---------- preservation, event by event ----------

  predicate WritesOneLine(cfg: Config, e: Event) {
    e.Append? ==> OneLine(cfg.StoredLine(e.raw, e.nonce))
  }

  lemma OffsetExtend(rs: seq<Record>, r: Record, i: nat)
    requires i <= |rs|
    ensures Offset(rs + [r], i) == Offset(rs, i)
  {
    assert (rs + [r])[..i] == rs[..i];
  }

  // Storing one more record moves no offset.
  lemma LogGrows(s: State, t: State, r: Record)
    requires s.base == t.base <= |s.log| && t.log == s.log + [r]
    ensures forall i: nat :: s.base <= i <= |s.log| ==> Off(t, i) == Off(s, i)
    ensures Framed(t.log[t.base..]) == Framed(s.log[s.base..]) + r.line + [NEWLINE]
    ensures Off(t, |s.log|) == |Framed(s.log[s.base..])|
    ensures Off(t, |t.log|) == |Framed(s.log[s.base..])| + |r.line| + 1
  {
    var rs := s.log[s.base..];
    assert t.log[t.base..] == rs + [r];
    FramedConcat(rs, [r]);
    assert Framed([r]) == r.line + [NEWLINE];
    hide Framed;
    assert (rs + [r])[..|rs| + 1] == rs + [r] && (rs + [r])[..|rs|] == rs;
    forall i: nat | s.base <= i <= |s.log| ensures Off(t, i) == Off(s, i) {
      OffsetExtend(rs, r, i - s.base);
    }
    assert rs[..|rs|] == rs;
  }

  lemma OffsetsInFile(s: State, i: nat)
    requires s.base <= i <= |s.log|
    ensures Off(s, i) <= |Framed(s.log[s.base..])|
    ensures Off(s, |s.log|) == |Framed(s.log[s.base..])|
    ensures i < |s.log| ==> Off(s, i) < Off(s, i + 1) <= |Framed(s.log[s.base..])|
    ensures i < |s.log| ==> Off(s, i) < |Framed(s.log[s.base..])|
  {
    var rs := s.log[s.base..];
    SuffixAtOffset(rs, i - s.base);
    assert rs[..|rs|] == rs;
    if i < |s.log| { OffsetStep(rs, i - s.base); }
  }

  lemma AppendKeepsDisk(cfg: Config, lim: DeliveryQueue.Limits, s: State, t: State, e: Event)
    requires DiskInv(s) && e.Append? && WritesOneLine(cfg, e) && s.producer.Ready?
    requires t == Next(cfg, lim, s, e) && t != s
    ensures DiskInv(t)
  {
    hide Rebuild, Framed, Offset, OneLine, BlobCipher.EncryptionEnabled;
    var r := Record(e.raw, cfg.StoredLine(e.raw, e.nonce));
    LogGrows(s, t, r);
    OffsetsInFile(s, s.ck);
    assert t.disk.file == s.disk.file + (r.line + [NEWLINE]);
  }

  // The new record's job joins at the end.
  lemma AppendKeepsJobs(cfg: Config, s: State, t: State, r: Record)
    requires s.base <= |s.log| && JobsInv(cfg, s) && s.producer.Ready? && t.producer.Enqueueing?
    requires t == s.(disk := t.disk, log := s.log + [r], producer := t.producer)
    requires t.producer.job == Job(Delivery(r.payload, Off(t, |s.log|), Off(t, |s.log| + 1), false), |s.log|)
    requires forall i: nat :: s.base <= i <= |s.log| ==> Off(t, i) == Off(s, i)
    ensures JobsInv(cfg, t) && Jobs(t) == Jobs(s) + [t.producer.job]
  {
    hide Rebuild, Off;
    var job := t.producer.job;
    assert Jobs(t) == Jobs(s) + [job];
    forall j | j in Jobs(s) ensures JobOk(cfg, t, j) && j.id < job.id {
      assert JobOk(cfg, s, j);
    }
    assert Increasing(Jobs(t)) by {
      forall i | 0 <= i < |Jobs(s)| ensures Jobs(s)[i].id < job.id { assert Jobs(s)[i] in Jobs(s); }
    }
  }

  lemma AppendKeepsHistory(cfg: Config, s: State, t: State, r: Record)
    requires s.ck <= |s.log| && HistoryInv(cfg, s) && FlawlessInv(s)
    requires t == s.(disk := t.disk, log := s.log + [r], producer := t.producer)
    requires t.producer.Enqueueing? && t.producer.job.id == |s.log| && Jobs(t) == Jobs(s) + [t.producer.job]
    ensures HistoryInv(cfg, t) && FlawlessInv(t)
  {
    hide Rebuild, Jobs;
    assert forall i :: 0 <= i < |s.log| ==> t.log[i] == s.log[i];
  }

  lemma AppendKeepsInv(cfg: Config, lim: DeliveryQueue.Limits, s: State, e: Event)
    requires e.Append? && Enabled(lim, s, e) && WritesOneLine(cfg, e) && Inv(cfg, s)
    ensures Inv(cfg, Next(cfg, lim, s, e))
  {
    hide Rebuild, Framed, Off, OneLine, BlobCipher.EncryptionEnabled, JobsInv, HistoryInv, FlawlessInv;
    var t := Next(cfg, lim, s, e);
    if t != s {
      var r := Record(e.raw, cfg.StoredLine(e.raw, e.nonce));
      LogGrows(s, t, r);
      AppendKeepsDisk(cfg, lim, s, t, e);
      AppendKeepsJobs(cfg, s, t, r);
      AppendKeepsHistory(cfg, s, t, r);
    }
  }

  lemma SameLog(cfg: Config, s: State, t: State, j: Job)
    requires s.base <= |s.log| && t.log == s.log && t.base == s.base && JobOk(cfg, s, j)
    ensures JobOk(cfg, t, j)
  {
    hide Rebuild, Offset;
  }

  lemma DiskInvFrame(s: State, t: State)
    requires DiskInv(s) && t.log == s.log && t.base == s.base && t.ck == s.ck
    requires t.disk == s.disk || t.disk == s.disk.(spoolBytes := |s.disk.file|)
    ensures DiskInv(t)
  {
    hide Framed, Offset, OneLine;
  }

  // Steps that only hand jobs along or drop some at one end.
  lemma FewerJobs(cfg: Config, s: State, t: State, from: nat, to: nat)
    requires s.base <= |s.log| && JobsInv(cfg, s)
    requires t.log == s.log && t.base == s.base && from <= to <= |Jobs(s)| && Jobs(t) == Jobs(s)[from..to]
    requires t.producer.Enqueueing? ==> t.producer == s.producer
    requires t.received <= |t.log| && forall j :: j in t.queue + ProducerJobs(t.producer) ==> t.received <= j.id
    requires t.worker.Busy? ==> !t.worker.job.item.skip
    requires t.worker.Marking? ==> t.worker.marked.id in t.done.Keys + t.skipped
    ensures JobsInv(cfg, t)
  {
    hide JobOk, Off;
    forall j | j in Jobs(t) ensures JobOk(cfg, t, j) {
      assert j in Jobs(s);
      SameLog(cfg, s, t, j);
    }
  }

  lemma MoreHistory(cfg: Config, s: State, t: State, job: Job)
    requires HistoryInv(cfg, s) && t.log == s.log && t.ck == s.ck
    requires s.base <= |s.log| && JobOk(cfg, s, job)
    requires (t.done, t.skipped) == (s.done, s.skipped)
          || (!job.item.skip && t.done == s.done[job.id := job.item.payload] && t.skipped == s.skipped)
          || (job.item.skip && t.done == s.done && t.skipped == s.skipped + {job.id})
    ensures HistoryInv(cfg, t)
  {
    hide Rebuild, Off;
    assert s.done.Keys + s.skipped <= t.done.Keys + t.skipped;
  }

  lemma SameJobsFlawless(s: State, t: State)
    requires FlawlessInv(s) && t.log == s.log && t.ck == s.ck && (t.flawless ==> s.flawless && Jobs(t) == Jobs(s))
    ensures FlawlessInv(t)
  {
  }

  // Everything behind the job at the front of the channel came later.
  lemma FrontIsEarliest(cfg: Config, s: State)
    requires s.base <= |s.log| && JobsInv(cfg, s) && s.worker.Idle? && s.queue != []
    ensures s.queue[0].id < |s.log|
    ensures forall j :: j in s.queue[1..] + ProducerJobs(s.producer) ==> s.queue[0].id < j.id
  {
    hide Off, Rebuild, PayloadOf;
    var js := Jobs(s);
    assert js[0] == s.queue[0] && js[1..] == s.queue[1..] + ProducerJobs(s.producer);
    assert JobOk(cfg, s, js[0]);
    hide JobsInv;
    assert forall j :: j in js[1..] ==> exists i :: 0 < i < |js| && js[i] == j;
  }

  // What is left to receive after a step that hands a job along.
  lemma StillToReceive(cfg: Config, lim: DeliveryQueue.Limits, s: State, e: Event)
    requires s.base <= |s.log| && JobsInv(cfg, s) && Enabled(lim, s, e) && (e.Enqueue? || e.Receive? || e.ProcessOk?)
    ensures var t := Next(cfg, lim, s, e);
      t.received <= |t.log| && forall j :: j in t.queue + ProducerJobs(t.producer) ==> t.received <= j.id
  {
    hide AppendDisk, MarkDisk, RestartDisk, Config.StoredLine, Reopened, NumberedFrom, JobOk, Increasing;
    var t := Next(cfg, lim, s, e);
    if e.Receive? {
      FrontIsEarliest(cfg, s);
    } else {
      assert t.queue + ProducerJobs(t.producer) == s.queue + ProducerJobs(s.producer);
    }
  }

  function HandedOver(s: State, e: Event): Job
    requires (e.Receive? && s.queue != []) || (!e.Receive? && Jobs(s) != [])
  {
    if e.Receive? then s.queue[0] else Jobs(s)[0]
  }

  // A job leaves one stage and joins the next.
  lemma MovesUp(front: seq<Job>, back: seq<Job>, job: Job)
    ensures front + [job] + back == front + ([job] + back)
  {
  }

  lemma EnqueueMoves(lim: DeliveryQueue.Limits, cfg: Config, s: State)
    requires Enabled(lim, s, Enqueue)
    ensures Jobs(s) != [] && Jobs(Next(cfg, lim, s, Enqueue)) == Jobs(s)
  {
    hide AppendDisk, MarkDisk, RestartDisk, Config.StoredLine, Reopened, NumberedFrom;
    var t := Next(cfg, lim, s, Enqueue);
    var front, back := WorkerJobs(s.worker) + s.queue, ProducerJobs(t.producer);
    var job := t.queue[|s.queue|];
    assert ProducerJobs(s.producer) == [job] + back;
    assert WorkerJobs(t.worker) + t.queue == front + [job];
    hide Next, Enabled, WorkerJobs, ProducerJobs;
    MovesUp(front, back, job);
  }

  lemma ReceiveMoves(lim: DeliveryQueue.Limits, cfg: Config, s: State)
    requires Enabled(lim, s, Receive)
    ensures Jobs(s) != [] && Jobs(s)[0] == s.queue[0] && Jobs(Next(cfg, lim, s, Receive)) == Jobs(s)
  {
    hide AppendDisk, MarkDisk, RestartDisk, Config.StoredLine, Reopened, NumberedFrom;
    assert [] + s.queue == [s.queue[0]] + s.queue[1..];
  }

  lemma ProcessKeeps(lim: DeliveryQueue.Limits, cfg: Config, s: State)
    requires Enabled(lim, s, ProcessOk)
    ensures Jobs(s) != [] && Jobs(s)[0] == s.worker.job && Jobs(Next(cfg, lim, s, ProcessOk)) == Jobs(s)
  {
    hide AppendDisk, MarkDisk, RestartDisk, Config.StoredLine, Reopened, NumberedFrom;
  }

  // Handing a job along changes neither the disk nor what is in flight.
  lemma SameInFlight(lim: DeliveryQueue.Limits, cfg: Config, s: State, e: Event, t: State)
    requires Enabled(lim, s, e) && (e.Enqueue? || e.Receive? || e.ProcessOk?) && t == Next(cfg, lim, s, e)
    ensures Jobs(s) != [] && Jobs(t) == Jobs(s) && HandedOver(s, e) in Jobs(s)
    ensures e.ProcessOk? ==> s.worker.Busy? && HandedOver(s, e) == s.worker.job
  {
    assert e.Receive? ==> s.queue != [];
    assert e.ProcessOk? ==> s.worker.Busy?;
    hide Next, Enabled, Jobs;
    match e
    case Enqueue => EnqueueMoves(lim, cfg, s);
    case Receive => ReceiveMoves(lim, cfg, s);
    case ProcessOk => ProcessKeeps(lim, cfg, s);
  }

  lemma HandOverStep(lim: DeliveryQueue.Limits, cfg: Config, s: State, e: Event, t: State)
    requires Enabled(lim, s, e) && (e.Enqueue? || e.Receive? || e.ProcessOk?) && t == Next(cfg, lim, s, e)
    requires s.worker.Busy? ==> !s.worker.job.item.skip
    ensures Jobs(s) != [] && Jobs(t) == Jobs(s) && HandedOver(s, e) in Jobs(s)
    ensures var job := HandedOver(s, e);
      && t.disk == s.disk && t.log == s.log && t.base == s.base && t.ck == s.ck && t.flawless == s.flawless
      && (t.producer.Enqueueing? ==> t.producer == s.producer)
      && (t.worker.Busy? ==> !t.worker.job.item.skip)
      && (t.worker.Marking? ==> t.worker == s.worker || t.worker.marked.id in t.done.Keys + t.skipped)
      && (s.done.Keys + s.skipped <= t.done.Keys + t.skipped)
      && (|| (t.done, t.skipped) == (s.done, s.skipped)
          || (!job.item.skip && t.done == s.done[job.id := job.item.payload] && t.skipped == s.skipped)
          || (job.item.skip && t.done == s.done && t.skipped == s.skipped + {job.id}))
  {
    SameInFlight(lim, cfg, s, e, t);
    hide AppendDisk, MarkDisk, RestartDisk, Config.StoredLine, Reopened, NumberedFrom, Jobs;
  }

  lemma InFlightOk(cfg: Config, s: State, j: Job)
    requires s.base <= |s.log| && JobsInv(cfg, s) && j in Jobs(s)
    ensures JobOk(cfg, s, j)
  {
    hide JobOk, Jobs;
  }

  lemma AllHold(cfg: Config, s: State)
    requires DiskInv(s) && JobsInv(cfg, s) && HistoryInv(cfg, s) && FlawlessInv(s)
    ensures Inv(cfg, s)
  {
    hide DiskInv, JobsInv, HistoryInv, FlawlessInv;
  }

  lemma HandOverKeepsInv(cfg: Config, lim: DeliveryQueue.Limits, s: State, e: Event)
    requires Enabled(lim, s, e) && (e.Enqueue? || e.Receive? || e.ProcessOk?) && Inv(cfg, s)
    ensures Inv(cfg, Next(cfg, lim, s, e))
  {
    var t := Next(cfg, lim, s, e);
    assert s.base <= |s.log| && DiskInv(s) && JobsInv(cfg, s) && HistoryInv(cfg, s) && FlawlessInv(s);
    assert s.worker.Busy? ==> !s.worker.job.item.skip;
    assert s.worker.Marking? ==> s.worker.marked.id in s.done.Keys + s.skipped;
    hide *;
    HandOverStep(lim, cfg, s, e, t);
    StillToReceive(cfg, lim, s, e);
    var job := HandedOver(s, e);
    InFlightOk(cfg, s, job);
    assert Jobs(t) == Jobs(s)[0..|Jobs(s)|];
    DiskInvFrame(s, t);
    MoreHistory(cfg, s, t, job);
    SameJobsFlawless(s, t);
    FewerJobs(cfg, s, t, 0, |Jobs(s)|);
    AllHold(cfg, t);
  }

  lemma HistoryFrame(cfg: Config, s: State, t: State)
    requires HistoryInv(cfg, s) && t.log == s.log && t.ck == s.ck && t.done == s.done && t.skipped == s.skipped
    ensures HistoryInv(cfg, t)
  {
    hide Rebuild, PayloadOf;
  }

  lemma FailedFlawless(s: State)
    requires !s.flawless
    ensures FlawlessInv(s)
  {
  }

  // A failed enqueue or Process drops jobs at one end.
  lemma FailureStep(cfg: Config, lim: DeliveryQueue.Limits, s: State, e: Event, t: State) returns (from: nat, to: nat)
    requires Enabled(lim, s, e) && (e.EnqueueCancelled? || e.ProcessFailed?) && t == Next(cfg, lim, s, e)
    ensures from <= to <= |Jobs(s)| && Jobs(t) == Jobs(s)[from..to]
    ensures t.disk == s.disk && t.log == s.log && t.base == s.base && t.ck == s.ck && !t.flawless
    ensures t.done == s.done && t.skipped == s.skipped && t.received == s.received && (!t.producer.Enqueueing? || t.producer == s.producer)
    ensures forall j :: j in t.queue + ProducerJobs(t.producer) ==> j in s.queue + ProducerJobs(s.producer)
    ensures t.worker.Idle? || t.worker == s.worker
  {
    hide AppendDisk, MarkDisk, RestartDisk, Config.StoredLine, Reopened, NumberedFrom;
    if e.ProcessFailed? {
      from, to := 1, |Jobs(s)|;
    } else {
      from, to := 0, |WorkerJobs(s.worker) + s.queue|;
    }
  }

  lemma FailureKeepsInv(cfg: Config, lim: DeliveryQueue.Limits, s: State, e: Event)
    requires Enabled(lim, s, e) && (e.EnqueueCancelled? || e.ProcessFailed?) && Inv(cfg, s)
    ensures Inv(cfg, Next(cfg, lim, s, e))
  {
    var t := Next(cfg, lim, s, e);
    assert s.base <= |s.log| && DiskInv(s) && JobsInv(cfg, s) && HistoryInv(cfg, s) && FlawlessInv(s);
    assert s.worker.Busy? ==> !s.worker.job.item.skip;
    assert s.worker.Marking? ==> s.worker.marked.id in s.done.Keys + s.skipped;
    assert s.received <= |s.log| && forall j :: j in s.queue + ProducerJobs(s.producer) ==> s.received <= j.id;
    hide *;
    var from, to := FailureStep(cfg, lim, s, e, t);
    FewerJobs(cfg, s, t, from, to);
    DiskInvFrame(s, t);
    HistoryFrame(cfg, s, t);
    FailedFlawless(t);
    AllHold(cfg, t);
  }

  // Offsets tell records apart.
  lemma OffInjective(s: State, i: nat, j: nat)
    requires s.base <= i <= |s.log| && s.base <= j <= |s.log|
    ensures Off(s, i) == Off(s, j) <==> i == j
    ensures Off(s, i) < Off(s, j) <==> i < j
  {
    hide Framed;
    if i < j { OffsetsIncrease(s.log[s.base..], i - s.base, j - s.base); }
    if j < i { OffsetsIncrease(s.log[s.base..], j - s.base, i - s.base); }
  }

  // What the worker finds when it checkpoints: the start offset matches the
  // checkpoint for exactly one record, the bounds check never fires, the file
  // is emptied only when nothing else is in flight, and without failures there
  // is no gap.
  lemma MarkOutcome(cfg: Config, s: State)
    requires Inv(cfg, s) && s.worker.Marking? && !s.producer.Enqueueing?
    ensures var job := s.worker.marked;
      var r := MarkDisk(s.disk, job.item).1;
      && (r == Gap <==> job.id != s.ck)
      && (r == Compacted <==> job.id == s.ck && job.id == |s.log| - 1)
      && (r == Advanced <==> job.id == s.ck && job.id < |s.log| - 1)
      && r != NotDurable && r != OutOfBounds
      && (r == Compacted ==> Jobs(s) == [job])
      && (s.flawless ==> r != Gap)
  {
    hide Rebuild, Framed, Offset, OneLine, BlobCipher.EncryptionEnabled;
    var job := s.worker.marked;
    assert Jobs(s)[0] == job;
    assert JobOk(cfg, s, job);
    OffInjective(s, job.id, s.ck);
    OffsetsInFile(s, job.id);
    OffInjective(s, job.id + 1, |s.log|);
    assert |Jobs(s)| > 1 ==> JobOk(cfg, s, Jobs(s)[1]);
  }

  // The state a checkpoint leaves, written with record numbers.
  function Marked(s: State, r: MarkResult): State
    requires s.base <= s.ck <= |s.log|
  {
    var t := s.(worker := Idle);
    match r
    case Advanced =>
      if s.ck < |s.log| then
        var pos := Off(s, s.ck + 1);
        t.(disk := s.disk.(pos := pos, spoolBytes := |s.disk.file| - pos), ck := s.ck + 1)
      else t
    case Compacted => t.(disk := EMPTY_DISK, ck := |s.log|, base := |s.log|)
    case _ => t
  }

  lemma MarkEffect(cfg: Config, lim: DeliveryQueue.Limits, s: State)
    requires s.worker.Marking? && s.base <= s.ck <= |s.log| && Inv(cfg, s) && Enabled(lim, s, Mark)
    ensures var r := MarkDisk(s.disk, s.worker.marked.item).1;
      Next(cfg, lim, s, Mark) == Marked(s, r)
  {
    hide Rebuild, Framed, Offset, OneLine, AppendDisk, RestartDisk, Config.StoredLine, HistoryInv, FlawlessInv;
    assert Jobs(s)[0] == s.worker.marked && JobOk(cfg, s, Jobs(s)[0]);
    MarkOutcome(cfg, s);
  }

  lemma MarkedDisk(s: State, r: MarkResult)
    requires DiskInv(s) && (r.Advanced? ==> s.ck + 1 < |s.log|)
    ensures DiskInv(Marked(s, r))
  {
    hide Offset, OneLine, Framed;
    var t := Marked(s, r);
    if r.Compacted? { EmptyTail(t); } else { hide Off; }
  }

  lemma MarkedJobs(cfg: Config, s: State, r: MarkResult)
    requires s.base <= s.ck <= |s.log| && JobsInv(cfg, s) && s.worker.Marking?
    requires !s.producer.Enqueueing? && (r.Compacted? ==> |Jobs(s)| == 1)
    ensures JobsInv(cfg, Marked(s, r)) && Jobs(Marked(s, r)) == Jobs(s)[1..|Jobs(s)|]
  {
    hide JobOk, Off, Increasing;
    var t := Marked(s, r);
    assert Jobs(t) == Jobs(s)[1..|Jobs(s)|];
    if r.Compacted? {
      assert Jobs(t) == [] && s.queue + ProducerJobs(s.producer) == [];
      assert Increasing([]) by { NoJobsIncrease(); }
    } else {
      FewerJobs(cfg, s, t, 1, |Jobs(s)|);
    }
  }

  lemma NoJobsIncrease()
    ensures Increasing([])
  {
  }

  // The checkpoint passes only the record just processed or set aside.
  lemma MarkedHistory(cfg: Config, s: State, r: MarkResult, t: State)
    requires s.base <= s.ck <= |s.log| && s.worker.Marking? && t == Marked(s, r)
    requires s.worker.marked.id in s.done.Keys + s.skipped && Jobs(t) == Jobs(s)[1..|Jobs(s)|]
    requires r.Advanced? || r.Compacted? ==> s.worker.marked.id == s.ck < |s.log|
    requires r.Compacted? ==> s.ck == |s.log| - 1
    requires s.flawless ==> r.Advanced? || r.Compacted?
    requires HistoryInv(cfg, s) && FlawlessInv(s)
    ensures HistoryInv(cfg, t) && FlawlessInv(t)
  {
    hide Rebuild, PayloadOf, Off, Jobs;
    if s.flawless {
      assert forall i :: 0 <= i < |Jobs(t)| ==> Jobs(t)[i] == Jobs(s)[i + 1];
    }
  }

  lemma MarkKeepsInv(cfg: Config, lim: DeliveryQueue.Limits, s: State)
    requires Inv(cfg, s) && Enabled(lim, s, Mark)
    ensures Inv(cfg, Next(cfg, lim, s, Mark))
  {
    var t := Next(cfg, lim, s, Mark);
    MarkEffect(cfg, lim, s);
    MarkOutcome(cfg, s);
    assert s.worker.marked.id in s.done.Keys + s.skipped && s.base <= s.ck <= |s.log|;
    hide Next, MarkDisk, DiskInv, JobsInv, HistoryInv, FlawlessInv, Marked;
    var r := MarkDisk(s.disk, s.worker.marked.item).1;
    MarkedDisk(s, r);
    MarkedJobs(cfg, s, r);
    MarkedHistory(cfg, s, r, t);
  }

  lemma EmptyTail(s: State)
    requires s.base == |s.log|
    ensures s.log[s.base..] == [] && Framed(s.log[s.base..]) == [] && Off(s, s.base) == 0
  {
  }

  lemma OffsetSplit(rs: seq<Record>, i: nat, j: nat)
    requires i <= j <= |rs|
    ensures Offset(rs, j) == Offset(rs, i) + Offset(rs[i..], j - i)
  {
    assert rs[..j] == rs[..i] + rs[i..][..j - i];
    FramedConcat(rs[..i], rs[i..][..j - i]);
  }

  lemma ReplayedJobOk(cfg: Config, s: State, id: nat)
    requires s.base <= id < |s.log|
    ensures JobOk(cfg, s, Job(ReplayItem(cfg, s.log[id].line, Off(s, id), Off(s, id + 1)), id))
  {
    hide Rebuild, Offset;
  }

  lemma TailOffsets(s: State, i: nat)
    requires DiskInv(s) && i <= |s.log| - s.ck
    ensures Off(s, s.ck + i) == s.disk.pos + Offset(s.log[s.ck..], i)
    ensures s.disk.pos <= |s.disk.file| && s.disk.file[s.disk.pos..] == Framed(s.log[s.ck..])
    ensures s.disk.pos == |s.disk.file| <==> s.ck == |s.log|
  {
    hide Framed, Offset, OneLine;
    var rs, n := s.log[s.base..], s.ck - s.base;
    assert rs[n..] == s.log[s.ck..];
    SuffixAtOffset(rs, n);
    OffsetSplit(rs, n, n + i);
    OffsetsInFile(s, s.ck);
  }

  // What a restart finds: the records from the checkpoint on, up to an
  // over-long line if there is one.
  ghost predicate Found(cfg: Config, s: State, replay: Replay)
    requires s.base <= s.ck <= |s.log|
  {
    && |replay.items| <= |s.log| - s.ck
    && (replay.complete <==> |replay.items| == |s.log| - s.ck)
    && (!replay.complete ==> |s.log[s.ck + |replay.items|].line| >= cfg.MaxRecordBytes())
    && forall i :: 0 <= i < |replay.items| ==>
         replay.items[i] == ReplayItem(cfg, s.log[s.ck + i].line, Off(s, s.ck + i), Off(s, s.ck + i + 1))
  }

  lemma RebuiltIsFound(cfg: Config, s: State, replay: Replay)
    requires DiskInv(s) && RebuiltPrefix(cfg, replay, s.log[s.ck..], s.disk.pos)
    ensures Found(cfg, s, replay)
  {
    hide ReplayItem, Framed, Offset, OneLine;
    forall i | 0 <= i < |replay.items|
      ensures replay.items[i] == ReplayItem(cfg, s.log[s.ck + i].line, Off(s, s.ck + i), Off(s, s.ck + i + 1))
    {
      TailOffsets(s, i);
      TailOffsets(s, i + 1);
      assert s.log[s.ck..][i] == s.log[s.ck + i];
    }
  }

  lemma RestartFinds(cfg: Config, s: State)
    requires DiskInv(s)
    ensures var (disk, replay) := RestartDisk(cfg, s.disk);
      && disk.file == s.disk.file && disk.pos == s.disk.pos && disk.spoolBytes == |disk.file|
      && Found(cfg, s, replay)
  {
    hide ReplayItem, Framed, Offset, OneLine, ReplayFrom;
    TailOffsets(s, 0);
    if s.ck == |s.log| {
      EmptyTail(s);
    } else {
      ReplayOfLines(cfg, s.log[s.ck..], s.disk.pos);
      RebuiltIsFound(cfg, s, RestartDisk(cfg, s.disk).1);
    }
  }

  lemma FoundJobs(cfg: Config, s: State, replay: Replay, js: seq<Job>)
    requires s.base <= s.ck <= |s.log| && Found(cfg, s, replay) && js == NumberedFrom(replay.items, s.ck)
    ensures forall j :: j in js ==> JobOk(cfg, s, j)
    ensures Increasing(js)
  {
    hide JobOk, ReplayItem, Offset, OneLine;
    forall i | 0 <= i < |js| ensures JobOk(cfg, s, js[i]) {
      ReplayedJobOk(cfg, s, s.ck + i);
    }
  }

  lemma ReopenedKeeps(cfg: Config, s: State, positionLost: bool)
    requires DiskInv(s) && HistoryInv(cfg, s)
    ensures DiskInv(Reopened(s, positionLost)) && HistoryInv(cfg, Reopened(s, positionLost))
  {
    hide Rebuild, OneLine;
    assert s.log[s.base..][..0] == [];
  }

  // After a restart exactly what replay found is in flight.
  lemma RestartedJobs(cfg: Config, r: State, replay: Replay, t: State)
    requires r.base <= r.ck <= |r.log| && Found(cfg, r, replay)
    requires t.log == r.log && t.base == r.base && t.ck == r.ck && t.queue == [] && t.worker.Idle? && t.received == 0
    requires t.producer == AfterReplay(NumberedFrom(replay.items, r.ck)) && t.flawless == replay.complete
    ensures JobsInv(cfg, t) && FlawlessInv(t)
  {
    hide JobOk, Off, Increasing, ReplayItem;
    var js := NumberedFrom(replay.items, r.ck);
    assert Jobs(t) == js;
    FoundJobs(cfg, r, replay, js);
    hide NumberedFrom;
    forall j | j in js ensures JobOk(cfg, t, j) {
      SameLog(cfg, r, t, j);
    }
  }

  lemma RestartKeepsInv(cfg: Config, lim: DeliveryQueue.Limits, s: State, positionLost: bool)
    requires Inv(cfg, s) && Enabled(lim, s, CrashAndRestart(positionLost))
    ensures Inv(cfg, Next(cfg, lim, s, CrashAndRestart(positionLost)))
  {
    hide RestartDisk, AppendDisk, MarkDisk, JobsInv, FlawlessInv, Off, Found, NumberedFrom, AfterReplay, Config.StoredLine;
    var r := Reopened(s, positionLost);
    ReopenedKeeps(cfg, s, positionLost);
    RestartFinds(cfg, r);
    var (disk, replay) := RestartDisk(cfg, r.disk);
    var t := Next(cfg, lim, s, CrashAndRestart(positionLost));
    assert r.base <= r.ck <= |r.log|;
    assert HistoryInv(cfg, t);
    hide HistoryInv;
    DiskInvFrame(r, t);
    hide DiskInv, Reopened;
    RestartedJobs(cfg, r, replay, t);
  }

  lemma StepKeepsInv(cfg: Config, lim: DeliveryQueue.Limits, s: State, e: Event)
    requires Inv(cfg, s) && Enabled(lim, s, e) && WritesOneLine(cfg, e)
    ensures Inv(cfg, Next(cfg, lim, s, e))
  {
    hide Inv, Next;
    match e
    case Append(_, _, _) => AppendKeepsInv(cfg, lim, s, e);
    case Enqueue => HandOverKeepsInv(cfg, lim, s, e);
    case Receive => HandOverKeepsInv(cfg, lim, s, e);
    case ProcessOk => HandOverKeepsInv(cfg, lim, s, e);
    case EnqueueCancelled => FailureKeepsInv(cfg, lim, s, e);
    case ProcessFailed => FailureKeepsInv(cfg, lim, s, e);
    case Mark => MarkKeepsInv(cfg, lim, s);
    case CrashAndRestart(positionLost) => RestartKeepsInv(cfg, lim, s, positionLost);
  }

  lemma {:induction false} RunKeepsInv(cfg: Config, lim: DeliveryQueue.Limits, events: seq<Event>)
    requires forall e :: e in events ==> WritesOneLine(cfg, e)
    requires Run(cfg, lim, events).Some?
    ensures Inv(cfg, Run(cfg, lim, events).value)
  {
    if events == [] {
      EmptyTail(INITIAL);
    } else {
      hide Inv, Next;
      var n := |events| - 1;
      RunKeepsInv(cfg, lim, events[..n]);
      StepKeepsInv(cfg, lim, Run(cfg, lim, events[..n]).value, events[n]);
    }
  }
}
