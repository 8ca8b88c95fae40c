// The staging worker (stager.py) over the file-backed queue
// (queue_prototype.py): retries, acknowledgement, dead letters, and the choice
// of a target file. Every failure pattern is a parameter.
module Stager {
  import opened ByteStrings
  import opened Strings

  // ---------- backoff (kafka_adapter.py) ----------

  datatype RetryPolicy = RetryPolicy(maxAttempts: int, baseDelay: real, maxDelay: real, jitterRatio: real)

  function Min(a: real, b: real): real {
    if b < a then b else a
  }

  function Pow2(n: nat): real {
    if n == 0 then 1.0 else 2.0 * Pow2(n - 1)
  }

  // The delay without jitter.
  function CappedDelay(attempt: int, policy: RetryPolicy): (delay: real)
    ensures delay <= policy.maxDelay
    ensures 0.0 <= policy.baseDelay && 0.0 <= policy.maxDelay ==> 0.0 <= delay
  {
    var n := if attempt <= 1 then 0 else attempt - 1;
    var base := policy.baseDelay * Pow2(n);
    assert 0.0 <= policy.baseDelay ==> 0.0 <= base by {
      hide Pow2;
      if 0.0 <= policy.baseDelay {
        Pow2Positive(n);
        Scaled(policy.baseDelay, Pow2(n));
      }
    }
    hide Pow2;
    Min(policy.maxDelay, base)
  }

  function ComputeBackoff(attempt: int, policy: RetryPolicy, random: real): (delay: real)
    ensures delay <= policy.maxDelay
    ensures 0.0 <= policy.baseDelay && 0.0 <= policy.maxDelay && 0.0 <= policy.jitterRatio ==> 0.0 <= delay
  {
    var capped := CappedDelay(attempt, policy);
    var jitter := Jitter(capped, policy.jitterRatio, random);
    Min(policy.maxDelay, capped + jitter)
  }

  function Jitter(capped: real, ratio: real, random: real): (jitter: real)
    ensures 0.0 <= capped && 0.0 <= ratio ==> 0.0 <= jitter
  {
    var draw := if random < 0.0 then 0.0 else random;
    assert 0.0 <= capped && 0.0 <= ratio ==> 0.0 <= capped * ratio * draw by {
      if 0.0 <= capped && 0.0 <= ratio {
        Scaled(capped, ratio);
        Scaled(capped * ratio, draw);
      }
    }
    capped * ratio * draw
  }

  // Nothing at a draw of 0, the whole share at 1, in between for the others.
  lemma JitterBetween(capped: real, ratio: real, random: real)
    requires 0.0 <= capped && 0.0 <= ratio && random <= 1.0
    ensures 0.0 <= Jitter(capped, ratio, random) <= capped * ratio
    ensures random <= 0.0 ==> Jitter(capped, ratio, random) == 0.0
    ensures random == 1.0 ==> Jitter(capped, ratio, random) == capped * ratio
  {
    Scaled(capped, ratio);
    var share := capped * ratio;
    var draw := if random < 0.0 then 0.0 else random;
    assert Jitter(capped, ratio, random) == share * draw;
    Scaled(share, draw);
  }

  // Without jitter the delay doubles with each attempt until max_delay stops it.
  lemma DelayDoubles(attempt: int, policy: RetryPolicy)
    requires 0.0 <= policy.baseDelay && 0.0 <= policy.maxDelay && 1 <= attempt
    ensures CappedDelay(attempt + 1, policy) == Min(policy.maxDelay, 2.0 * CappedDelay(attempt, policy))
    ensures CappedDelay(1, policy) == Min(policy.maxDelay, policy.baseDelay)
  {
    Pow2Positive(attempt - 1);
    assert Pow2(attempt) == 2.0 * Pow2(attempt - 1) && Pow2(0) == 1.0;
    hide Pow2;
    var base := policy.baseDelay * Pow2(attempt - 1);
    assert policy.baseDelay * Pow2(attempt) == 2.0 * base;
  }

  // Jitter lengthens it by at most its share.
  lemma BackoffBetween(attempt: int, policy: RetryPolicy, random: real)
    requires 0.0 <= policy.baseDelay && 0.0 <= policy.maxDelay && 0.0 <= policy.jitterRatio && random <= 1.0
    ensures var capped := CappedDelay(attempt, policy);
      && capped <= ComputeBackoff(attempt, policy, random) <= Min(policy.maxDelay, capped + capped * policy.jitterRatio)
      && (random <= 0.0 ==> ComputeBackoff(attempt, policy, random) == capped)
      && (random == 1.0 ==> ComputeBackoff(attempt, policy, random) == Min(policy.maxDelay, capped + capped * policy.jitterRatio))
  {
    hide CappedDelay, Jitter;
    var capped := CappedDelay(attempt, policy);
    JitterBetween(capped, policy.jitterRatio, random);
    var share := capped * policy.jitterRatio;
    MinBetween(policy.maxDelay, capped, Jitter(capped, policy.jitterRatio, random), share);
  }

  lemma MinBetween(limit: real, capped: real, jitter: real, share: real)
    requires capped <= limit && 0.0 <= jitter <= share
    ensures capped <= Min(limit, capped + jitter) <= Min(limit, capped + share)
  {
  }

  lemma Scaled(a: real, b: real)
    requires 0.0 <= a && 0.0 <= b
    ensures 0.0 <= a * b && (b <= 1.0 ==> a * b <= a)
  {
  }

  lemma {:induction false} Pow2Positive(n: nat)
    ensures 1.0 <= Pow2(n)
  {
    if n > 0 { Pow2Positive(n - 1); }
  }

  // ---------- target names ----------

  predicate SafeChar(c: char) {
    'A' <= c <= 'Z' || 'a' <= c <= 'z' || '0' <= c <= '9' || c in {'.', '_', '-'}
  }

  function DropUnsafe(s: string): (r: string)
    ensures |r| <= |s|
  {
    if s != [] && !SafeChar(s[0]) then DropUnsafe(s[1..]) else s
  }

  // Each run of unsafe characters becomes one dash.
  function Dashed(s: string): (r: string)
    ensures forall c :: c in r ==> SafeChar(c)
    decreases |s|
  {
    if s == [] then []
    else if SafeChar(s[0]) then [s[0]] + Dashed(s[1..])
    else ['-'] + Dashed(DropUnsafe(s[1..]))
  }

  function SafeName(value: string): (r: string)
    ensures 1 <= |r| <= 200 && forall c :: c in r ==> SafeChar(c)
  {
    var cleaned := Dashed(Trim(value));
    if cleaned == [] then "event" else if |cleaned| > 200 then cleaned[..200] else cleaned
  }

  // Whatever it is, a run of unsafe characters becomes one dash, and the text
  // on both sides is treated on its own.
  lemma {:induction false} DashedRun(before: string, run: string, after: string)
    requires run != [] && (forall c :: c in run ==> !SafeChar(c))
    requires (before != [] ==> SafeChar(before[|before| - 1])) && (after != [] ==> SafeChar(after[0]))
    ensures Dashed(before + run + after) == Dashed(before) + "-" + Dashed(after)
    decreases |before|
  {
    hide Dashed, DropUnsafe;
    if before == [] {
      RunFirst(run, after);
      NothingBefore(run, after);
    } else if SafeChar(before[0]) {
      hide SafeChar;
      assert before[1..] != [] ==> before[1..][|before[1..]| - 1] == before[|before| - 1];
      DashedRun(before[1..], run, after);
      SafeFirst(before, run, after);
    } else {
      hide SafeChar;
      DropsInFirst(before[1..], run + after);
      assert before[1..] + (run + after) == before[1..] + run + after;
      assert DropUnsafe(before[1..]) + (run + after) == DropUnsafe(before[1..]) + run + after;
      DashedRun(DropUnsafe(before[1..]), run, after);
      UnsafeFirst(before, run, after);
    }
  }

  lemma RunFirst(run: string, after: string)
    requires run != [] && (forall c :: c in run ==> !SafeChar(c)) && (after != [] ==> SafeChar(after[0]))
    ensures Dashed(run + after) == "-" + Dashed(after)
  {
    assert forall c :: c in run[1..] ==> c in run;
    assert run[0] in run;
    hide Dashed, SafeChar, DropUnsafe;
    TailOfTwo(run, after);
    DashedFirst(run + after);
    DropsRun(run[1..], after);
  }

  lemma NothingBefore(run: string, after: string)
    requires Dashed(run + after) == "-" + Dashed(after)
    ensures Dashed([] + run + after) == Dashed([]) + "-" + Dashed(after)
  {
    assert [] + run + after == run + after && Dashed([]) == [];
    hide Dashed;
    assert [] + "-" + Dashed(after) == "-" + Dashed(after);
  }

  lemma TailOfTwo(run: string, after: string)
    requires run != []
    ensures var all := run + after; all != [] && all[0] == run[0] && all[1..] == run[1..] + after
  {
  }

  lemma SafeFirst(before: string, run: string, after: string)
    requires before != [] && SafeChar(before[0])
    requires Dashed(before[1..] + run + after) == Dashed(before[1..]) + "-" + Dashed(after)
    ensures Dashed(before + run + after) == Dashed(before) + "-" + Dashed(after)
  {
    hide Dashed, SafeChar, DropUnsafe;
    var all, below, y := before + run + after, Dashed(before[1..]), Dashed(after);
    TailOf(before, run, after);
    DashedFirst(before);
    DashedFirst(all);
    calc {
      Dashed(all);
      [before[0]] + Dashed(before[1..] + run + after);
      [before[0]] + (below + "-" + y);
      { Regroup([before[0]], below, y); }
      ([before[0]] + below) + "-" + y;
    }
  }

  lemma UnsafeFirst(before: string, run: string, after: string)
    requires before != [] && !SafeChar(before[0])
    requires DropUnsafe(before[1..] + run + after) == DropUnsafe(before[1..]) + run + after
    requires Dashed(DropUnsafe(before[1..]) + run + after) == Dashed(DropUnsafe(before[1..])) + "-" + Dashed(after)
    ensures Dashed(before + run + after) == Dashed(before) + "-" + Dashed(after)
  {
    hide Dashed, SafeChar, DropUnsafe;
    var all, below, y := before + run + after, Dashed(DropUnsafe(before[1..])), Dashed(after);
    TailOf(before, run, after);
    DashedFirst(before);
    DashedFirst(all);
    calc {
      Dashed(all);
      ['-'] + Dashed(DropUnsafe(before[1..]) + run + after);
      ['-'] + (below + "-" + y);
      { Regroup(['-'], below, y); }
      (['-'] + below) + "-" + y;
    }
  }

  lemma TailOf(before: string, run: string, after: string)
    requires before != []
    ensures var all := before + run + after; all != [] && all[0] == before[0] && all[1..] == before[1..] + run + after
  {
  }

  lemma DashedFirst(s: string)
    requires s != []
    ensures Dashed(s) == if SafeChar(s[0]) then [s[0]] + Dashed(s[1..]) else ['-'] + Dashed(DropUnsafe(s[1..]))
  {
  }

  lemma Regroup(a: string, b: string, c: string)
    ensures a + (b + "-" + c) == (a + b) + "-" + c
  {
  }

  lemma {:induction false} DropsRun(run: string, after: string)
    requires (forall c :: c in run ==> !SafeChar(c)) && (after != [] ==> SafeChar(after[0]))
    ensures DropUnsafe(run + after) == after
  {
    if run == [] {
      assert run + after == after;
    } else {
      assert (run + after)[1..] == run[1..] + after;
      DropsRun(run[1..], after);
    }
  }

  lemma {:induction false} DropsInFirst(s: string, t: string)
    requires s != [] && SafeChar(s[|s| - 1])
    ensures DropUnsafe(s + t) == DropUnsafe(s) + t
    ensures DropUnsafe(s) != [] && SafeChar(DropUnsafe(s)[|DropUnsafe(s)| - 1])
  {
    if !SafeChar(s[0]) {
      assert (s + t)[1..] == s[1..] + t;
      DropsInFirst(s[1..], t);
    }
  }

  // The safe name is the dashed text, cut at 200 characters.
  lemma SafeNameIsPrefix(value: string)
    ensures Dashed(Trim(value)) != [] ==>
      SafeName(value) <= Dashed(Trim(value)) && (|SafeName(value)| == 200 || SafeName(value) == Dashed(Trim(value)))
    ensures SafeName(value) == "event" || Dashed(Trim(value)) != []
  {
    hide Dashed, Trim;
  }

  lemma {:induction false} DashedKeepsSafe(s: string)
    requires forall c :: c in s ==> SafeChar(c)
    ensures Dashed(s) == s
  {
    if s != [] {
      assert s[0] in s;
      DashedKeepsSafe(s[1..]);
    }
  }

  // Exactly the names that are safe already stay as they are.
  lemma SafeNameKeepsSafe(value: string)
    ensures SafeName(value) == value <==> 1 <= |value| <= 200 && forall c :: c in value ==> SafeChar(c)
  {
    if 1 <= |value| <= 200 && forall c :: c in value ==> SafeChar(c) {
      assert value[0] in value && value[|value| - 1] in value;
      TrimKeeps(value);
      DashedKeepsSafe(value);
    }
  }

  datatype Path = Path(dir: string, name: string)

  function Candidate(dir: string, stem: string, ext: string, i: nat): Path {
    Path(dir, if i == 0 then stem + ext else stem + "-" + Digits(i) + ext)
  }

  lemma CandidatesDiffer(dir: string, stem: string, ext: string, i: nat, j: nat)
    requires i != j
    ensures Candidate(dir, stem, ext, i) != Candidate(dir, stem, ext, j)
  {
    var a, b := Candidate(dir, stem, ext, i).name, Candidate(dir, stem, ext, j).name;
    if i > 0 && j > 0 && a == b {
      assert |Digits(i)| == |Digits(j)|;
      assert a[|stem| + 1..|stem| + 1 + |Digits(i)|] == Digits(i);
      assert b[|stem| + 1..|stem| + 1 + |Digits(j)|] == Digits(j);
      DigitsReadBack(i);
      DigitsReadBack(j);
    }
  }

  // The first n candidates.
  function Candidates(dir: string, stem: string, ext: string, n: nat): set<Path> {
    if n == 0 then {} else Candidates(dir, stem, ext, n - 1) + {Candidate(dir, stem, ext, n - 1)}
  }

  lemma {:induction false} LaterIsNew(dir: string, stem: string, ext: string, n: nat, later: nat)
    requires n <= later
    ensures Candidate(dir, stem, ext, later) !in Candidates(dir, stem, ext, n)
  {
    hide Candidate;
    if n > 0 {
      LaterIsNew(dir, stem, ext, n - 1, later);
      CandidatesDiffer(dir, stem, ext, n - 1, later);
    }
  }

  // If the first n candidates are all taken, at least n names are.
  lemma {:induction false} ManyCandidates(dir: string, stem: string, ext: string, n: nat, taken: set<Path>)
    requires forall k: nat :: k < n ==> Candidate(dir, stem, ext, k) in taken
    ensures Candidates(dir, stem, ext, n) <= taken && |Candidates(dir, stem, ext, n)| == n <= |taken|
  {
    hide Candidate;
    if n > 0 {
      ManyCandidates(dir, stem, ext, n - 1, taken);
      LaterIsNew(dir, stem, ext, n - 1, n - 1);
    }
    SubsetCardinality(Candidates(dir, stem, ext, n), taken);
  }

  lemma {:induction false} SubsetCardinality(a: set<Path>, b: set<Path>)
    requires a <= b
    ensures |a| <= |b|
  {
    if a != {} {
      var x :| x in a;
      SubsetCardinality(a - {x}, b - {x});
    }
  }

  // The candidate that the search stops at.
  predicate FirstFree(taken: set<Path>, dir: string, stem: string, ext: string, i: nat) {
    Candidate(dir, stem, ext, i) !in taken && forall k: nat :: k < i ==> Candidate(dir, stem, ext, k) in taken
  }

  ghost function FreeFrom(taken: set<Path>, dir: string, stem: string, ext: string, i: nat): (r: nat)
    requires forall k: nat :: k < i ==> Candidate(dir, stem, ext, k) in taken
    requires i <= |taken|
    ensures FirstFree(taken, dir, stem, ext, r)
    decreases |taken| - i
  {
    hide Candidate;
    if Candidate(dir, stem, ext, i) !in taken then i
    else
      ManyCandidates(dir, stem, ext, i + 1, taken);
      FreeFrom(taken, dir, stem, ext, i + 1)
  }

  // The file a message goes to: the first free candidate.
  ghost function Target(taken: set<Path>, dir: string, stem: string, ext: string): (p: Path)
    ensures p !in taken
  {
    Candidate(dir, stem, ext, FreeFrom(taken, dir, stem, ext, 0))
  }

  lemma OneFirstFree(taken: set<Path>, dir: string, stem: string, ext: string, i: nat, j: nat)
    requires FirstFree(taken, dir, stem, ext, i) && FirstFree(taken, dir, stem, ext, j)
    ensures i == j
  {
  }

  // The target lies in the partition under the stem's name.
  lemma TargetNamed(taken: set<Path>, dir: string, stem: string, ext: string)
    ensures var t := Target(taken, dir, stem, ext);
      && t.dir == dir && stem <= t.name && |stem| + |ext| <= |t.name| && t.name[|t.name| - |ext|..] == ext
      && (Path(dir, stem + ext) !in taken ==> t == Path(dir, stem + ext))
  {
  }

  // The search ends within |taken| steps.
  method BuildTarget(taken: set<Path>, dir: string, stem: string, ext: string) returns (target: Path)
    ensures target == Target(taken, dir, stem, ext)
    ensures target !in taken
  {
    hide Candidate;
    target := Candidate(dir, stem, ext, 0);
    var i := 0;
    while target in taken
      invariant target == Candidate(dir, stem, ext, i)
      invariant forall k: nat :: k < i ==> Candidate(dir, stem, ext, k) in taken
      invariant i <= |taken|
      decreases |taken| - i
    {
      i := i + 1;
      ManyCandidates(dir, stem, ext, i, taken);
      target := Candidate(dir, stem, ext, i);
    }
    OneFirstFree(taken, dir, stem, ext, i, FreeFrom(taken, dir, stem, ext, 0));
  }

  // ---------- queue, staging directory, dead letters ----------

  datatype Payload = Payload(eventId: string, body: string)

  // A queue file holds a message or something that does not parse.
  datatype Message = Valid(payload: Payload) | Unreadable

  // source is history: the queue file a staged file came from.
  datatype StagedFile = StagedFile(payload: Payload, source: string)

  datatype Letter = Letter(payload: Payload, attempts: nat, source: string)

  datatype World = World(queue: map<string, Message>, staged: map<Path, StagedFile>, dlq: seq<Letter>)

  // What goes wrong: which attempts stage, which unlinks and dead-letter writes
  // work, the partition that the clock and timestamp give, the random draws.
  datatype Faults = Faults(
    stages: (string, nat) -> bool,
    acks: string -> bool,
    dlqWrites: string -> bool,
    partition: (string, nat) -> string,
    draws: (string, nat) -> real)

  datatype Fate = Left | StagedAt(path: Path) | DeadLettered

  function SourceStem(name: string): string {
    if |name| >= 5 && name[|name| - 5..] == ".json" then name[..|name| - 5] else name
  }

  function StemOf(payload: Payload, name: string): string {
    if payload.eventId != "" then SafeName(payload.eventId) else "noid-" + SourceStem(name)
  }

  // ack swallows errors: the file may stay.
  function Ack(w: World, f: Faults, name: string): World {
    if f.acks(name) then w.(queue := w.queue - {name}) else w
  }

  datatype Result = Result(world: World, fate: Fate, attempts: nat, slept: real)

  // The retry loop for one message, from the given number of attempts on.
  ghost function StageFrom(w: World, policy: RetryPolicy, f: Faults, ext: string, name: string, payload: Payload, attempts: nat): Result
    decreases policy.maxAttempts - attempts
  {
    if attempts >= policy.maxAttempts then Result(w, Left, attempts, 0.0)
    else
      var a := attempts + 1;
      if f.stages(name, a) then
        var target := Target(w.staged.Keys, f.partition(name, a), StemOf(payload, name), ext);
        Result(Ack(w.(staged := w.staged[target := StagedFile(payload, name)]), f, name), StagedAt(target), a, 0.0)
      else if a >= policy.maxAttempts then
        if f.dlqWrites(name) then Result(Ack(w.(dlq := w.dlq + [Letter(payload, a, name)]), f, name), DeadLettered, a, 0.0)
        else Result(w, Left, a, 0.0)
      else
        var r := StageFrom(w, policy, f, ext, name, payload, a);
        r.(slept := ComputeBackoff(a, policy, f.draws(name, a)) + r.slept)
  }

  ghost function StageBatch(w: World, policy: RetryPolicy, f: Faults, ext: string, listing: seq<string>): (World, nat) {
    if listing == [] then (w, 0)
    else
      var (earlier, n) := StageBatch(w, policy, f, ext, listing[..|listing| - 1]);
      var name := listing[|listing| - 1];
      if name !in earlier.queue || earlier.queue[name].Unreadable? then (earlier, n)
      else
        var r := StageFrom(earlier, policy, f, ext, name, earlier.queue[name].payload, 0);
        (r.world, if r.fate.StagedAt? then n + 1 else n)
  }

  class LocalQueue {
    var files: map<string, Message>
    var dlq: seq<Letter>

    method AckFile(f: Faults, name: string)
      modifies this`files
      ensures files == if f.acks(name) then old(files) - {name} else old(files)
    {
      if f.acks(name) {
        files := files - {name};
      }
    }

    method SendToDlq(f: Faults, payload: Payload, attempts: nat, name: string) returns (ok: bool)
      modifies this`dlq
      ensures ok == f.dlqWrites(name)
      ensures dlq == if ok then old(dlq) + [Letter(payload, attempts, name)] else old(dlq)
    {
      ok := f.dlqWrites(name);
      if ok {
        dlq := dlq + [Letter(payload, attempts, name)];
      }
    }
  }

  class StagingDir {
    var files: map<Path, StagedFile>

    // Writing to a fresh name and renaming never touches an existing file.
    method StagePayload(f: Faults, ext: string, payload: Payload, name: string, attempt: nat) returns (path: Option<Path>)
      modifies this
      ensures path.Some? <==> f.stages(name, attempt)
      ensures path.None? ==> files == old(files)
      ensures path.Some? ==>
        && path.value == Target(old(files).Keys, f.partition(name, attempt), StemOf(payload, name), ext)
        && files == old(files)[path.value := StagedFile(payload, name)]
    {
      if !f.stages(name, attempt) {
        return None;
      }
      var target := BuildTarget(files.Keys, f.partition(name, attempt), StemOf(payload, name), ext);
      files := files[target := StagedFile(payload, name)];
      path := Some(target);
    }
  }

  ghost function WorldOf(q: LocalQueue, d: StagingDir): World
    reads q, d
  {
    World(q.files, d.files, q.dlq)
  }

  // One message of the batch.
  method StageOne(q: LocalQueue, d: StagingDir, policy: RetryPolicy, f: Faults, ext: string, name: string, payload: Payload)
    returns (fate: Fate, attempts: nat, slept: real)
    modifies q, d
    ensures Result(WorldOf(q, d), fate, attempts, slept) == StageFrom(old(WorldOf(q, d)), policy, f, ext, name, payload, 0)
  {
    hide Target, ComputeBackoff, StemOf;
    attempts, slept, fate := 0, 0.0, Left;
    ghost var w0 := WorldOf(q, d);
    ghost var whole := StageFrom(w0, policy, f, ext, name, payload, 0);
    while attempts < policy.maxAttempts
      invariant WorldOf(q, d) == w0 && fate == Left
      invariant var r := StageFrom(w0, policy, f, ext, name, payload, attempts); r.(slept := slept + r.slept) == whole
    {
      attempts := attempts + 1;
      var path := d.StagePayload(f, ext, payload, name, attempts);
      if path.Some? {
        q.AckFile(f, name);
        fate := StagedAt(path.value);
        return;
      }
      if attempts >= policy.maxAttempts {
        var ok := q.SendToDlq(f, payload, attempts, name);
        if ok {
          q.AckFile(f, name);
          fate := DeadLettered;
        }
        return;
      }
      slept := slept + ComputeBackoff(attempts, policy, f.draws(name, attempts));
    }
  }

  // listing: the sorted names the queue yields, cut to the batch size.
  method StageEvents(q: LocalQueue, d: StagingDir, policy: RetryPolicy, f: Faults, ext: string, listing: seq<string>) returns (staged: nat)
    modifies q, d
    ensures (WorldOf(q, d), staged) == StageBatch(old(WorldOf(q, d)), policy, f, ext, listing)
  {
    hide StageFrom;
    staged := 0;
    ghost var w0 := WorldOf(q, d);
    for i := 0 to |listing|
      invariant (WorldOf(q, d), staged) == StageBatch(w0, policy, f, ext, listing[..i])
    {
      assert listing[..i + 1][..i] == listing[..i];
      var name := listing[i];
      if name in q.files && q.files[name].Valid? {
        var fate, attempts, slept := StageOne(q, d, policy, f, ext, name, q.files[name].payload);
        if fate.StagedAt? {
          staged := staged + 1;
        }
      }
    }
    assert listing[..|listing|] == listing;
  }

  // ---------- one message ----------

  // Exactly one of three things happens to a consumed message, and which one
  // is decided by the first attempt that stages, if any.
  lemma {:induction false} OneMessage(w: World, policy: RetryPolicy, f: Faults, ext: string, name: string, payload: Payload, attempts: nat)
    ensures var r := StageFrom(w, policy, f, ext, name, payload, attempts);
      && attempts <= r.attempts && (attempts < policy.maxAttempts ==> r.attempts <= policy.maxAttempts)
      && (r.fate.StagedAt? <==> exists a :: attempts < a <= policy.maxAttempts && f.stages(name, a))
      && (match r.fate
          case Left => r.world.staged == w.staged && r.world.dlq == w.dlq
          case StagedAt(p) =>
            && p !in w.staged && f.stages(name, r.attempts)
            && r.world.staged == w.staged[p := StagedFile(payload, name)] && r.world.dlq == w.dlq
          case DeadLettered =>
            && r.attempts == policy.maxAttempts && f.dlqWrites(name)
            && r.world.staged == w.staged && r.world.dlq == w.dlq + [Letter(payload, r.attempts, name)])
      && (r.fate.DeadLettered? <==> !r.fate.StagedAt? && attempts < policy.maxAttempts && f.dlqWrites(name))
      && r.world.queue == (if !r.fate.Left? && f.acks(name) then w.queue - {name} else w.queue)
    decreases policy.maxAttempts - attempts
  {
    if attempts < policy.maxAttempts && !f.stages(name, attempts + 1) {
      hide Target, ComputeBackoff, StemOf;
      OneMessage(w, policy, f, ext, name, payload, attempts + 1);
    }
  }

  // The delays after attempts from + 1 up to to.
  function Delays(policy: RetryPolicy, f: Faults, name: string, from: nat, to: nat): real
    decreases to - from
  {
    if from >= to then 0.0 else ComputeBackoff(from + 1, policy, f.draws(name, from + 1)) + Delays(policy, f, name, from + 1, to)
  }

  // After every attempt but the last of those made there is one sleep of the
  // computed length, and no other.
  lemma {:induction false} SleepsBetweenAttempts(w: World, policy: RetryPolicy, f: Faults, ext: string, name: string, payload: Payload, attempts: nat)
    requires attempts < policy.maxAttempts
    ensures var r := StageFrom(w, policy, f, ext, name, payload, attempts);
      attempts < r.attempts && r.slept == Delays(policy, f, name, attempts, r.attempts - 1)
    decreases policy.maxAttempts - attempts
  {
    hide Target, ComputeBackoff, StemOf, Ack;
    if !f.stages(name, attempts + 1) && attempts + 1 < policy.maxAttempts {
      SleepsBetweenAttempts(w, policy, f, ext, name, payload, attempts + 1);
    }
  }

  // Where a message is staged: in the partition of the attempt, under its event
  // id if that is a safe name and free, and without one under the name of its
  // queue file.
  lemma {:induction false} StagedUnder(w: World, policy: RetryPolicy, f: Faults, ext: string, name: string, payload: Payload, attempts: nat)
    requires StageFrom(w, policy, f, ext, name, payload, attempts).fate.StagedAt?
    ensures var r := StageFrom(w, policy, f, ext, name, payload, attempts);
      var dir, id := f.partition(name, r.attempts), payload.eventId;
      && r.fate.path.dir == dir
      && (1 <= |id| <= 200 && (forall c :: c in id ==> SafeChar(c)) && Path(dir, id + ext) !in w.staged ==> r.fate.path == Path(dir, id + ext))
      && (id == "" && 5 <= |name| && name[|name| - 5..] == ".json" && Path(dir, "noid-" + name[..|name| - 5] + ext) !in w.staged ==>
            r.fate.path == Path(dir, "noid-" + name[..|name| - 5] + ext))
    decreases policy.maxAttempts - attempts
  {
    if f.stages(name, attempts + 1) {
      var dir := f.partition(name, attempts + 1);
      TargetNamed(w.staged.Keys, dir, StemOf(payload, name), ext);
      SafeNameKeepsSafe(payload.eventId);
      hide Target, SafeName, SafeChar;
    } else {
      hide Target, ComputeBackoff, StemOf, Ack, SafeChar;
      StagedUnder(w, policy, f, ext, name, payload, attempts + 1);
    }
  }

  // Sleeps happen only between attempts, each at most max_delay long.
  lemma {:induction false} SleepBounded(w: World, policy: RetryPolicy, f: Faults, ext: string, name: string, payload: Payload, attempts: nat)
    requires attempts < policy.maxAttempts
    ensures var r := StageFrom(w, policy, f, ext, name, payload, attempts);
      attempts < r.attempts && r.slept <= (r.attempts - attempts - 1) as real * policy.maxDelay
    decreases policy.maxAttempts - attempts
  {
    hide Target, ComputeBackoff;
    if !f.stages(name, attempts + 1) && attempts + 1 < policy.maxAttempts {
      SleepBounded(w, policy, f, ext, name, payload, attempts + 1);
      var r := StageFrom(w, policy, f, ext, name, payload, attempts);
      var k := r.attempts - attempts - 1;
      assert k as real * policy.maxDelay == (k - 1) as real * policy.maxDelay + policy.maxDelay;
    }
  }

  // ---------- whole runs ----------

  // The message is still queued, or staged as it was, or dead-lettered as it was.
  ghost predicate Accounted(w: World, name: string, payload: Payload) {
    || (name in w.queue && w.queue[name] == Valid(payload))
    || (exists p :: p in w.staged && w.staged[p] == StagedFile(payload, name))
    || (exists l :: l in w.dlq && l.payload == payload && l.source == name)
  }

  ghost predicate Extends(w: World, t: World) {
    && (forall p :: p in w.staged ==> p in t.staged && t.staged[p] == w.staged[p])
    && w.dlq <= t.dlq
    && (forall n :: n in t.queue ==> n in w.queue && t.queue[n] == w.queue[n])
    && forall n, payload: Payload :: Accounted(w, n, payload) ==> Accounted(t, n, payload)
  }

  // A step that only adds files and letters, and takes the message off the
  // queue only once it is accounted for elsewhere.
  lemma SafeStep(w: World, t: World, name: string, payload: Payload)
    requires name in w.queue && w.queue[name] == Valid(payload)
    requires t.queue == w.queue || (t.queue == w.queue - {name} && Accounted(t, name, payload))
    requires forall p :: p in w.staged ==> p in t.staged && t.staged[p] == w.staged[p]
    requires w.dlq <= t.dlq
    ensures Extends(w, t)
  {
    forall n, pl: Payload | Accounted(w, n, pl) ensures Accounted(t, n, pl) {
      if l :| l in w.dlq && l.payload == pl && l.source == n {
        assert l in t.dlq;
      }
    }
  }

  lemma OneExtends(w: World, policy: RetryPolicy, f: Faults, ext: string, name: string)
    requires name in w.queue && w.queue[name].Valid?
    ensures var r := StageFrom(w, policy, f, ext, name, w.queue[name].payload, 0);
      Extends(w, r.world) && |r.world.staged| == |w.staged| + if r.fate.StagedAt? then 1 else 0
  {
    var payload := w.queue[name].payload;
    OneMessage(w, policy, f, ext, name, payload, 0);
    hide StageFrom, Extends;
    var r := StageFrom(w, policy, f, ext, name, payload, 0);
    if r.fate.StagedAt? {
      assert r.world.staged[r.fate.path] == StagedFile(payload, name);
      assert Accounted(r.world, name, payload);
    } else if r.fate.DeadLettered? {
      assert r.world.dlq[|w.dlq|] == Letter(payload, r.attempts, name);
      assert r.world.dlq[|w.dlq|] in r.world.dlq;
      assert Accounted(r.world, name, payload);
    }
    hide Accounted;
    SafeStep(w, r.world, name, payload);
  }

  lemma ExtendsOn(w: World, t: World, u: World)
    requires Extends(w, t)
    ensures u == t || Extends(t, u) ==> Extends(w, u)
  {
    hide Accounted;
  }

  // A batch loses nothing, overwrites nothing and counts what it staged.
  lemma {:induction false} BatchExtends(w: World, policy: RetryPolicy, f: Faults, ext: string, listing: seq<string>)
    ensures var (t, n) := StageBatch(w, policy, f, ext, listing);
      Extends(w, t) && |t.staged| == |w.staged| + n
  {
    assert Extends(w, w) by { hide Accounted; }
    if listing != [] {
      hide StageFrom, Extends;
      var k := |listing| - 1;
      BatchExtends(w, policy, f, ext, listing[..k]);
      var earlier := StageBatch(w, policy, f, ext, listing[..k]).0;
      ExtendsOn(w, earlier, StageBatch(w, policy, f, ext, listing).0);
      if listing[k] in earlier.queue && earlier.queue[listing[k]].Valid? {
        OneExtends(earlier, policy, f, ext, listing[k]);
      }
    }
  }

  // The message is staged or dead-lettered, and its acknowledgement works.
  predicate Settled(policy: RetryPolicy, f: Faults, name: string) {
    && f.acks(name)
    && ((exists a :: 0 < a <= policy.maxAttempts && f.stages(name, a)) || (0 < policy.maxAttempts && f.dlqWrites(name)))
  }

  // After a batch a message is still queued exactly if it was before and it is
  // not one of the readable listed ones that settled; what stays is unchanged.
  lemma {:induction false} QueuedAfterIff(w: World, policy: RetryPolicy, f: Faults, ext: string, listing: seq<string>, name: string)
    ensures var t := StageBatch(w, policy, f, ext, listing).0;
      && (name in t.queue <==> name in w.queue && !(name in listing && w.queue[name].Valid? && Settled(policy, f, name)))
      && (name in t.queue ==> t.queue[name] == w.queue[name])
  {
    if listing != [] {
      var k := |listing| - 1;
      QueuedAfterIff(w, policy, f, ext, listing[..k], name);
      var earlier := StageBatch(w, policy, f, ext, listing[..k]).0;
      assert name in listing <==> name in listing[..k] || name == listing[k];
      if listing[k] in earlier.queue && earlier.queue[listing[k]].Valid? {
        OneMessage(earlier, policy, f, ext, listing[k], earlier.queue[listing[k]].payload, 0);
      }
      hide StageFrom;
    }
  }

  // Nothing is staged twice: once every readable message of a listing has
  // settled, a further batch over that listing, however it goes, does nothing.
  lemma SecondBatchIsIdle(w: World, policy: RetryPolicy, f: Faults, ext: string, listing: seq<string>, again: RetryPolicy, g: Faults)
    requires forall n :: n in listing && n in w.queue && w.queue[n].Valid? ==> Settled(policy, f, n)
    ensures var t := StageBatch(w, policy, f, ext, listing).0;
      StageBatch(t, again, g, ext, listing) == (t, 0)
  {
    var t := StageBatch(w, policy, f, ext, listing).0;
    hide StageBatch, Settled;
    forall n | n in listing ensures n !in t.queue || t.queue[n].Unreadable? {
      QueuedAfterIff(w, policy, f, ext, listing, n);
    }
    NothingToStage(t, again, g, ext, listing);
  }

  lemma {:induction false} NothingToStage(w: World, policy: RetryPolicy, f: Faults, ext: string, listing: seq<string>)
    requires forall n :: n in listing ==> n !in w.queue || w.queue[n].Unreadable?
    ensures StageBatch(w, policy, f, ext, listing) == (w, 0)
  {
    if listing != [] {
      hide StageFrom;
      assert listing[|listing| - 1] in listing;
      NothingToStage(w, policy, f, ext, listing[..|listing| - 1]);
    }
  }

  // Producers write under fresh names; batches may follow in any pattern.
  datatype Step =
    | Produce(name: string, payload: Payload)
    | Batch(policy: RetryPolicy, faults: Faults, ext: string, listing: seq<string>)

  ghost function Run(steps: seq<Step>): Option<World> {
    if steps == [] then Some(World(map[], map[], []))
    else
      match Run(steps[..|steps| - 1])
      case None => None
      case Some(w) =>
        match steps[|steps| - 1]
        case Produce(name, payload) => if name in w.queue then None else Some(w.(queue := w.queue[name := Valid(payload)]))
        case Batch(policy, f, ext, listing) => Some(StageBatch(w, policy, f, ext, listing).0)
  }

  // Every message ever produced is accounted for after every run.
  lemma {:induction false} NothingIsLost(steps: seq<Step>, k: nat)
    requires Run(steps).Some? && k < |steps| && steps[k].Produce?
    ensures Accounted(Run(steps).value, steps[k].name, steps[k].payload)
  {
    var n := |steps| - 1;
    hide StageBatch;
    var w := Run(steps[..n]).value;
    if k < n {
      NothingIsLost(steps[..n], k);
      if steps[n].Batch? {
        BatchExtends(w, steps[n].policy, steps[n].faults, steps[n].ext, steps[n].listing);
      } else {
        var t := Run(steps).value;
        assert t.staged == w.staged && t.dlq == w.dlq;
      }
    }
  }
}
