// The spool's record format: how appendSpoolLocked turns a payload into a
// stored line, and how the replay scanner cuts the file back into records.
module Framing {
  import opened ByteStrings
  import BlobCipher

  const MAX_REPLAY_RECORD_BYTES := 16 * 1024 * 1024

  // jsonValid stands for encoding/json's validity check.
  datatype Config = Config(
    key: Bytes, format: BlobCipher.RecordFormat, maxSpoolBytes: int, maxEventBytes: int, jsonValid: Bytes -> bool)
  {
    predicate Encrypted() {
      BlobCipher.EncryptionEnabled(key)
    }

    function MaxRecordBytes(): (m: nat)
      ensures 0 < m
    {
      if maxEventBytes <= 0 || maxEventBytes > MAX_REPLAY_RECORD_BYTES then MAX_REPLAY_RECORD_BYTES else maxEventBytes
    }

    function StoredLine(raw: Bytes, nonce: BlobCipher.Nonce): Bytes {
      if Encrypted() then format.encrypt(raw, key, nonce) else raw
    }

    // A line that does not decrypt is kept as it is.
    function DecodeLine(line: Bytes): Bytes {
      if Encrypted() then format.decrypt(line, key).GetOr(line) else line
    }
  }

  datatype Delivery = Delivery(payload: Bytes, start: nat, end: nat, skip: bool)

  // ---------- the scanner ----------

  function LineEnd(data: Bytes): (i: nat)
    ensures i <= |data| && forall k :: 0 <= k < i ==> data[k] != NEWLINE
    ensures i < |data| ==> data[i] == NEWLINE
  {
    if data == [] || data[0] == NEWLINE then 0 else 1 + LineEnd(data[1..])
  }

  function DropCR(line: Bytes): Bytes {
    if EndsInCR(line) then line[..|line| - 1] else line
  }

  predicate EndsInCR(line: Bytes) {
    line != [] && line[|line| - 1] == CARRIAGE_RETURN
  }

  datatype Token = NoMore | TooLong | Line(text: Bytes, size: nat)

  // bufio.Scanner with ScanLines and a buffer of `limit` octets: the line
  // must leave room for one more octet. The text has lost its terminator
  // and at most one carriage return; size is what the line occupies.
  function NextLine(data: Bytes, limit: nat): (t: Token)
    ensures t.Line? ==> 0 < t.size <= |data|
  {
    if data == [] then NoMore
    else
      var i := LineEnd(data);
      if i >= limit then TooLong
      else Line(DropCR(data[..i]), if i < |data| then i + 1 else i)
  }

  // What a scanned line becomes: a payload, or a skip mark for a blank line or
  // one that is not JSON after decoding.
  datatype Rebuilt = Payload(payload: Bytes) | Blank | Invalid(decoded: Bytes)

  function Rebuild(cfg: Config, text: Bytes): Rebuilt {
    var line := TrimSpace(text);
    if line == [] then Blank
    else
      var decoded := cfg.DecodeLine(line);
      if cfg.jsonValid(decoded) then Payload(decoded) else Invalid(decoded)
  }

  function ReplayItem(cfg: Config, text: Bytes, start: nat, end: nat): Delivery {
    match Rebuild(cfg, text)
    case Payload(p) => Delivery(p, start, end, false)
    case _ => Delivery([], start, end, true)
  }

  function StoredBytes(text: Bytes, remaining: nat): nat {
    if |text| + 1 > remaining then remaining else |text| + 1
  }

  datatype Replay = Replay(items: seq<Delivery>, complete: bool)

  // Scan `data`, the unread tail of a file of `size` octets, rebuilding one
  // delivery per line from offset `next` on. An over-long line ends the scan.
  function ReplayFrom(cfg: Config, data: Bytes, next: nat, size: nat): Replay
    requires next + |data| <= size
    decreases |data|
  {
    match NextLine(data, cfg.MaxRecordBytes())
    case NoMore => Replay([], true)
    case TooLong => Replay([], false)
    case Line(text, n) =>
      var end := next + StoredBytes(text, size - next);
      var rest := ReplayFrom(cfg, data[n..], end, size);
      Replay([ReplayItem(cfg, text, next, end)] + rest.items, rest.complete)
  }

  // ---------- appended records ----------

  datatype Record = Record(payload: Bytes, line: Bytes)

  function Framed(rs: seq<Record>): Bytes {
    if rs == [] then [] else rs[0].line + [NEWLINE] + Framed(rs[1..])
  }

  // The deliveries that append returned for these records, the first at `next`.
  function Appended(rs: seq<Record>, next: nat): (items: seq<Delivery>)
    ensures |items| == |rs|
  {
    if rs == [] then []
    else
      var end := next + |rs[0].line| + 1;
      [Delivery(rs[0].payload, next, end, false)] + Appended(rs[1..], end)
  }

  // One line of the file, whatever the payload was.
  predicate OneLine(line: Bytes) {
    NEWLINE !in line && !EndsInCR(line)
  }

  predicate Replayable(cfg: Config, r: Record) {
    && OneLine(r.line)
    && |r.line| < cfg.MaxRecordBytes()
    && Rebuild(cfg, r.line) == Payload(r.payload)
  }

  lemma LineEndOfFramed(line: Bytes, rest: Bytes)
    ensures LineEnd(line + [NEWLINE] + rest) <= |line|
    ensures LineEnd(line + [NEWLINE] + rest) == |line| <==> NEWLINE !in line
  {
    var data := line + [NEWLINE] + rest;
    assert data[|line|] == NEWLINE;
    assert data[..|line|] == line;
    assert forall k :: 0 <= k < |line| ==> data[k] == line[k];
  }

  lemma FramedTail(rs: seq<Record>)
    requires rs != []
    ensures Framed(rs)[|rs[0].line| + 1..] == Framed(rs[1..])
    ensures |Framed(rs)| == |rs[0].line| + 1 + |Framed(rs[1..])|
    ensures Framed(rs)[..|rs[0].line|] == rs[0].line
  {
  }

  // First line of a framed file whose first record is a single line.
  lemma FirstLine(rs: seq<Record>, limit: nat)
    requires rs != [] && OneLine(rs[0].line)
    ensures NextLine(Framed(rs), limit) == if |rs[0].line| >= limit then TooLong else Line(rs[0].line, |rs[0].line| + 1)
  {
    LineEndOfFramed(rs[0].line, Framed(rs[1..]));
    FramedTail(rs);
  }

  // The replay of a file, or of its tail from offset `next` on, that holds exactly these records.
  function ReplayOf(cfg: Config, rs: seq<Record>, next: nat): Replay {
    ReplayFrom(cfg, Framed(rs), next, next + |Framed(rs)|)
  }

  ghost predicate ReplayedExactly(cfg: Config, rs: seq<Record>, next: nat) {
    ReplayOf(cfg, rs, next) == Replay(Appended(rs, next), true)
  }

  lemma ReplayedHead(cfg: Config, rs: seq<Record>, next: nat)
    requires rs != [] && OneLine(rs[0].line) && |rs[0].line| < cfg.MaxRecordBytes()
    ensures var end := next + |rs[0].line| + 1;
      var rest := ReplayOf(cfg, rs[1..], end);
      ReplayOf(cfg, rs, next) == Replay([ReplayItem(cfg, rs[0].line, next, end)] + rest.items, rest.complete)
  {
    hide ReplayItem;
    FirstLine(rs, cfg.MaxRecordBytes());
    FramedTail(rs);
  }

  // A first record that is not one short line is replayed with another end.
  lemma BrokenHead(cfg: Config, rs: seq<Record>, next: nat)
    requires rs != [] && !(OneLine(rs[0].line) && |rs[0].line| < cfg.MaxRecordBytes())
    ensures !ReplayedExactly(cfg, rs, next)
  {
    hide Rebuild;
    LineEndOfFramed(rs[0].line, Framed(rs[1..]));
    FramedTail(rs);
    hide Framed, LineEnd;
    var got := ReplayOf(cfg, rs, next);
    if got.complete {
      assert got.items[0].end != next + |rs[0].line| + 1;
      assert Appended(rs, next)[0].end == next + |rs[0].line| + 1;
    }
  }

  lemma EqualCons(x: Delivery, xs: seq<Delivery>, y: Delivery, ys: seq<Delivery>, complete: bool)
    ensures Replay([x] + xs, complete) == Replay([y] + ys, true) <==> x == y && Replay(xs, complete) == Replay(ys, true)
  {
    var s, t := [x] + xs, [y] + ys;
    assert s[0] == x && s[1..] == xs && t[0] == y && t[1..] == ys;
  }

  lemma ReplayedNone(cfg: Config, next: nat)
    ensures ReplayedExactly(cfg, [], next)
  {
    hide Rebuild, ReplayItem;
  }

  lemma ReplayedCons(cfg: Config, rs: seq<Record>, next: nat)
    requires rs != []
    ensures ReplayedExactly(cfg, rs, next)
       <==> Replayable(cfg, rs[0]) && ReplayedExactly(cfg, rs[1..], next + |rs[0].line| + 1)
  {
    hide ReplayFrom, ReplayOf, Framed, Rebuild;
    var end := next + |rs[0].line| + 1;
    if OneLine(rs[0].line) && |rs[0].line| < cfg.MaxRecordBytes() {
      ReplayedHead(cfg, rs, next);
      var rest := ReplayOf(cfg, rs[1..], end);
      EqualCons(ReplayItem(cfg, rs[0].line, next, end), rest.items,
                Delivery(rs[0].payload, next, end, false), Appended(rs[1..], end), rest.complete);
    } else {
      BrokenHead(cfg, rs, next);
    }
  }

  // Main law of the log: scanning what append wrote gives back exactly what
  // append returned if and only if every record is replayable.
  lemma {:induction false} ReplayInvertsAppend(cfg: Config, rs: seq<Record>, next: nat)
    ensures ReplayedExactly(cfg, rs, next) <==> forall r :: r in rs ==> Replayable(cfg, r)
  {
    hide *;
    if rs == [] {
      ReplayedNone(cfg, next);
    } else {
      ReplayedCons(cfg, rs, next);
      ReplayInvertsAppend(cfg, rs[1..], next + |rs[0].line| + 1);
      assert rs == [rs[0]] + rs[1..];
    }
  }

  // Which payloads that law covers, as a caller can test before appending.
  // Encryption lengthens a record, so an event within max_event_bytes may fail.
  predicate Recoverable(cfg: Config, raw: Bytes) {
    && cfg.jsonValid(raw)
    && if NotBlank(cfg.key) then FitsReplay(cfg, 4 + (|raw| + 30) / 3 * 4)
       else raw != [] && NEWLINE !in raw && !IsSpace(raw[0]) && !IsSpace(raw[|raw| - 1]) && FitsReplay(cfg, |raw|)
  }

  // Lines stay below 16 MiB and below max_event_bytes if that is set.
  predicate FitsReplay(cfg: Config, length: nat) {
    length < 16_777_216 && (cfg.maxEventBytes > 0 ==> length < cfg.maxEventBytes)
  }

  lemma RecoverableIffReplayable(cfg: Config, raw: Bytes, nonce: BlobCipher.Nonce)
    requires cfg.format.Sound()
    ensures Replayable(cfg, Record(raw, cfg.StoredLine(raw, nonce))) <==> Recoverable(cfg, raw)
  {
    BlobCipher.EncryptionEnabledIff(cfg.key);
    assert TrimSpace([]) == [];
    hide BlobCipher.EncryptionEnabled, TrimSpace, NotBlank;
    if cfg.Encrypted() {
      var line := cfg.StoredLine(raw, nonce);
      assert cfg.format.OpensAgain(raw, cfg.key, nonce);
      TrimSpaceFree(line);
    } else if raw != [] {
      TrimKeepsIff(raw);
    }
  }

  // A line that does not decrypt, as one stored before encryption was on, is
  // replayed as it stands.
  lemma UndecryptableIsKept(cfg: Config, line: Bytes)
    requires NotBlank(cfg.key) && line != [] && !IsSpace(line[0]) && !IsSpace(line[|line| - 1])
    requires cfg.format.decrypt(line, cfg.key) in {None, Some(line)}
    ensures Rebuild(cfg, line) == if cfg.jsonValid(line) then Payload(line) else Invalid(line)
  {
    TrimKeepsIff(line);
  }

  // With encryption on, whatever the payload, the stored line is one line.
  lemma EncryptedIsOneLine(cfg: Config, raw: Bytes, nonce: BlobCipher.Nonce)
    requires cfg.Encrypted() && cfg.format.Sound()
    ensures OneLine(cfg.StoredLine(raw, nonce))
  {
    assert cfg.format.OpensAgain(raw, cfg.key, nonce);
  }

  // An event that just fits max_event_bytes is appended but cuts the replay short.
  lemma LargestEventStopsReplay(cfg: Config, raw: Bytes, nonce: BlobCipher.Nonce, rest: seq<Record>, next: nat)
    requires 0 < cfg.maxEventBytes <= MAX_REPLAY_RECORD_BYTES && |raw| == cfg.maxEventBytes && cfg.format.Sound()
    requires OneLine(cfg.StoredLine(raw, nonce))
    ensures var rs := [Record(raw, cfg.StoredLine(raw, nonce))] + rest;
      ReplayOf(cfg, rs, next) == Replay([], false)
  {
    if cfg.Encrypted() { assert cfg.format.OpensAgain(raw, cfg.key, nonce); }
    FirstLine([Record(raw, cfg.StoredLine(raw, nonce))] + rest, cfg.MaxRecordBytes());
  }

  // ---------- replay of one-line records, replayable or not ----------

  lemma {:induction false} FramedConcat(a: seq<Record>, b: seq<Record>)
    ensures Framed(a + b) == Framed(a) + Framed(b)
  {
    if a == [] {
      assert a + b == b;
    } else {
      assert (a + b)[1..] == a[1..] + b;
      FramedConcat(a[1..], b);
    }
  }

  // The offset at which record i starts.
  function Offset(rs: seq<Record>, i: nat): nat
    requires i <= |rs|
  {
    |Framed(rs[..i])|
  }

  lemma OffsetStep(rs: seq<Record>, i: nat)
    requires i < |rs|
    ensures Offset(rs, i + 1) == Offset(rs, i) + |rs[i].line| + 1
    ensures Offset(rs, i + 1) <= |Framed(rs)|
    ensures Framed(rs)[Offset(rs, i)..Offset(rs, i + 1)] == rs[i].line + [NEWLINE]
  {
    assert rs[..i + 1] == rs[..i] + [rs[i]];
    FramedConcat(rs[..i], [rs[i]]);
    assert Framed([rs[i]]) == rs[i].line + [NEWLINE];
    assert rs == rs[..i + 1] + rs[i + 1..];
    FramedConcat(rs[..i + 1], rs[i + 1..]);
  }

  lemma {:induction false} OffsetsIncrease(rs: seq<Record>, i: nat, j: nat)
    requires i < j <= |rs|
    ensures Offset(rs, i) < Offset(rs, j)
    decreases j
  {
    OffsetStep(rs, j - 1);
    if i < j - 1 { OffsetsIncrease(rs, i, j - 1); }
  }

  // The file from record i on holds exactly the records from i on.
  lemma SuffixAtOffset(rs: seq<Record>, i: nat)
    requires i <= |rs|
    ensures Offset(rs, i) <= |Framed(rs)| && Framed(rs)[Offset(rs, i)..] == Framed(rs[i..])
  {
    assert rs == rs[..i] + rs[i..];
    FramedConcat(rs[..i], rs[i..]);
  }

  lemma OffsetCons(rs: seq<Record>, i: nat)
    requires 0 < i <= |rs|
    ensures Offset(rs, i) == |rs[0].line| + 1 + Offset(rs[1..], i - 1)
  {
    assert rs[..i][1..] == rs[1..][..i - 1];
    assert rs[..i][0] == rs[0];
  }

  // These deliveries are the first of the records, each at its own offsets.
  ghost predicate RebuiltInOrder(cfg: Config, items: seq<Delivery>, rs: seq<Record>, next: nat) {
    && |items| <= |rs|
    && forall i :: 0 <= i < |items| ==>
         items[i] == ReplayItem(cfg, rs[i].line, next + Offset(rs, i), next + Offset(rs, i + 1))
  }

  lemma RebuiltCons(cfg: Config, items: seq<Delivery>, rs: seq<Record>, next: nat)
    requires rs != [] && RebuiltInOrder(cfg, items, rs[1..], next + |rs[0].line| + 1)
    ensures RebuiltInOrder(cfg, [ReplayItem(cfg, rs[0].line, next, next + |rs[0].line| + 1)] + items, rs, next)
  {
    hide ReplayItem;
    var all := [ReplayItem(cfg, rs[0].line, next, next + |rs[0].line| + 1)] + items;
    forall i | 0 <= i < |all|
      ensures all[i] == ReplayItem(cfg, rs[i].line, next + Offset(rs, i), next + Offset(rs, i + 1))
    {
      OffsetCons(rs, i + 1);
      if i > 0 { OffsetCons(rs, i); }
    }
  }

  // A replay of one-line records: all of them, or those before an over-long one.
  ghost predicate RebuiltPrefix(cfg: Config, got: Replay, rs: seq<Record>, next: nat) {
    && RebuiltInOrder(cfg, got.items, rs, next)
    && (got.complete <==> |got.items| == |rs|)
    && (|got.items| < |rs| ==> |rs[|got.items|].line| >= cfg.MaxRecordBytes())
  }

  lemma RebuiltPrefixCons(cfg: Config, got: Replay, rs: seq<Record>, next: nat)
    requires rs != [] && RebuiltPrefix(cfg, got, rs[1..], next + |rs[0].line| + 1)
    ensures RebuiltPrefix(cfg, Replay([ReplayItem(cfg, rs[0].line, next, next + |rs[0].line| + 1)] + got.items, got.complete), rs, next)
  {
    hide ReplayItem;
    RebuiltCons(cfg, got.items, rs, next);
  }

  lemma RebuiltPrefixStops(cfg: Config, rs: seq<Record>, next: nat)
    requires rs == [] || (OneLine(rs[0].line) && |rs[0].line| >= cfg.MaxRecordBytes())
    ensures RebuiltPrefix(cfg, ReplayOf(cfg, rs, next), rs, next)
  {
    hide ReplayItem;
    if rs != [] { FirstLine(rs, cfg.MaxRecordBytes()); }
  }

  // Replay rebuilds the records one by one up to the first over-long line.
  lemma {:induction false} ReplayOfLines(cfg: Config, rs: seq<Record>, next: nat)
    requires forall r :: r in rs ==> OneLine(r.line)
    ensures RebuiltPrefix(cfg, ReplayOf(cfg, rs, next), rs, next)
  {
    hide *;
    if rs == [] || |rs[0].line| >= cfg.MaxRecordBytes() {
      RebuiltPrefixStops(cfg, rs, next);
    } else {
      var end := next + |rs[0].line| + 1;
      ReplayOfLines(cfg, rs[1..], end);
      ReplayedHead(cfg, rs, next);
      RebuiltPrefixCons(cfg, ReplayOf(cfg, rs[1..], end), rs, next);
    }
  }

  // ---------- replay of arbitrary file contents ----------

  // The ranges that the scanned lines really occupy.
  function LineRanges(data: Bytes, next: nat, limit: nat): seq<(nat, nat)>
    decreases |data|
  {
    match NextLine(data, limit)
    case Line(_, n) => [(next, next + n)] + LineRanges(data[n..], next + n, limit)
    case _ => []
  }

  // Some scanned line that ends in a newline has a carriage return before it.
  predicate CrBeforeNewline(data: Bytes, limit: nat)
    decreases |data|
  {
    match NextLine(data, limit)
    case Line(text, n) => |text| + 1 < n || CrBeforeNewline(data[n..], limit)
    case _ => false
  }

  function Ranges(items: seq<Delivery>): (r: seq<(nat, nat)>)
    ensures |r| == |items|
  {
    seq(|items|, i requires 0 <= i < |items| => (items[i].start, items[i].end))
  }

  lemma RangesCons(d: Delivery, items: seq<Delivery>)
    ensures Ranges([d] + items) == [(d.start, d.end)] + Ranges(items)
  {
  }

  lemma EqualRangesCons(x: (nat, nat), xs: seq<(nat, nat)>, y: (nat, nat), ys: seq<(nat, nat)>)
    ensures [x] + xs == [y] + ys <==> x == y && xs == ys
  {
    var s, t := [x] + xs, [y] + ys;
    assert s[0] == x && s[1..] == xs && t[0] == y && t[1..] == ys;
  }

  ghost predicate Aligned(cfg: Config, data: Bytes, next: nat) {
    Ranges(ReplayFrom(cfg, data, next, next + |data|).items) == LineRanges(data, next, cfg.MaxRecordBytes())
  }

  lemma ReplayStep(cfg: Config, data: Bytes, next: nat)
    requires NextLine(data, cfg.MaxRecordBytes()).Line?
    ensures var Line(text, n) := NextLine(data, cfg.MaxRecordBytes());
      var end := next + StoredBytes(text, |data|);
      Ranges(ReplayFrom(cfg, data, next, next + |data|).items)
        == [(next, end)] + Ranges(ReplayFrom(cfg, data[n..], end, next + |data|).items)
  {
    hide Rebuild, NextLine;
    var Line(text, n) := NextLine(data, cfg.MaxRecordBytes());
    LineSize(data, cfg.MaxRecordBytes());
    var end := next + StoredBytes(text, |data|);
    RangesCons(ReplayItem(cfg, text, next, end), ReplayFrom(cfg, data[n..], end, next + |data|).items);
  }

  lemma RangesStep(data: Bytes, next: nat, limit: nat)
    requires NextLine(data, limit).Line?
    ensures var n := NextLine(data, limit).size; LineRanges(data, next, limit) == [(next, next + n)] + LineRanges(data[n..], next + n, limit)
  {
    hide NextLine;
  }

  lemma AlignedCons(cfg: Config, data: Bytes, next: nat)
    requires NextLine(data, cfg.MaxRecordBytes()).Line?
    ensures var t := NextLine(data, cfg.MaxRecordBytes());
      Aligned(cfg, data, next) <==> t.size <= |t.text| + 1 && Aligned(cfg, data[t.size..], next + t.size)
  {
    hide ReplayFrom, NextLine, Ranges, LineRanges, Rebuild, Config.MaxRecordBytes;
    ReplayStep(cfg, data, next);
    LineSize(data, cfg.MaxRecordBytes());
    RangesStep(data, next, cfg.MaxRecordBytes());
    var Line(text, n) := NextLine(data, cfg.MaxRecordBytes());
    var end := next + StoredBytes(text, |data|);
    var rest := Ranges(ReplayFrom(cfg, data[n..], end, next + |data|).items);
    EqualRangesCons((next, end), rest, (next, next + n), LineRanges(data[n..], next + n, cfg.MaxRecordBytes()));
  }

  lemma LineSize(data: Bytes, limit: nat)
    requires NextLine(data, limit).Line?
    ensures var t := NextLine(data, limit); t.size == |data| || |t.text| < t.size
  {
  }

  // The replayed offsets are the true line offsets if and only if no scanned
  // line is terminated by a carriage return and a newline.
  lemma {:induction false} ReplayAligned(cfg: Config, data: Bytes, next: nat)
    ensures Aligned(cfg, data, next) <==> !CrBeforeNewline(data, cfg.MaxRecordBytes())
    decreases |data|
  {
    hide NextLine, ReplayItem;
    if NextLine(data, cfg.MaxRecordBytes()).Line? {
      hide Aligned;
      var n := NextLine(data, cfg.MaxRecordBytes()).size;
      AlignedCons(cfg, data, next);
      ReplayAligned(cfg, data[n..], next + n);
      assert CrBeforeNewline(data, cfg.MaxRecordBytes())
        <==> |NextLine(data, cfg.MaxRecordBytes()).text| + 1 < n || CrBeforeNewline(data[n..], cfg.MaxRecordBytes());
    }
  }

  // Consecutive ranges that start at `from` and stop at `to`.
  predicate Partition(rs: seq<(nat, nat)>, from: nat, to: nat) {
    if rs == [] then from == to
    else rs[0].0 == from && from < rs[0].1 && Partition(rs[1..], rs[0].1, to)
  }

  // A complete scan of a file without such lines, with or without a final
  // newline, cuts the unread bytes into consecutive non-empty deliveries.
  lemma CompleteStep(cfg: Config, data: Bytes, next: nat)
    requires !CrBeforeNewline(data, cfg.MaxRecordBytes())
    requires ReplayFrom(cfg, data, next, next + |data|).complete
    ensures var t := NextLine(data, cfg.MaxRecordBytes());
      if t.Line? then
        && StoredBytes(t.text, |data|) == t.size && !CrBeforeNewline(data[t.size..], cfg.MaxRecordBytes())
        && ReplayFrom(cfg, data[t.size..], next + t.size, next + |data|).complete
      else data == [] && ReplayFrom(cfg, data, next, next + |data|).items == []
  {
    hide Rebuild, ReplayItem;
    if NextLine(data, cfg.MaxRecordBytes()).Line? { LineSize(data, cfg.MaxRecordBytes()); }
  }

  lemma {:induction false} ReplayPartitions(cfg: Config, data: Bytes, next: nat)
    requires !CrBeforeNewline(data, cfg.MaxRecordBytes())
    requires ReplayFrom(cfg, data, next, next + |data|).complete
    ensures Partition(Ranges(ReplayFrom(cfg, data, next, next + |data|).items), next, next + |data|)
    decreases |data|
  {
    hide ReplayFrom, NextLine, CrBeforeNewline, StoredBytes;
    CompleteStep(cfg, data, next);
    match NextLine(data, cfg.MaxRecordBytes())
    case Line(text, n) =>
      ReplayStep(cfg, data, next);
      ReplayPartitions(cfg, data[n..], next + n);
      hide Ranges;
      var rest := Ranges(ReplayFrom(cfg, data[n..], next + n, next + |data|).items);
      assert ([(next, next + n)] + rest)[1..] == rest;
    case _ =>
  }
}
