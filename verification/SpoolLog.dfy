// The collector's spool object: the methods of spool.go that touch the file,
// step by step as the source has them, each proved against SpoolDisk.
module SpoolLog {
  import opened ByteStrings
  import opened Framing
  import opened SpoolDisk
  import BlobCipher

  // One scanned line becomes a delivery, or a skip mark if it is blank or not JSON.
  method RebuildDelivery(cfg: Config, rawLine: Bytes, start: nat, end: nat) returns (item: Delivery)
    ensures item == ReplayItem(cfg, rawLine, start, end)
  {
    hide TrimSpace, BlobCipher.EncryptionEnabled;
    item := Delivery([], start, end, true);
    var line := TrimSpace(rawLine);
    if line != [] {
      var decoded := cfg.DecodeLine(line);
      if cfg.jsonValid(decoded) {
        item := Delivery(decoded, start, end, false);
      }
    }
  }

  lemma ReplayUnfolds(cfg: Config, data: Bytes, next: nat, size: nat)
    requires next + |data| <= size
    ensures var got := ReplayFrom(cfg, data, next, size);
      match NextLine(data, cfg.MaxRecordBytes())
      case NoMore => got == Replay([], true)
      case TooLong => got == Replay([], false)
      case Line(text, n) =>
        var end := next + StoredBytes(text, size - next);
        && end + |data[n..]| <= size
        && got.items == [ReplayItem(cfg, text, next, end)] + ReplayFrom(cfg, data[n..], end, size).items
        && got.complete == ReplayFrom(cfg, data[n..], end, size).complete
  {
    hide ReplayItem;
  }

  // The scanner loop of replaySpool over the unread tail of the file.
  method ScanRecords(cfg: Config, tail: Bytes, replayStart: nat, currentSize: nat) returns (items: seq<Delivery>, complete: bool)
    requires replayStart + |tail| <= currentSize
    ensures Replay(items, complete) == ReplayFrom(cfg, tail, replayStart, currentSize)
  {
    hide ReplayItem, ReplayFrom, NextLine;
    items := [];
    var nextOffset: nat := replayStart;
    var data := tail;
    ghost var whole := ReplayFrom(cfg, tail, replayStart, currentSize);
    while true
      invariant nextOffset + |data| <= currentSize
      invariant items + ReplayFrom(cfg, data, nextOffset, currentSize).items == whole.items
      invariant ReplayFrom(cfg, data, nextOffset, currentSize).complete == whole.complete
      decreases |data|
    {
      ReplayUnfolds(cfg, data, nextOffset, currentSize);
      match NextLine(data, cfg.MaxRecordBytes())
      case NoMore => return items, true;
      case TooLong => return items, false;
      case Line(rawLine, consumed) =>
        var storedBytes := |rawLine| + 1;
        var remaining := currentSize - nextOffset;
        if storedBytes > remaining {
          storedBytes := remaining;
        }
        var endOffset := nextOffset + storedBytes;
        var item := RebuildDelivery(cfg, rawLine, nextOffset, endOffset);
        nextOffset := endOffset;
        items := items + [item];
        data := data[consumed..];
    }
  }

  class Spool {
    const cfg: Config
    var file: Bytes
    var processedPos: nat
    var spoolBytes: int

    function Contents(): Disk
      reads this
    {
      Disk(file, processedPos, spoolBytes)
    }

    constructor (cfg: Config, file: Bytes, savedPos: nat)
      ensures this.cfg == cfg && Contents() == Disk(file, savedPos, 0)
    {
      this.cfg := cfg;
      this.file := file;
      processedPos := savedPos;
      spoolBytes := 0;
    }

    // A failed or short write, or a failed sync, is undone by truncation.
    method AppendSpoolLocked(raw: Bytes, nonce: BlobCipher.Nonce, outcome: WriteOutcome) returns (r: AppendResult)
      modifies this
      ensures (Contents(), r) == AppendDisk(cfg, old(Contents()), raw, nonce, outcome)
      ensures r.CapacityExceeded? <==>
        && 0 < cfg.maxSpoolBytes
        && cfg.maxSpoolBytes < (if old(processedPos) <= old(|file|) then old(|file|) - old(processedPos) else old(|file|))
                               + |cfg.StoredLine(raw, nonce)| + 1
      ensures r.IoError? <==> !r.CapacityExceeded? && outcome != Written
      ensures !r.Stored? ==> Contents() == old(Contents())
      ensures r.Stored? ==>
        && old(file) < file && r.item.payload == raw && !r.item.skip
        && file[r.item.start..r.item.end] == cfg.StoredLine(raw, nonce) + [NEWLINE]
        && r.item.start == |old(file)| && r.item.end == |file|
    {
      hide Config.StoredLine;
      var stored := cfg.StoredLine(raw, nonce) + [NEWLINE];
      var startOffset := |file|;
      var unprocessedBytes := startOffset - processedPos;
      if unprocessedBytes < 0 {
        unprocessedBytes := startOffset;
      }
      var projectedBytes := unprocessedBytes + |stored|;
      if cfg.maxSpoolBytes > 0 && projectedBytes > cfg.maxSpoolBytes {
        return CapacityExceeded;
      }
      match outcome
      case WriteFailed(n) =>
        file := file + stored[..if n < |stored| then n else |stored|];
        file := file[..startOffset];
        return IoError;
      case ShortWrite(n) =>
        file := file + stored[..if n < |stored| then n else |stored|];
        file := file[..startOffset];
        return IoError;
      case SyncFailed =>
        file := file + stored;
        file := file[..startOffset];
        return IoError;
      case Written =>
        file := file + stored;
        spoolBytes := projectedBytes;
        return Stored(Delivery(raw, startOffset, startOffset + |stored|, false));
    }

    // The checkpoint moves over exactly the delivered record or not at all.
    method MarkSpoolDelivered(item: Delivery) returns (r: MarkResult)
      modifies this
      ensures (Contents(), r) == MarkDisk(old(Contents()), item)
      ensures r in {NotDurable, Gap, OutOfBounds} ==> Contents() == old(Contents())
      ensures r in {Advanced, Compacted} ==>
        file[processedPos..] == old(file)[item.end..] && spoolBytes == |file| - processedPos
    {
      if item.end <= item.start { return NotDurable; }
      if item.start != processedPos { return Gap; }
      var currentSize := |file|;
      if item.end > currentSize { return OutOfBounds; }
      processedPos := item.end;
      if processedPos < currentSize {
        spoolBytes := currentSize - processedPos;
        return Advanced;
      }
      file := [];
      processedPos := 0;
      spoolBytes := 0;
      return Compacted;
    }

    // initReliability's gauge handling followed by replaySpool.
    method Restart() returns (items: seq<Delivery>, complete: bool)
      modifies this
      ensures (Contents(), Replay(items, complete)) == RestartDisk(cfg, old(Contents()))
      ensures if old(processedPos) < |old(file)|
              then file == old(file) && processedPos == old(processedPos) && spoolBytes == |file|
              else && file == [] && spoolBytes == 0 && items == [] && complete
                   && processedPos == if old(file) == [] then old(processedPos) else 0
    {
      hide ReplayFrom;
      var currentSize := |file|;
      spoolBytes := currentSize;
      if processedPos >= currentSize {
        if currentSize > 0 {
          file := [];
          processedPos := 0;
        }
        spoolBytes := 0;
        return [], true;
      }
      items, complete := ScanRecords(cfg, file[processedPos..], processedPos, currentSize);
    }
  }
}
