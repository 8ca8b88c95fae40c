// The durable half of the spool: the file, the checkpoint offset and the byte
// gauge, with the critical sections of spool.go as functions on them. Position
// saves succeed, so the saved offset is the one in memory.
module SpoolDisk {
  import opened ByteStrings
  import opened Framing
  import BlobCipher

  datatype Disk = Disk(file: Bytes, pos: nat, spoolBytes: int)

  const EMPTY_DISK := Disk([], 0, 0)

  // How the operating system answers the write; `n` octets arrived.
  datatype WriteOutcome = Written | WriteFailed(n: nat) | ShortWrite(n: nat) | SyncFailed

  datatype AppendResult = Stored(item: Delivery) | CapacityExceeded | IoError

  function Unprocessed(d: Disk): int {
    if |d.file| < d.pos then |d.file| else |d.file| - d.pos
  }

  function AppendDisk(cfg: Config, d: Disk, raw: Bytes, nonce: BlobCipher.Nonce, outcome: WriteOutcome): (Disk, AppendResult) {
    var stored := cfg.StoredLine(raw, nonce) + [NEWLINE];
    var projected := Unprocessed(d) + |stored|;
    if 0 < cfg.maxSpoolBytes < projected then (d, CapacityExceeded)
    else if outcome != Written then (d, IoError)
    else (Disk(d.file + stored, d.pos, projected), Stored(Delivery(raw, |d.file|, |d.file| + |stored|, false)))
  }

  datatype MarkResult = NotDurable | Gap | OutOfBounds | Advanced | Compacted

  function MarkDisk(d: Disk, item: Delivery): (Disk, MarkResult) {
    if item.end <= item.start then (d, NotDurable)
    else if item.start != d.pos then (d, Gap)
    else if item.end > |d.file| then (d, OutOfBounds)
    else if item.end < |d.file| then (d.(pos := item.end, spoolBytes := |d.file| - item.end), Advanced)
    else (EMPTY_DISK, Compacted)
  }

  // Opening the spool after a stop: reset the gauge, drop a fully processed
  // file, otherwise scan the unprocessed tail.
  function RestartDisk(cfg: Config, d: Disk): (Disk, Replay) {
    if d.pos >= |d.file| then
      (if d.file == [] then d.(spoolBytes := 0) else EMPTY_DISK, Replay([], true))
    else (d.(spoolBytes := |d.file|), ReplayFrom(cfg, d.file[d.pos..], d.pos, |d.file|))
  }
}
