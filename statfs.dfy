/**
 * The usage prober: turns the operating system's filesystem statistics for a volume
 * into byte counts. The statistics query itself is not modelled; its answer is an input.
 */
module Statfs {
  import opened GoTypes

  /** The fields of the filesystem-statistics record that the prober reads. */
  datatype StatfsRecord = StatfsRecord(
    blocks: Uint64,  // total data blocks
    bfree: Uint64,   // free blocks
    bavail: Uint64,  // free blocks available to unprivileged users
    bsize: Int64)    // block size; a signed integer on most platforms

  /** What the statistics query answers for a path: an error, or the record. */
  datatype StatfsResult = StatfsFailed(err: Error) | StatfsOk(record: StatfsRecord)

  /** Byte counts for one volume. */
  datatype DiskStatus = DiskStatus(all: Uint64, available: Uint64, free: Uint64, used: Uint64)

  const ZeroStatus: DiskStatus := DiskStatus(0, 0, 0, 0)

  /** The (diskStatus, error) pair the prober returns. */
  datatype Usage = Usage(status: DiskStatus, err: Option<Error>)

  /** The block size as the prober uses it, after conversion to uint64. */
  function BlockSize(rec: StatfsRecord): Uint64 {
    AsUint64(rec.bsize)
  }

  /** The block count that "used" is measured against: available blocks on darwin, free blocks elsewhere. */
  function UnusedBlocks(rec: StatfsRecord, isDarwin: bool): Uint64 {
    if isDarwin then rec.bavail else rec.bfree
  }

  /**
   * The prober. A failed query yields the zero status and the query's error; otherwise
   * every count is a block count times the block size in uint64 arithmetic, and "used"
   * is the total less the available bytes on darwin and less the free bytes elsewhere.
   */
  function DiskUsage(query: StatfsResult, isDarwin: bool): (u: Usage)
    ensures query.StatfsFailed? ==> u == Usage(ZeroStatus, Some(query.err))
    ensures query.StatfsOk? ==>
      var rec, bs := query.record, BlockSize(query.record);
      && u.err == None
      && u.status.all == (rec.blocks * bs) % TWO_TO_THE_64
      && u.status.available == (rec.bavail * bs) % TWO_TO_THE_64
      && u.status.free == (rec.bfree * bs) % TWO_TO_THE_64
      && u.status.used == (u.status.all - (if isDarwin then u.status.available else u.status.free)) % TWO_TO_THE_64
  {
    match query
    case StatfsFailed(e) => Usage(ZeroStatus, Some(e))
    case StatfsOk(rec) =>
      var bs := BlockSize(rec);
      var disk := DiskStatus(Mul(rec.blocks, bs), Mul(rec.bavail, bs), Mul(rec.bfree, bs), 0);
      var disk := if isDarwin then disk.(used := Sub(disk.all, disk.available))
                  else disk.(used := Sub(disk.all, disk.free));
      Usage(disk, None)
  }

  /**
   * "Used" is the scaled difference of block counts: on every platform the subtraction
   * can be done on blocks before multiplying by the block size, modulo 2^64.
   */
  lemma UsedIsScaledDifference(rec: StatfsRecord, isDarwin: bool)
    ensures DiskUsage(StatfsOk(rec), isDarwin).status.used
         == Mul(Sub(rec.blocks, UnusedBlocks(rec, isDarwin)), BlockSize(rec))
  {
    SubOfMuls(rec.blocks, UnusedBlocks(rec, isDarwin), BlockSize(rec));
  }

  /**
   * When the unused block count does not exceed the total and the total byte count does
   * not overflow, nothing wraps: "used" is at most the total, and "used" plus the unused
   * bytes (available on darwin, free elsewhere) is exactly the total.
   */
  lemma UsedWithinTotal(rec: StatfsRecord, isDarwin: bool)
    requires UnusedBlocks(rec, isDarwin) <= rec.blocks
    requires rec.blocks * BlockSize(rec) < TWO_TO_THE_64
    ensures var s := DiskUsage(StatfsOk(rec), isDarwin).status;
      && s.used <= s.all
      && s.all == rec.blocks * BlockSize(rec)
      && s.used + (if isDarwin then s.available else s.free) == s.all
      && s.used == (rec.blocks - UnusedBlocks(rec, isDarwin)) * BlockSize(rec)
  {
    ScaledNoWrap(rec.blocks, UnusedBlocks(rec, isDarwin), BlockSize(rec));
  }

  /** Scaling b <= a by s, when a * s fits in 64 bits, wraps nowhere. */
  lemma ScaledNoWrap(a: Uint64, b: Uint64, s: Uint64)
    requires b <= a
    requires a * s < TWO_TO_THE_64
    ensures Mul(a, s) == a * s && Mul(b, s) == b * s
    ensures Sub(Mul(a, s), Mul(b, s)) == (a - b) * s <= a * s
  {
    assert (a - b) * s == a * s - b * s;
    assert 0 <= (a - b) * s;
  }

  /** The platform only affects "used": the total, available and free counts agree on both. */
  lemma PlatformOnlyAffectsUsed(q: StatfsResult)
    ensures var d, o := DiskUsage(q, true), DiskUsage(q, false);
      d.err == o.err && d.status.(used := 0) == o.status.(used := 0)
  {
  }
}
