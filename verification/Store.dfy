/** The daemon's segment lifecycle on a block device: claim, capture, finalize,
    delete, quick format, live tuning, and crashes between any two writes. */
module Store {
  import opened Bytes
  import opened Record
  import opened Device
  import opened Readers
  import opened Capture
  import opened CaptureRuns
  import opened SegmentData
  import opened Tuning

  // ---- state ----

  /** The completion callback a metadata write is waiting for. */
  datatype Callback =
    | ClaimToc | ClaimHeader | FinHeader | FinToc | FmtZero | FmtHeader | DeleteWrite

  /** A metadata write in flight, with the bytes handed to the device. */
  datatype Meta = Meta(cb: Callback, block: nat, blocks: seq<Block>)

  /** The daemon's memory. `cap.hwm` is vol.next_data_block and `cap.start` is
      segment_start_block. */
  datatype Daemon = Daemon(
    cap: Cap,
    unit: nat,                  // write_unit_bytes
    nextSeg: nat, initSec: nat, // vol's other changing fields
    segId: nat, currentSeg: Option<nat>, claiming: bool,
    startSec: nat, startNsec: nat,
    meta: Option<Meta>, delRead: Option<nat>,
    staged: Volume, cursor: nat)

  /** Circumstances the code relies on never meeting. */
  datatype Flags = Flags(
    capture: bool,  // a hazard of the capture path
    overlap: bool,  // a finalize began while an admin TOC operation was using io_buf
    lag: bool,      // the last finalize's header write has not reached the device, and none has since
    lagCrash: bool) // a crash came while that was so

  datatype Sys = Sys(m: Daemon, d: Disk, f: Flags)

  datatype Clock = Clock(sec: u64, nsec: u32, hz: u64)

  datatype Step =
    | Start(port: u16, limit: Option<u64>, now: Clock)
    | Capture(e: Event)
    | Scribble(io: Io, blocks: seq<Block>)
    | MetaDone(ok: bool, mask: set<nat>, now: Clock)
    | StopIdle // a stop request while no segment is open
    | DeleteStart(slot: nat)
    | DeleteRead(ok: bool)
    | FormatStart(sec: u64)
    | SetChunk(bytes: nat)
    | SetBuffers(count: nat)
    | SetWireSeq(on: bool)
    | Crash(mask: set<nat>, restart: Config)

  function U64(n: nat): nat {
    n % 0x1_0000_0000_0000_0000
  }

  // ---- what the daemon writes ----

  function VolumeFor(bs: nat, nextSeg: nat, hwm: nat, sec: nat): Volume {
    Volume(VOLUME_MAGIC, FORMAT_VERSION, bs, TOC_SLOT_COUNT, nextSeg, TOC_START, DATA_START, hwm, sec)
  }

  /** ctx->vol. */
  function LiveVolume(m: Daemon): Volume {
    VolumeFor(m.cap.cfg.bs, m.nextSeg, m.cap.hwm, m.initSec)
  }

  function OpenEntry(m: Daemon): Entry {
    Entry(SEGMENT_MAGIC, m.segId, STATE_OPEN, m.cap.start, 0, m.cap.cfg.bufSize,
          0, 0, 0, 0, 0, m.startSec, m.startNsec, 0, 0)
  }

  function FinalEntry(m: Daemon, now: Clock): Entry
    requires m.cap.start <= m.cap.next
  {
    Entry(SEGMENT_MAGIC, m.segId, STATE_FINALIZED, m.cap.start, m.cap.next - m.cap.start,
          m.cap.cfg.bufSize, U64(m.cap.recordCount), U64(m.cap.dropped),
          U64(m.cap.firstTsc), U64(m.cap.lastTsc), now.hz,
          m.startSec, m.startNsec, now.sec, now.nsec)
  }

  const STATE_OFFSET: nat := 12

  /** A TOC block with its state field overwritten, every other byte kept. */
  function MarkDeleted(b: Block): (r: Block)
    requires |b| >= ENTRY_BYTES
    ensures |r| == |b|
  {
    b[..STATE_OFFSET] + LE(STATE_DELETED, 4) + b[STATE_OFFSET + 4..]
  }

  function HeaderWrite(cb: Callback, v: Volume, bs: nat): Option<Meta>
    requires VOLUME_BYTES <= bs
  {
    Some(Meta(cb, HEADER_BLOCK, [VolumeBlock(v, bs)]))
  }

  function EntryWrite(cb: Callback, slot: nat, e: Entry, bs: nat): Option<Meta>
    requires ENTRY_BYTES <= bs
  {
    Some(Meta(cb, TOC_START + slot, [EntryBlock(e, bs)]))
  }

  // ---- claim ----

  /** admin_do_recording_start, then daemon_claim_segment_start. */
  function RecordingStart(m: Daemon, port: u16, limit: Option<u64>, now: Clock): Daemon
    requires ENTRY_BYTES <= m.cap.cfg.bs
  {
    if m.cap.recording then m // -EALREADY
    else
      var cfg := m.cap.cfg.(port := if port != 0 then port else m.cap.cfg.port,
                            countLimit := if limit.Some? then limit.value else m.cap.cfg.countLimit);
      var m1 := m.(cap := m.cap.(cfg := cfg));
      if cfg.port == 0 then m1 // -EINVAL
      else if m1.nextSeg >= TOC_SLOT_COUNT then m1 // -ENOSPC
      else
        var m2 := m1.(claiming := true, segId := m1.nextSeg,
                      cap := m1.cap.(start := m1.cap.hwm),
                      startSec := now.sec, startNsec := now.nsec);
        m2.(meta := EntryWrite(ClaimToc, m2.segId, OpenEntry(m2), m2.cap.cfg.bs))
  }

  function ClaimTocDone(m: Daemon, ok: bool): Daemon
    requires ENTRY_BYTES <= m.cap.cfg.bs
  {
    if !ok then m.(claiming := false, meta := None)
    else
      var m1 := m.(nextSeg := m.nextSeg + 1);
      m1.(meta := HeaderWrite(ClaimHeader, LiveVolume(m1), m1.cap.cfg.bs))
  }

  function ClaimHeaderDone(m: Daemon, ok: bool): Daemon
    requires Allocated(m.cap)
  {
    if !ok then m.(claiming := false, meta := None)
    else m.(cap := BeginSegment(m.cap), currentSeg := Some(m.segId), claiming := false, meta := None)
  }

  // ---- capture and finalize ----

  /** daemon_finalize_segment's header write, when the capture step called it. */
  function AfterCapture(m: Daemon, cap: Cap): Daemon
    requires ENTRY_BYTES <= cap.cfg.bs
  {
    var m1 := m.(cap := cap);
    if cap.finals > m.cap.finals
    then m1.(meta := HeaderWrite(FinHeader, LiveVolume(m1), cap.cfg.bs)) else m1
  }

  /** Success or not, the TOC entry is written next. */
  function FinHeaderDone(m: Daemon, now: Clock): Daemon
    requires ENTRY_BYTES <= m.cap.cfg.bs && m.cap.start <= m.cap.next
  {
    m.(meta := EntryWrite(FinToc, m.segId, FinalEntry(m, now), m.cap.cfg.bs))
  }

  function FinTocDone(m: Daemon): Daemon {
    m.(cap := m.cap.(recording := false), currentSeg := None, meta := None)
  }

  // ---- quick format ----

  /** The next piece of the TOC to zero. */
  function ZeroPiece(m: Daemon): nat
    requires m.cursor <= m.staged.dataStartBlock
  {
    Min(m.staged.dataStartBlock - m.cursor, m.cap.cfg.bufBlocks)
  }

  function ZeroBlocks(n: nat, bs: nat): (blocks: seq<Block>)
    ensures |blocks| == n && Formed(blocks, bs)
  {
    seq(n, _ => Zeros(bs))
  }

  function FormatNext(m: Daemon): Daemon
    requires ENTRY_BYTES <= m.cap.cfg.bs
  {
    if m.cursor >= m.staged.dataStartBlock
    then m.(meta := HeaderWrite(FmtHeader, m.staged, m.cap.cfg.bs))
    else m.(meta := Some(Meta(FmtZero, m.cursor, ZeroBlocks(ZeroPiece(m), m.cap.cfg.bs))))
  }

  function QuickFormat(m: Daemon, sec: u64): Daemon
    requires ENTRY_BYTES <= m.cap.cfg.bs
  {
    if m.cap.recording then m // -EBUSY
    else FormatNext(m.(staged := VolumeFor(m.cap.cfg.bs, 0, DATA_START, sec), cursor := TOC_START))
  }

  function FmtZeroDone(m: Daemon, ok: bool): Daemon
    requires ENTRY_BYTES <= m.cap.cfg.bs && m.cursor <= m.staged.dataStartBlock
  {
    if !ok then m.(meta := None)
    else FormatNext(m.(cursor := m.cursor + ZeroPiece(m)))
  }

  function FmtHeaderDone(m: Daemon, ok: bool): Daemon {
    if !ok then m.(meta := None)
    else m.(nextSeg := m.staged.nextSegmentId, initSec := m.staged.initSec, meta := None,
            cap := m.cap.(hwm := m.staged.nextDataBlock, next := m.staged.dataStartBlock,
                          recordCount := 0, dropped := 0, firstTsc := 0, lastTsc := 0))
  }

  // ---- delete ----

  function SegmentDelete(m: Daemon, slot: nat): Daemon {
    if m.cap.recording && m.currentSeg == Some(slot) then m // -EBUSY
    else m.(delRead := Some(slot))
  }

  function DeleteReadDone(m: Daemon, d: Disk, ok: bool): Daemon
    requires m.delRead.Some? && Readable(d, m.delRead.value)
  {
    var slot := m.delRead.value;
    var m1 := m.(delRead := None);
    if !ok then m1
    else
      match Classify(EntryAt(d, slot))
      case NotFound => m1 // -ENOENT
      case Deleted => m1  // already deleted
      case _ => m1.(meta := Some(Meta(DeleteWrite, TOC_START + slot, [MarkDeleted(d[TOC_START + slot])])))
  }

  // ---- live tuning ----

  predicate TuningBusy(m: Daemon) {
    m.cap.recording || m.claiming
  }

  function SetConfig(m: Daemon, c: Option<Config>): Daemon {
    if TuningBusy(m) || c.None? then m // -EBUSY or -EINVAL
    else m.(cap := m.cap.(cfg := c.value))
  }

  // ---- a metadata completion, and what the device does ----

  function Masked(d: Disk, block: nat, blocks: seq<Block>, mask: set<nat>): (r: seq<Block>)
    requires block + |blocks| <= |d|
    ensures |r| == |blocks|
  {
    seq(|blocks|, i requires 0 <= i < |blocks| => if i in mask then blocks[i] else d[block + i])
  }

  /** The disk after the blocks in `mask` of a metadata write have reached it. */
  function Applied(d: Disk, w: Meta, mask: set<nat>): (d': Disk)
    ensures |d'| == |d|
  {
    if w.block + |w.blocks| <= |d| then Write(d, w.block, Masked(d, w.block, w.blocks, mask)) else d
  }

  ghost predicate MemoryOk(m: Daemon) {
    && Allocated(m.cap) && ENTRY_BYTES <= m.cap.cfg.bs
    && m.cursor <= m.staged.dataStartBlock
    && (m.meta.Some? ==> Formed(m.meta.value.blocks, m.cap.cfg.bs))
    && (m.meta.Some? && m.meta.value.cb.FinHeader? ==> m.cap.start <= m.cap.next)
  }

  function Completed(m: Daemon, ok: bool, now: Clock): Daemon
    requires MemoryOk(m) && m.meta.Some?
  {
    match m.meta.value.cb
    case ClaimToc => ClaimTocDone(m, ok)
    case ClaimHeader => ClaimHeaderDone(m, ok)
    case FinHeader => FinHeaderDone(m, now)
    case FinToc => FinTocDone(m)
    case FmtZero => FmtZeroDone(m, ok)
    case FmtHeader => FmtHeaderDone(m, ok)
    case DeleteWrite => m.(meta := None)
  }

  predicate WritesHeader(cb: Callback) {
    cb.ClaimHeader? || cb.FinHeader? || cb.FmtHeader?
  }

  /** Whether the header on disk may lag behind the finalized data. */
  function LagAfter(lag: bool, cb: Callback, mask: set<nat>): bool {
    if WritesHeader(cb) && 0 in mask then false
    else if cb.FinHeader? then true
    else lag
  }

  /** A restart: memory is rebuilt from block 0 and the command line. */
  function Reload(m: Daemon, d: Disk, restart: Config): Daemon
    requires |d| > 0 && |d[0]| >= VOLUME_BYTES
  {
    var v := DecodeVolume(d[0]);
    var cap := Cap(restart, m.cap.bufs, 0, 0, 0,
                   0, false, false, 0, 0, 0, 0, 0, StopNone, v.nextDataBlock, 0,
                   multiset{}, None, NO_HISTORY);
    Daemon(cap, m.unit, v.nextSegmentId, v.initSec, 0, None, false, 0, 0, None, None,
           VolumeFor(restart.bs, 0, DATA_START, 0), DATA_START)
  }

  // ---- one step of the whole system ----

  predicate AdminFree(m: Daemon) {
    m.meta.None? && m.delRead.None?
  }

  ghost predicate Possible(y: Sys, t: Step) {
    && MemoryOk(y.m) && Formed(y.d, y.m.cap.cfg.bs) && DATA_START <= |y.d|
    && match t
       case Start(_, _, _) => AdminFree(y.m) || y.m.cap.recording
       case Capture(e) => y.m.cap.recording && Shape(y.m.cap) && Enabled(y.m.cap, e)
       case Scribble(io, blocks) =>
         && io in y.m.cap.out && |blocks| == y.m.cap.cfg.bufBlocks && Formed(blocks, y.m.cap.cfg.bs)
         && io.target + |blocks| <= |y.d|
       case MetaDone(ok, mask, now) =>
         && y.m.meta.Some? && now.hz > 0
         && (ok ==> var w := y.m.meta.value;
                    w.block + |w.blocks| <= |y.d| && forall i :: 0 <= i < |w.blocks| ==> i in mask)
       case StopIdle => !y.m.cap.recording
       case DeleteStart(slot) => AdminFree(y.m) && slot < TOC_SLOT_COUNT
       case DeleteRead(_) => y.m.delRead.Some? && y.m.delRead.value < TOC_SLOT_COUNT
       case FormatStart(_) => AdminFree(y.m) || y.m.cap.recording
       case SetChunk(_) => UnitOk(y.m.cap.cfg, y.m.unit) && !Formatting(y.m)
       case SetBuffers(_) => !Formatting(y.m)
       case SetWireSeq(_) => !Formatting(y.m)
       case Crash(_, restart) =>
         && ConfigOk(restart)
         && restart.bs == y.m.cap.cfg.bs && restart.numBlocks == y.m.cap.cfg.numBlocks
  }

  predicate Formatting(m: Daemon) {
    m.meta.Some? && (m.meta.value.cb.FmtZero? || m.meta.value.cb.FmtHeader?)
  }

  /** The disk after a capture event: a successful completion has landed. */
  function DiskAfter(y: Sys, e: Event): Disk
    requires Shape(y.m.cap) && Enabled(y.m.cap, e)
  {
    if e.Complete? && e.ok
       && y.m.cap.cfg.bufSize == y.m.cap.cfg.bufBlocks * y.m.cap.cfg.bs
       && e.io.target + y.m.cap.cfg.bufBlocks <= |y.d|
    then Write(y.d, e.io.target, Landed(y.m.cap, e.io)) else y.d
  }

  function CaptureStep(y: Sys, e: Event): Sys
    requires Shape(y.m.cap) && Enabled(y.m.cap, e) && ENTRY_BYTES <= y.m.cap.cfg.bs
  {
    var cap := Next(y.m.cap, e);
    NextGrows(y.m.cap, e);
    Sys(AfterCapture(y.m, cap), DiskAfter(y, e),
        y.f.(capture := y.f.capture || cap.h.rejected || cap.h.clashed || cap.h.retargeted,
             overlap := y.f.overlap || (cap.finals > y.m.cap.finals && !AdminFree(y.m))))
  }

  function Do(y: Sys, t: Step): Sys
    requires Possible(y, t)
  {
    var m, d, f := y.m, y.d, y.f;
    match t
    case Start(port, limit, now) => y.(m := RecordingStart(m, port, limit, now))
    case Capture(e) => CaptureStep(y, e)
    case Scribble(io, blocks) => y.(d := Write(d, io.target, blocks))
    case MetaDone(ok, mask, now) =>
      Sys(Completed(m, ok, now), Applied(d, m.meta.value, mask),
          f.(lag := LagAfter(f.lag, m.meta.value.cb, mask)))
    case StopIdle => y // -EALREADY
    case DeleteStart(slot) => y.(m := SegmentDelete(m, slot))
    case DeleteRead(ok) =>
      Sys(DeleteReadDone(m, d, ok), d, f.(overlap := f.overlap || m.meta.Some?))
    case FormatStart(sec) => y.(m := QuickFormat(m, sec))
    case SetChunk(bytes) => y.(m := SetConfig(m, WithChunk(m.cap.cfg, m.unit, bytes)))
    case SetBuffers(count) => y.(m := SetConfig(m, WithBuffers(m.cap.cfg, count)))
    case SetWireSeq(on) => y.(m := SetConfig(m, Some(m.cap.cfg.(withSeq := on))))
    case Crash(mask, restart) =>
      var d' := if m.meta.Some? then Applied(d, m.meta.value, mask) else d;
      DiskStaysFormed(d, m, mask);
      Sys(Reload(m, d', restart), d', f.(lag := false, lagCrash := f.lagCrash || f.lag))
  }

  lemma DiskStaysFormed(d: Disk, m: Daemon, mask: set<nat>)
    requires Formed(d, m.cap.cfg.bs) && MemoryOk(m) && DATA_START <= |d|
    ensures m.meta.Some? ==> Formed(Applied(d, m.meta.value, mask), m.cap.cfg.bs)
  {
    if m.meta.Some? {
      AppliedFormed(d, m, mask);
    }
  }

  lemma AppliedFormed(d: Disk, m: Daemon, mask: set<nat>)
    requires Formed(d, m.cap.cfg.bs) && MemoryOk(m) && m.meta.Some?
    ensures Formed(Applied(d, m.meta.value, mask), m.cap.cfg.bs)
  {
    var w := m.meta.value;
    if w.block + |w.blocks| <= |d| {
      WriteFormed(d, w.block, Masked(d, w.block, w.blocks, mask), m.cap.cfg.bs);
    }
  }
}
