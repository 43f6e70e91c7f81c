/** Whole runs of the daemon: crash safety, finalized data that stays readable,
    the capture-to-readback round trip, and what a format does. */
module StoreTheorems {
  import opened Bytes
  import opened Record
  import opened Device
  import opened Readers
  import opened Capture
  import opened CaptureInvariant
  import opened CaptureRuns
  import opened CaptureDisk
  import opened SegmentData
  import opened Tuning
  import opened Store
  import opened StoreInvariant
  import opened StoreSteps

  // ---- runs ----

  /** A run: any steps in any order, each possible when it comes. */
  ghost predicate IsRun(y: Sys, ts: seq<Step>)
    decreases |ts|
  {
    ts == [] || (Possible(y, ts[0]) && IsRun(Do(y, ts[0]), ts[1..]))
  }

  ghost function After(y: Sys, ts: seq<Step>): Sys
    requires IsRun(y, ts)
    decreases |ts|
  {
    if ts == [] then y else After(Do(y, ts[0]), ts[1..])
  }

  lemma FlagsStick(y: Sys, t: Step)
    requires Possible(y, t)
    ensures NoHazard(Do(y, t).f) ==> NoHazard(y.f)
  {
  }

  lemma {:induction false} FlagsStickInRun(y: Sys, ts: seq<Step>)
    requires IsRun(y, ts)
    ensures NoHazard(After(y, ts).f) ==> NoHazard(y.f)
    decreases |ts|
  {
    hide Possible;
    hide Do;
    hide NoHazard;
    if ts != [] {
      FlagsStick(y, ts[0]);
      FlagsStickInRun(Do(y, ts[0]), ts[1..]);
    }
  }

  /** The system invariant holds after every run that met no hazard. */
  lemma {:induction false} RunKeepsSystem(y: Sys, ts: seq<Step>)
    requires SysInv(y) && IsRun(y, ts) && NoHazard(After(y, ts).f)
    ensures SysInv(After(y, ts))
    decreases |ts|
  {
    hide SysInv;
    hide Possible;
    hide Do;
    hide NoHazard;
    if ts != [] {
      FlagsStickInRun(Do(y, ts[0]), ts[1..]);
      DoKeeps(y, ts[0]);
      RunKeepsSystem(Do(y, ts[0]), ts[1..]);
    }
  }

  const NO_FLAGS := Flags(false, false, false, false)

  /** A freshly formatted device: block 0 and a zero-filled TOC. */
  ghost predicate Fresh(d: Disk, c: Config, sec: u64) {
    && DiskOk(d, c)
    && d[0] == VolumeBlock(VolumeFor(c.bs, 0, DATA_START, sec), c.bs)
    && forall b :: TOC_START <= b < DATA_START ==> d[b] == Zeros(c.bs)
  }

  /** A daemon started on a freshly formatted device is sound. */
  lemma FreshIsSound(m: Daemon, d: Disk, c: Config, sec: u64)
    requires Allocated(m.cap) && ConfigOk(c) && Fresh(d, c, sec)
    ensures |d| > 0 && |d[0]| >= VOLUME_BYTES
    ensures SysInv(Sys(Reload(m, d, c), d, NO_FLAGS))
  {
    VolumeFits(c.bs, 0, DATA_START, sec);
    hide VolumeBlock;
    hide FitsVolume;
    HeaderReadsBack(d, VolumeFor(c.bs, 0, DATA_START, sec), c.bs);
    hide DecodeVolume;
    AllZeroToc(d, c.bs);
    hide Zeros;
    hide Slot;
    assert CrashSafe(d, c);
    ReloadIsSound(m, d, c, NO_FLAGS);
  }

  /** Crash safety over every run: from a fresh device, through any claims,
      captures, completions, finalizes, deletes, formats and crashes, at every
      point and with any part of the metadata write in flight landed, no two
      finalized or deleted segments share a block, all their blocks lie below the
      high-water mark, everything ever finalized has its id below next_segment_id,
      and a restart accepts the header. */
  lemma CrashSafetyOverRuns(m: Daemon, d: Disk, c: Config, sec: u64, ts: seq<Step>, mask: set<nat>)
    requires Allocated(m.cap) && ConfigOk(c) && Fresh(d, c, sec)
    requires |d| > 0 && |d[0]| >= VOLUME_BYTES
    requires IsRun(Sys(Reload(m, d, c), d, NO_FLAGS), ts)
    requires var y := After(Sys(Reload(m, d, c), d, NO_FLAGS), ts);
             NoHazard(y.f) && !y.f.lag
    ensures var y := After(Sys(Reload(m, d, c), d, NO_FLAGS), ts);
            && CrashSafe(CrashDisk(y, mask), y.m.cap.cfg)
            && ClosedApart(CrashDisk(y, mask), Header(CrashDisk(y, mask)).nextDataBlock)
            && VolumeIsValid(Header(CrashDisk(y, mask)))
  {
    hide Reload;
    hide SysInv;
    hide DecodeVolume;
    hide TocOk;
    hide Apart;
    hide OpenPlain;
    FreshIsSound(m, d, c, sec);
    RunKeepsSystem(Sys(Reload(m, d, c), d, NO_FLAGS), ts);
    var y := After(Sys(Reload(m, d, c), d, NO_FLAGS), ts);
    EveryCrashPointIsSafe(y, mask);
    CrashSafeApart(CrashDisk(y, mask), y.m.cap.cfg);
    hide ClosedApart;
  }

  // ---- a finalized segment stays readable ----

  /** Segment `id` is finalized (or deleted since) and holds exactly `log`. */
  ghost predicate Intact(d: Disk, bs: nat, id: nat, placed: seq<seq<Record>>, log: seq<Record>) {
    && SealedAt(d, id)
    && var e := Slot(d, id);
       && e.tscHz != 0 && e.writeChunkBytes > 0
       && e.recordCount == |log| && log == Flat(placed)
       && ChunkBlock(e.startBlock, |placed|, BlocksOf(e.writeChunkBytes, bs)) <= EndOf(e)
       && ChunksOnDisk(d, bs, e.startBlock, e.writeChunkBytes, placed)
  }

  lemma EmptyFlat(placed: seq<seq<Record>>)
    ensures Flat(placed) != [] ==> placed != []
  {
  }

  /** An intact segment dumps to its log, whatever chunk size the reader runs with. */
  lemma IntactReads(d: Disk, bs: nat, id: nat, placed: seq<seq<Record>>, log: seq<Record>, bufSize: nat)
    requires Intact(d, bs, id, placed, log)
    ensures DumpSegment(d, bs, id, bufSize) == Dumped(Dump(log, true))
  {
    hide DecodeEntry;
    hide DumpFrom;
    hide ChunkOnDisk;
    hide BlocksOf;
    var e := Slot(d, id);
    EmptyFlat(placed);
    assert Readable(d, id) && e == EntryAt(d, id);
    if log != [] {
      assert placed[0..] == placed;
      DumpWritten(d, bs, e.startBlock, e.writeChunkBytes, placed, 0, |log|);
    }
  }

  /** Same blocks under the segment, and the same entry up to a deletion. */
  lemma IntactFrame(d: Disk, d': Disk, bs: nat, id: nat, placed: seq<seq<Record>>, log: seq<Record>)
    requires Intact(d, bs, id, placed, log) && |d'| == |d|
    requires Slot(d', id) == Slot(d, id) || Slot(d', id) == Slot(d, id).(state := STATE_DELETED)
    requires forall b :: Slot(d, id).startBlock <= b < EndOf(Slot(d, id)) && b < |d| ==> d'[b] == d[b]
    ensures Intact(d', bs, id, placed, log)
  {
    hide Slot;
    hide ChunkOnDisk;
    hide BlocksOf;
    hide ChunkBlock;
    var e := Slot(d, id);
    var n := BlocksOf(e.writeChunkBytes, bs);
    forall i | 0 <= i < |placed|
      ensures ChunkOnDisk(d', bs, ChunkBlock(e.startBlock, i, n), e.writeChunkBytes, placed[i])
    {
      ChunkOrder(e.startBlock, i, |placed|, n);
      ChunkFrame(d, d', bs, ChunkBlock(e.startBlock, i, n), e.writeChunkBytes, placed[i]);
    }
  }

  /** What a landing metadata write leaves of a sealed segment, unless it is a
      format's: its data, and its entry up to a deletion. */
  lemma LandingSparesSealed(y: Sys, mask: set<nat>, id: nat)
    requires SysInv(y) && SealedAt(y.d, id)
    requires y.m.meta.Some? && !Formatting(y.m)
    ensures var d' := Landing(y, mask).d;
            && |d'| == |y.d|
            && (Slot(d', id) == Slot(y.d, id) || Slot(d', id) == Slot(y.d, id).(state := STATE_DELETED))
            && forall b :: DATA_START <= b < |y.d| ==> d'[b] == y.d[b]
  {
    hide Inv;
    hide CoverOk;
    hide DataOk;
    hide DecodeVolume;
    hide Slot;
    hide EntryBlock;
    hide VolumeBlock;
    hide MarkDeleted;
    match y.m.meta.value.cb {
      case ClaimHeader => LiveHeaderDisk(y, mask);
      case FinHeader => LiveHeaderDisk(y, mask);
      case DeleteWrite => DeleteDisk(y, mask);
      case ClaimToc => OtherSlotSpared(y, mask, id);
      case FinToc => OtherSlotSpared(y, mask, id);
    }
  }

  lemma OtherSlotSpared(y: Sys, mask: set<nat>, id: nat)
    requires SysInv(y) && SealedAt(y.d, id)
    requires y.m.meta.Some? && (y.m.meta.value.cb.ClaimToc? || y.m.meta.value.cb.FinToc?)
    ensures var d' := Landing(y, mask).d;
            && |d'| == |y.d| && Slot(d', id) == Slot(y.d, id)
            && forall b :: DATA_START <= b < |y.d| ==> d'[b] == y.d[b]
  {
    hide Inv;
    hide CoverOk;
    hide DataOk;
    hide DecodeVolume;
    hide DecodeEntry;
    hide EntryBlock;
    assert DiskOk(y.d, y.m.cap.cfg) by { DiskIsOk(y); }
    assert id != y.m.segId && y.m.segId < TOC_SLOT_COUNT;
    assert y.m.meta.value.block == TOC_START + y.m.segId && |y.m.meta.value.blocks| == 1;
    hide OnDisk;
    hide InRecording;
    hide InFlightMeta;
    SingleWrite(y.d, y.m.meta.value.cb, TOC_START + y.m.segId, y.m.meta.value.blocks[0], mask);
    assert Landing(y, mask).d[TOC_START + id] == y.d[TOC_START + id];
  }

  /** Capture never rewrites a sealed segment: every data write lies above it. */
  lemma DataSparesSealed(y: Sys, t: nat, blocks: seq<Block>, id: nat)
    requires SysInv(y) && y.m.cap.recording && SealedAt(y.d, id)
    requires y.m.cap.start <= t && t + |blocks| <= |y.d|
    ensures EndOf(Slot(y.d, id)) <= t
    ensures var d' := Write(y.d, t, blocks);
            && Slot(d', id) == Slot(y.d, id)
            && forall b :: Slot(y.d, id).startBlock <= b < EndOf(Slot(y.d, id)) && b < |y.d| ==> d'[b] == y.d[b]
  {
    hide Inv;
    hide CoverOk;
    hide DataOk;
    hide DecodeVolume;
    hide DecodeEntry;
    assert DATA_START <= t && DATA_START <= |y.d|;
  }

  lemma CaptureSparesSealed(y: Sys, e: Event, id: nat)
    requires SysInv(y) && SealedAt(y.d, id) && Possible(y, Capture(e))
    ensures var d' := DiskAfter(y, e);
            && |d'| == |y.d| && Slot(d', id) == Slot(y.d, id)
            && forall b :: Slot(y.d, id).startBlock <= b < EndOf(Slot(y.d, id)) && b < |y.d| ==> d'[b] == y.d[b]
  {
    if DiskAfter(y, e) != y.d {
      assert Body(y.m.cap) && y.m.cap.recording;
      hide SysInv;
      hide Possible;
      hide Landed;
      hide Body;
      hide Slot;
      WriteInside(y.m.cap, e.io);
      DataSparesSealed(y, e.io.target, Landed(y.m.cap, e.io), id);
    }
  }

  /** Segment `id` is as finalized as it was: same data blocks, same TOC entry up
      to a deletion. */
  ghost predicate Spared(d: Disk, d': Disk, id: nat) {
    && |d'| == |d| && SealedAt(d', id)
    && (Slot(d', id) == Slot(d, id) || Slot(d', id) == Slot(d, id).(state := STATE_DELETED))
    && forall b :: Slot(d, id).startBlock <= b < EndOf(Slot(d, id)) && b < |d| ==> d'[b] == d[b]
  }

  lemma SparedTwice(d: Disk, d': Disk, d'': Disk, id: nat)
    requires Spared(d, d', id) && Spared(d', d'', id)
    ensures Spared(d, d'', id)
  {
    hide Slot;
  }

  lemma ScribbleSparesSealed(y: Sys, io: Io, blocks: seq<Block>, id: nat)
    requires SysInv(y) && SealedAt(y.d, id) && Possible(y, Scribble(io, blocks))
    ensures Spared(y.d, Write(y.d, io.target, blocks), id)
  {
    ScribbleInside(y, io, blocks);
    hide SysInv;
    hide Possible;
    hide Slot;
    hide Write;
    DataSparesSealed(y, io.target, blocks, id);
  }

  lemma ScribbleInside(y: Sys, io: Io, blocks: seq<Block>)
    requires SysInv(y) && Possible(y, Scribble(io, blocks))
    ensures y.m.cap.recording && y.m.cap.start <= io.target && io.target + |blocks| <= |y.d|
  {
    assert Body(y.m.cap) && y.m.cap.recording;
    hide SysInv;
    hide Body;
    WriteInside(y.m.cap, io);
  }

  lemma LandingSpares(y: Sys, mask: set<nat>, id: nat)
    requires SysInv(y) && y.m.meta.Some? && !Formatting(y.m) && SealedAt(y.d, id)
    ensures Spared(y.d, Applied(y.d, y.m.meta.value, mask), id)
  {
    LandingSparesSealed(y, mask, id);
    assert DATA_START <= Slot(y.d, id).startBlock;
    assert Slot(y.d, id).tscHz != 0;
    hide SysInv;
    hide Slot;
  }

  /** A finalized segment survives every step but those of a format: later
      claims, captures, finalizes, its own deletion, and crashes. */
  lemma DoSparesSealed(y: Sys, t: Step, id: nat)
    requires SysInv(y) && Possible(y, t) && !Formatting(y.m) && SealedAt(y.d, id)
    ensures Spared(y.d, Do(y, t).d, id)
  {
    hide SysInv;
    hide Slot;
    match t {
      case Capture(e) => CaptureSparesSealed(y, e, id);
      case Scribble(io, blocks) => ScribbleSparesSealed(y, io, blocks, id);
      case MetaDone(ok, mask, now) => LandingSpares(y, mask, id);
      case Crash(mask, restart) =>
        if y.m.meta.Some? {
          LandingSpares(y, mask, id);
        }
      case _ =>
    }
  }

  /** Only a format request starts a format. */
  lemma NoFormatStarts(y: Sys, t: Step)
    requires Possible(y, t) && !Formatting(y.m) && !t.FormatStart?
    ensures !Formatting(Do(y, t).m) && Do(y, t).m.cap.cfg.bs == y.m.cap.cfg.bs
  {
    hide VolumeBlock;
    hide EntryBlock;
    hide DecodeVolume;
    hide MarkDeleted;
    hide RoundWriteChunk;
    match t {
      case Capture(e) =>
        hide Next;
        NextGrows(y.m.cap, e);
      case _ =>
    }
  }

  /** No run without a format ever rewrites a finalized segment's data or its TOC
      slot, other than to mark it deleted: through later claims, captures,
      finalizes and crashes, lossless or not. */
  lemma {:induction false} RunSparesSealed(y: Sys, ts: seq<Step>, id: nat)
    requires SysInv(y) && IsRun(y, ts) && NoHazard(After(y, ts).f)
    requires !Formatting(y.m) && forall k :: 0 <= k < |ts| ==> !ts[k].FormatStart?
    requires SealedAt(y.d, id)
    ensures Spared(y.d, After(y, ts).d, id)
    decreases |ts|
  {
    hide SysInv;
    hide Possible;
    hide Do;
    hide NoHazard;
    hide Formatting;
    hide Slot;
    if ts != [] {
      var y1 := Do(y, ts[0]);
      FlagsStickInRun(y1, ts[1..]);
      DoKeeps(y, ts[0]);
      DoSparesSealed(y, ts[0], id);
      NoFormatStarts(y, ts[0]);
      RunSparesSealed(y1, ts[1..], id);
      SparedTwice(y.d, y1.d, After(y1, ts[1..]).d, id);
    }
  }

  // ---- the round trip ----

  lemma U64Small(n: nat)
    requires n < DEVICE_BYTES_MAX
    ensures U64(n) == n
  {
  }

  /** When the finalize chain's TOC entry lands and nothing was lost, the segment
      on disk is exactly the log. */
  lemma FinalizedIsIntact(y: Sys, mask: set<nat>)
    requires SysInv(y) && y.m.meta.Some? && y.m.meta.value.cb.FinToc?
    requires 0 in mask && Lossless(y.m.cap.h)
    ensures y.m.cap.h.own <= |y.m.cap.h.placed|
    ensures Intact(Landing(y, mask).d, y.m.cap.cfg.bs, y.m.segId, OwnChunks(y.m.cap), y.m.cap.h.log)
  {
    var s := y.m.cap;
    var d' := Landing(y, mask).d;
    var now :=  FinalEntryLands(y, mask);
    assert Inv(s) && CoverOk(s) && DataOk(s, d') && s.stopping && s.pending == 0 by {
      FinalDataStays(y, mask);
    }
    DrainedSegment(s, d');
    assert s.recordCount == |s.h.log| && s.next == TargetOf(s, |s.h.placed|);
    RecordsFit64(s);
    U64Small(s.recordCount);
    assert s.cfg.bufSize > 0 by { BufSizePositive(s.cfg); }
    assert s.h.own <= |s.h.placed|;
    BlocksPerChunk(s.cfg);
    hide SysInv;
    hide Inv;
    hide ChunkOnDisk;
    hide BlocksOf;
    hide Slot;
    hide ChunkBlock;
    if s.h.own < |s.h.placed| {
      ChunkOrder(s.start, s.h.own, |s.h.placed|, s.cfg.bufBlocks);
    }
  }

  /** The finalized entry tells the truth about the log: how many records, the
      tsc of the first that has one and of the last, the blocks they take, the chunk
      size they were packed with and when the segment was claimed. */
  lemma FinalEntryIsTrue(y: Sys, mask: set<nat>)
    requires SysInv(y) && y.m.meta.Some? && y.m.meta.value.cb.FinToc? && 0 in mask
    ensures var e := Slot(Landing(y, mask).d, y.m.segId);
            var s := y.m.cap;
            && Sealed(e) && e.segmentId == y.m.segId && e.recordCount == |s.h.log|
            && e.droppedCount == U64(s.dropped)
            && e.firstTsc == FirstTsc(s.h.log) && e.lastTsc == LastTsc(s.h.log)
            && e.startBlock == s.start && EndOf(e) == TargetOf(s, |s.h.placed|)
            && e.state == 2 && e.writeChunkBytes == s.cfg.bufSize && e.tscHz > 0
            && e.startSec == y.m.startSec && e.startNsec == y.m.startNsec
  {
    var now := FinalEntryLands(y, mask);
    var s := y.m.cap;
    assert Inv(s);
    assert LogOk(s) && TscOk(s) && PlaceOk(s) && BufsOk(s) && BoundOk(s);
    RecordsFit64(s);
    U64Small(s.recordCount);
    U64Small(s.firstTsc);
    U64Small(s.lastTsc);
    hide SysInv;
    hide Inv;
    hide Slot;
    hide Landing;
    hide BufsOk;
    hide U64;
    hide ChunkBlock;
  }

  lemma BufSizePositive(c: Config)
    requires ConfigOk(c)
    ensures c.bufSize > 0
  {
    BelowDevice(1, c.bufBlocks, c.bs);
  }

  /** The finalized entry, as it can be read back. */
  lemma FinalEntryLands(y: Sys, mask: set<nat>) returns (now: Clock)
    requires SysInv(y) && y.m.meta.Some? && y.m.meta.value.cb.FinToc? && 0 in mask
    ensures now.hz > 0 && y.m.cap.start <= y.m.cap.next
    ensures y.m.segId < TOC_SLOT_COUNT
    ensures Slot(Landing(y, mask).d, y.m.segId) == FinalEntry(y.m, now)
  {
    hide Inv;
    hide CoverOk;
    hide DataOk;
    hide DecodeVolume;
    hide EntryBlock;
    hide Slot;
    assert DiskOk(y.d, y.m.cap.cfg) by { DiskIsOk(y); }
    SegmentHasSlot(y);
    hide OnDisk;
    now :| now.hz > 0
      && y.m.meta == EntryWrite(FinToc, y.m.segId, FinalEntry(y.m, now), y.m.cap.cfg.bs);
    SingleWrite(y.d, FinToc, TOC_START + y.m.segId, y.m.meta.value.blocks[0], mask);
    FinalSlotDisk(y, Landing(y, mask), now);
  }

  lemma FinalDataStays(y: Sys, mask: set<nat>)
    requires SysInv(y) && y.m.meta.Some? && y.m.meta.value.cb.FinToc?
    ensures Inv(y.m.cap) && CoverOk(y.m.cap) && DataOk(y.m.cap, Landing(y, mask).d)
    ensures y.m.cap.stopping && y.m.cap.pending == 0
  {
    hide CoverOk;
    hide EntryBlock;
    hide Slot;
    hide DecodeVolume;
    FinTocDisk(y, mask);
    DrainedFacts(y.m.cap);
    assert DiskOk(y.d, y.m.cap.cfg) && DiskOk(Landing(y, mask).d, y.m.cap.cfg);
    SegmentHasSlot(y);
    assert y.m.cap.start >= DATA_START;
    hide OnDisk;
    hide InRecording;
    SingleWrite(y.d, FinToc, TOC_START + y.m.segId, y.m.meta.value.blocks[0], mask);
    DataFrame(y.m.cap, y.d, Landing(y, mask).d);
  }

  /** Capture-to-readback round trip. Take any reachable moment at which a
      segment is about to be finalized with nothing lost; let its TOC entry land;
      let the daemon run on in any way, crashes and the segment's own deletion
      included, without a format. Then the dump prints exactly the records that
      were captured, in order and numbered from 0, and the web pages, of any
      size, concatenate to the same. */
  lemma CaptureToReadback(y: Sys, ok: bool, mask: set<nat>, now: Clock, ts: seq<Step>, bufSize: nat, limit: nat)
    requires SysInv(y) && Possible(y, MetaDone(ok, mask, now))
    requires y.m.meta.Some? && y.m.meta.value.cb.FinToc?
    requires 0 in mask && Lossless(y.m.cap.h)
    requires IsRun(Do(y, MetaDone(ok, mask, now)), ts)
    requires NoHazard(After(Do(y, MetaDone(ok, mask, now)), ts).f)
    requires forall k :: 0 <= k < |ts| ==> !ts[k].FormatStart?
    ensures var d := After(Do(y, MetaDone(ok, mask, now)), ts).d;
            var bs := y.m.cap.cfg.bs;
            var log := y.m.cap.h.log;
            && DumpSegment(d, bs, y.m.segId, bufSize) == Dumped(Dump(log, true))
            && PageSegment(d, bs, y.m.segId, bufSize, 0, limit).Page?
            && AllPages(d, bs, y.m.segId, bufSize, 0, limit) == log
    ensures forall k :: 0 <= k < |y.m.cap.h.log| ==> y.m.cap.h.log[k].seqNo == k
  {
    hide SysInv;
    hide Do;
    hide Possible;
    hide Intact;
    hide NoHazard;
    hide Lossless;
    hide FinalEntry;
    assert LogOk(y.m.cap) by { RecordingInv(y); }
    var y1 := Do(y, MetaDone(ok, mask, now));
    var placed, log := OwnChunks(y.m.cap), y.m.cap.h.log;
    FlagsStickInRun(y1, ts);
    FinalizeSeals(y, ok, mask, now);
    var d := After(y1, ts).d;
    IntactAfter(y1, ts, y.m.cap.cfg.bs, y.m.segId, placed, log);
    IntactReads(d, y.m.cap.cfg.bs, y.m.segId, placed, log, bufSize);
    hide DumpSegment;
    hide PageSegment;
    PagesConcatenate(d, y.m.cap.cfg.bs, y.m.segId, bufSize, 0, limit, log);
    assert log[0..] == log;
  }

  lemma IntactAfter(y: Sys, ts: seq<Step>, bs: nat, id: nat, placed: seq<seq<Record>>, log: seq<Record>)
    requires SysInv(y) && IsRun(y, ts) && NoHazard(After(y, ts).f)
    requires !Formatting(y.m) && forall k :: 0 <= k < |ts| ==> !ts[k].FormatStart?
    requires Intact(y.d, bs, id, placed, log)
    ensures Intact(After(y, ts).d, bs, id, placed, log)
  {
    hide SysInv;
    assert SealedAt(y.d, id);
    RunSparesSealed(y, ts, id);
    hide Intact;
    hide Slot;
    IntactFrame(y.d, After(y, ts).d, bs, id, placed, log);
  }

  lemma FinalizeSeals(y: Sys, ok: bool, mask: set<nat>, now: Clock)
    requires SysInv(y) && Possible(y, MetaDone(ok, mask, now))
    requires y.m.meta.Some? && y.m.meta.value.cb.FinToc?
    requires 0 in mask && Lossless(y.m.cap.h)
    requires NoHazard(Do(y, MetaDone(ok, mask, now)).f)
    requires y.m.cap.h.own <= |y.m.cap.h.placed|
    ensures var y1 := Do(y, MetaDone(ok, mask, now));
            && SysInv(y1) && !Formatting(y1.m) && y1.m.cap.cfg.bs == y.m.cap.cfg.bs
            && Intact(y1.d, y.m.cap.cfg.bs, y.m.segId, OwnChunks(y.m.cap), y.m.cap.h.log)
  {
    hide SysInv;
    hide Intact;
    var t := MetaDone(ok, mask, now);
    assert !Formatting(y.m);
    DoKeeps(y, t);
    NoFormatStarts(y, t);
    FinalizedIsIntact(y, mask);
    assert Do(y, t).d == Landing(y, mask).d;
  }

  lemma RecordingInv(y: Sys)
    requires SysInv(y) && y.m.meta.Some? && y.m.meta.value.cb.FinToc?
    ensures LogOk(y.m.cap)
  {
    assert Inv(y.m.cap);
  }
}
