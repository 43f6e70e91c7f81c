/** What the admin operations do to a volume: a delete changes one slot's state,
    a format zeroes the table of contents and only then writes the header, and
    tuning cannot touch an open segment. */
module StoreOperations {
  import opened Bytes
  import opened Record
  import opened Device
  import opened Readers
  import opened CaptureInvariant
  import opened CaptureRuns
  import opened CaptureDisk
  import opened SegmentData
  import opened Tuning
  import opened Store
  import opened StoreInvariant
  import opened StoreSteps
  import opened StoreTheorems

  // ---- readers look only at and after the block they start from ----

  ghost predicate SameFrom(d: Disk, d': Disk, from: nat) {
    |d'| == |d| && forall b :: from <= b < |d| ==> d'[b] == d[b]
  }

  lemma ReadChunkFrom(d: Disk, d': Disk, bs: nat, block: nat, bytes: nat, from: nat)
    requires SameFrom(d, d', from) && from <= block
    ensures ReadChunk(d', bs, block, bytes) == ReadChunk(d, bs, block, bytes)
  {
    if block + BlocksOf(bytes, bs) <= |d| {
      ReadFrame(d, d', block, BlocksOf(bytes, bs));
    }
  }

  lemma {:induction false} DumpFromFrame(d: Disk, d': Disk, bs: nat, block: nat, chunkBytes: nat, want: nat, from: nat)
    requires want > 0 && SameFrom(d, d', from) && from <= block
    ensures DumpFrom(d', bs, block, chunkBytes, want) == DumpFrom(d, bs, block, chunkBytes, want)
    decreases want
  {
    hide ReadChunk;
    hide WalkChunk;
    hide BlocksOf;
    ReadChunkFrom(d, d', bs, block, chunkBytes, from);
    var c := ReadChunk(d, bs, block, chunkBytes);
    if c.Some? {
      var w := WalkChunk(c.value, 0, want);
      if w.recs != [] && |w.recs| < want {
        DumpFromFrame(d, d', bs, block + BlocksOf(chunkBytes, bs), chunkBytes, want - |w.recs|, from);
      }
    }
  }

  lemma {:induction false} PageFromFrame(d: Disk, d': Disk, bs: nat, block: nat, chunkBytes: nat, seen: nat,
                                         target: nat, got: nat, offset: nat, limit: nat, from: nat)
    requires SameFrom(d, d', from) && from <= block
    ensures PageFrom(d', bs, block, chunkBytes, seen, target, got, offset, limit)
         == PageFrom(d, bs, block, chunkBytes, seen, target, got, offset, limit)
    decreases if seen < target then target - seen else 0
  {
    hide ReadChunk;
    hide PageChunk;
    hide BlocksOf;
    ReadChunkFrom(d, d', bs, block, chunkBytes, from);
    var c := ReadChunk(d, bs, block, chunkBytes);
    if c.Some? && seen < target && got < limit {
      var w := PageChunk(c.value, 0, seen, target, got, offset, limit);
      if w.seen > seen {
        PageFromFrame(d, d', bs, block + BlocksOf(chunkBytes, bs), chunkBytes, w.seen, target, got + |w.recs|,
                      offset, limit, from);
      }
    }
  }

  /** Segment `id` reads the same from two disks whose data areas agree, if its
      entry is the same up to a deletion. */
  lemma ReadersFrame(d: Disk, d': Disk, bs: nat, id: nat, bufSize: nat, offset: nat, limit: nat)
    requires SealedAt(d, id) && DATA_START <= Slot(d, id).startBlock
    requires Readable(d, id) && Readable(d', id)
    requires Slot(d', id) == Slot(d, id) || Slot(d', id) == Slot(d, id).(state := STATE_DELETED)
    requires SameFrom(d, d', DATA_START)
    ensures DumpSegment(d', bs, id, bufSize) == DumpSegment(d, bs, id, bufSize)
    ensures PageSegment(d', bs, id, bufSize, offset, limit) == PageSegment(d, bs, id, bufSize, offset, limit)
  {
    hide DecodeEntry;
    hide DumpFrom;
    hide PageFrom;
    var e := EntryAt(d, id);
    if e.recordCount > 0 {
      DumpFromFrame(d, d', bs, e.startBlock, ChunkSizeOf(e, bufSize), e.recordCount, DATA_START);
      PageFromFrame(d, d', bs, e.startBlock, ChunkSizeOf(e, bufSize), 0, e.recordCount, 0,
                    offset, NormalLimit(limit), DATA_START);
    }
  }

  // ---- delete ----

  /** Delete changes one slot's state and nothing else: at any crash point the
      slot holds its old entry or the same entry marked deleted, every other
      block is as it was, and it is not the slot of the open segment. */
  lemma DeleteChangesOneState(y: Sys, mask: set<nat>)
    requires SysInv(y) && y.m.meta.Some? && y.m.meta.value.cb.DeleteWrite?
    ensures var k := y.m.meta.value.block - TOC_START;
            var d' := Landing(y, mask).d;
            && 0 <= k < TOC_SLOT_COUNT && |d'| == |y.d|
            && Slot(d', k) == (if 0 in mask then Slot(y.d, k).(state := STATE_DELETED) else Slot(y.d, k))
            && (forall b :: 0 <= b < |y.d| && b != TOC_START + k ==> d'[b] == y.d[b])
            && (y.m.cap.recording ==> k != y.m.segId)
  {
    hide OnDisk;
    hide InRecording;
    hide MarkDeleted;
    hide Slot;
    DeleteDisk(y, mask);
  }

  /** Readback survives a delete: every finalized segment, the deleted one
      included, dumps and pages as before, whatever its data is. */
  lemma DeleteKeepsReadback(y: Sys, mask: set<nat>, id: nat, bufSize: nat, offset: nat, limit: nat)
    requires SysInv(y) && y.m.meta.Some? && y.m.meta.value.cb.DeleteWrite?
    requires SealedAt(y.d, id)
    ensures var d, d', bs := y.d, Landing(y, mask).d, y.m.cap.cfg.bs;
            && DumpSegment(d', bs, id, bufSize) == DumpSegment(d, bs, id, bufSize)
            && PageSegment(d', bs, id, bufSize, offset, limit) == PageSegment(d, bs, id, bufSize, offset, limit)
  {
    hide InRecording;
    hide InFlightMeta;
    hide InMemory;
    hide DecodeEntry;
    hide DecodeVolume;
    hide DumpSegment;
    hide PageSegment;
    DeleteDisk(y, mask);
    assert DATA_START <= Slot(y.d, id).startBlock && Readable(y.d, id);
    ReadersFrame(y.d, Landing(y, mask).d, y.m.cap.cfg.bs, id, bufSize, offset, limit);
  }

  /** Deleting a deleted segment again writes nothing. */
  lemma DeleteIsIdempotent(y: Sys, slot: nat, ok: bool)
    requires SysInv(y) && AdminFree(y.m) && slot < TOC_SLOT_COUNT
    requires Classify(Slot(y.d, slot)) == Deleted
    requires Possible(y, DeleteStart(slot))
    ensures var y1 := Do(y, DeleteStart(slot));
            && (y1 != y ==> Possible(y1, DeleteRead(ok)) && Do(y1, DeleteRead(ok)) == y)
  {
    assert Readable(y.d, slot);
    hide SysInv;
    hide DecodeEntry;
    var y1 := Do(y, DeleteStart(slot));
    if y1 != y {
      assert y1.m == y.m.(delRead := Some(slot));
      assert DeleteReadDone(y1.m, y.d, ok) == y.m;
    }
  }

  /** The segment being recorded is never deleted: the request is refused. */
  lemma RecordedSegmentIsNotDeleted(y: Sys)
    requires SysInv(y) && y.m.cap.recording && Possible(y, DeleteStart(y.m.segId))
    ensures Do(y, DeleteStart(y.m.segId)) == y
  {
    hide OnDisk;
    hide InFlightMeta;
    hide Inv;
    hide CoverOk;
    hide DataOk;
  }

  // ---- quick format ----

  /** The writes a format issues from here on if all of them succeed; that this
      is a function says that the format ends. */
  function FormatWrites(m: Daemon): (ws: seq<Meta>)
    requires m.meta.Some? && m.cap.cfg.bufBlocks > 0 && ENTRY_BYTES <= m.cap.cfg.bs
    requires m.cursor <= m.staged.dataStartBlock
    requires m.meta.value.cb.FmtZero? ==> m.cursor < m.staged.dataStartBlock
    ensures ws != []
    decreases m.staged.dataStartBlock - m.cursor
  {
    [m.meta.value] + (if m.meta.value.cb.FmtZero? then FormatWrites(FmtZeroDone(m, true)) else [])
  }

  /** How many of the writes cover block b. */
  function Covering(ws: seq<Meta>, b: nat): nat {
    if ws == [] then 0
    else (if ws[0].block <= b < ws[0].block + |ws[0].blocks| then 1 else 0) + Covering(ws[1..], b)
  }

  ghost predicate AtPiece(m: Daemon) {
    && m.cap.cfg.bufBlocks > 0 && ENTRY_BYTES <= m.cap.cfg.bs && m.cursor <= m.staged.dataStartBlock
    && (m.meta == if m.cursor == m.staged.dataStartBlock
                  then HeaderWrite(FmtHeader, m.staged, m.cap.cfg.bs)
                  else Some(Meta(FmtZero, m.cursor, ZeroBlocks(ZeroPiece(m), m.cap.cfg.bs))))
  }

  /** One piece, then the rest of the format. */
  lemma PieceThenRest(m: Daemon)
    requires AtPiece(m) && m.cursor < m.staged.dataStartBlock
    ensures var m1 := FmtZeroDone(m, true);
            && AtPiece(m1) && m1.staged == m.staged && m1.cap == m.cap
            && m.cursor < m1.cursor == m.cursor + ZeroPiece(m) <= m.staged.dataStartBlock
            && FormatWrites(m) == [m.meta.value] + FormatWrites(m1)
  {
    hide VolumeBlock;
    hide Zeros;
  }

  lemma HeaderIsLast(m: Daemon)
    requires AtPiece(m) && m.cursor == m.staged.dataStartBlock
    ensures FormatWrites(m) == [HeaderWrite(FmtHeader, m.staged, m.cap.cfg.bs).value]
  {
    hide VolumeBlock;
  }

  lemma CoveringFirst(w: Meta, ws: seq<Meta>, b: nat)
    ensures Covering([w] + ws, b) == (if w.block <= b < w.block + |w.blocks| then 1 else 0) + Covering(ws, b)
  {
    assert ([w] + ws)[1..] == ws;
  }

  lemma {:induction false} PiecesCover(m: Daemon, b: nat)
    requires AtPiece(m)
    ensures Covering(FormatWrites(m), b)
         == (if b == HEADER_BLOCK then 1 else 0)
            + (if m.cursor <= b < m.staged.dataStartBlock then 1 else 0)
    ensures var ws := FormatWrites(m);
            && ws[|ws| - 1] == HeaderWrite(FmtHeader, m.staged, m.cap.cfg.bs).value
            && forall i :: 0 <= i < |ws| - 1 ==>
                 ws[i].cb == FmtZero && ws[i].blocks == ZeroBlocks(|ws[i].blocks|, m.cap.cfg.bs)
    decreases m.staged.dataStartBlock - m.cursor
  {
    hide VolumeBlock;
    hide Zeros;
    hide FormatWrites;
    hide FmtZeroDone;
    hide Covering;
    if m.cursor < m.staged.dataStartBlock {
      var m1 := FmtZeroDone(m, true);
      PieceThenRest(m);
      PiecesCover(m1, b);
      CoveringFirst(m.meta.value, FormatWrites(m1), b);
    } else {
      HeaderIsLast(m);
      CoveringFirst(m.meta.value, [], b);
      NothingCovered(b);
      assert FormatWrites(m) == [m.meta.value] + [];
    }
  }

  lemma NothingCovered(b: nat)
    ensures Covering([], b) == 0
  {
  }

  /** A format writes zeros over every block of the table of contents exactly
      once, then the fresh header, once and last, and nothing else: no block of
      the data area. */
  lemma FormatCoversTocOnce(m: Daemon, sec: u64, b: nat)
    requires !m.cap.recording && m.cap.cfg.bufBlocks > 0 && ENTRY_BYTES <= m.cap.cfg.bs
    ensures var m1 := QuickFormat(m, sec);
            && AtPiece(m1)
            && Covering(FormatWrites(m1), b) == (if b < DATA_START then 1 else 0)
            && var ws := FormatWrites(m1);
               && ws[|ws| - 1] == HeaderWrite(FmtHeader, VolumeFor(m.cap.cfg.bs, 0, DATA_START, sec), m.cap.cfg.bs).value
               && forall i :: 0 <= i < |ws| - 1 ==>
                    ws[i].cb == FmtZero && ws[i].blocks == ZeroBlocks(|ws[i].blocks|, m.cap.cfg.bs)
  {
    hide VolumeBlock;
    hide Zeros;
    hide FormatWrites;
    PiecesCover(QuickFormat(m, sec), b);
  }

  /** The header is reset only after the whole table of contents is zero. */
  lemma HeaderWaitsForToc(y: Sys, b: nat)
    requires SysInv(y) && y.m.meta.Some? && y.m.meta.value.cb.FmtHeader?
    requires TOC_START <= b < DATA_START
    ensures b < |y.d| && y.d[b] == Zeros(y.m.cap.cfg.bs)
  {
    hide Inv;
    hide CoverOk;
    hide DataOk;
    hide DecodeVolume;
    hide Slot;
    hide Zeros;
    hide VolumeBlock;
  }

  /** Until the fresh header is known to be durable, a format leaves the live
      volume, block 0 and the data area alone; what has landed of it at any
      moment is zeros in the table of contents. */
  lemma FormatStep(y: Sys, ok: bool, mask: set<nat>, now: Clock)
    requires SysInv(y) && Formatting(y.m) && Possible(y, MetaDone(ok, mask, now))
    ensures var y' := Do(y, MetaDone(ok, mask, now));
            && (!ok || y.m.meta.value.cb.FmtZero? ==> LiveVolume(y'.m) == LiveVolume(y.m))
            && (ok && y.m.meta.value.cb.FmtHeader? ==> LiveVolume(y'.m) == y.m.staged && Header0(y'.d) == y.m.staged)
            && |y'.d| == |y.d|
            && (forall b :: DATA_START <= b < |y.d| ==> y'.d[b] == y.d[b])
            && (y.m.meta.value.cb.FmtZero? ==> y'.d[0] == y.d[0] && Thinned(y.d, y'.d, y.m.cap.cfg.bs))
  {
    hide VolumeBlock;
    hide DecodeVolume;
    hide Zeros;
    hide OnDisk;
    hide InRecording;
    if y.m.meta.value.cb.FmtZero? {
      PieceLands(y, mask);
      hide SysInv;
    } else {
      FormatHeaderStep(y, ok, mask, now);
      hide SysInv;
    }
  }

  lemma FormatHeaderStep(y: Sys, ok: bool, mask: set<nat>, now: Clock)
    requires SysInv(y) && y.m.meta.Some? && y.m.meta.value.cb.FmtHeader? && Possible(y, MetaDone(ok, mask, now))
    ensures var y' := Do(y, MetaDone(ok, mask, now));
            && (!ok ==> LiveVolume(y'.m) == LiveVolume(y.m))
            && (ok ==> LiveVolume(y'.m) == y.m.staged && Header0(y'.d) == y.m.staged)
            && |y'.d| == |y.d|
            && (forall b :: DATA_START <= b < |y.d| ==> y'.d[b] == y.d[b])
  {
    hide VolumeBlock;
    hide DecodeVolume;
    hide Zeros;
    assert y.m.meta.value.block == 0 && |y.m.meta.value.blocks| == 1 && DATA_START <= |y.d|;
    FmtHeaderDisk(y, mask);
    assert y.m.staged == VolumeFor(y.m.cap.cfg.bs, 0, DATA_START, y.m.staged.initSec);
    hide SysInv;
  }

  // ---- live tuning ----

  /** From the claim to the end of the finalize, no request changes the chunk
      size, the number of buffers or the packet format. */
  lemma BusyKeepsConfig(y: Sys, t: Step)
    requires SysInv(y) && Possible(y, t) && TuningBusy(y.m) && !t.Crash?
    ensures Do(y, t).m.cap.cfg == y.m.cap.cfg
  {
    hide OnDisk;
    hide InRecording;
    hide DecodeVolume;
    hide VolumeBlock;
    hide EntryBlock;
    hide RoundWriteChunk;
    hide MarkDeleted;
    hide Slot;
    match t {
      case Capture(e) =>
        hide Next;
        NextGrows(y.m.cap, e);
      case _ =>
    }
  }

  ghost predicate BusyThroughout(y: Sys, ts: seq<Step>)
    decreases |ts|
  {
    TuningBusy(y.m)
    && (ts == [] || (Possible(y, ts[0]) && !ts[0].Crash? && NoHazard(Do(y, ts[0]).f)
                     && BusyThroughout(Do(y, ts[0]), ts[1..])))
  }

  ghost function Through(y: Sys, ts: seq<Step>): Sys
    requires BusyThroughout(y, ts)
    decreases |ts|
  {
    if ts == [] then y else Through(Do(y, ts[0]), ts[1..])
  }

  /** Chunk-size consistency: whatever tuning requests arrive while a segment is
      claimed, recorded and finalized, its configuration is the one it was
      claimed with, its entry on disk says so, that size is whole blocks, and
      cur_buf stays inside the buffers in use. */
  lemma {:induction false} ChunkSizeIsConsistent(y: Sys, ts: seq<Step>)
    requires SysInv(y) && BusyThroughout(y, ts)
    ensures var r := Through(y, ts);
            && SysInv(r) && r.m.cap.cfg == y.m.cap.cfg
            && r.m.cap.cfg.bufSize == r.m.cap.cfg.bufBlocks * r.m.cap.cfg.bs
            && (r.m.cap.recording ==>
                  && Slot(r.d, r.m.segId).writeChunkBytes == y.m.cap.cfg.bufSize
                  && r.m.cap.cur < y.m.cap.cfg.bufCount)
    decreases |ts|
  {
    hide SysInv;
    hide Possible;
    hide Do;
    if ts == [] {
      OpenSegmentConfig(y);
    } else {
      DoKeeps(y, ts[0]);
      BusyKeepsConfig(y, ts[0]);
      ChunkSizeIsConsistent(Do(y, ts[0]), ts[1..]);
    }
  }

  lemma OpenSegmentConfig(y: Sys)
    requires SysInv(y)
    ensures y.m.cap.cfg.bufSize == y.m.cap.cfg.bufBlocks * y.m.cap.cfg.bs
    ensures y.m.cap.recording ==>
              Slot(y.d, y.m.segId).writeChunkBytes == y.m.cap.cfg.bufSize && y.m.cap.cur < y.m.cap.cfg.bufCount
  {
    hide OnDisk;
    hide InFlightMeta;
    hide Slot;
    hide CoverOk;
    hide DataOk;
    if y.m.cap.recording {
      assert BufsOk(y.m.cap);
    }
  }

  lemma RecordedEntry(y: Sys)
    requires SysInv(y) && y.m.meta.Some? && y.m.meta.value.cb.FinToc?
    ensures Slot(y.d, y.m.segId) == OpenEntry(y.m)
  {
    hide OnDisk;
    hide Inv;
    hide CoverOk;
    hide DataOk;
    hide Slot;
  }

  /** The finalized entry, rebuilt from scratch, repeats what the claim recorded. */
  lemma FinalChunkSize(y: Sys, mask: set<nat>)
    requires SysInv(y) && y.m.meta.Some? && y.m.meta.value.cb.FinToc? && 0 in mask
    ensures Slot(Landing(y, mask).d, y.m.segId).writeChunkBytes == Slot(y.d, y.m.segId).writeChunkBytes
    ensures Slot(Landing(y, mask).d, y.m.segId).startBlock == Slot(y.d, y.m.segId).startBlock
    ensures Slot(Landing(y, mask).d, y.m.segId).startSec == Slot(y.d, y.m.segId).startSec
    ensures Slot(Landing(y, mask).d, y.m.segId).startNsec == Slot(y.d, y.m.segId).startNsec
    ensures Slot(Landing(y, mask).d, y.m.segId).state == STATE_FINALIZED
  {
    hide OnDisk;
    hide InFlightMeta;
    hide Inv;
    hide Slot;
    hide Landing;
    hide CoverOk;
    hide DataOk;
    var now := FinalEntryLands(y, mask);
    RecordedEntry(y);
  }
}
