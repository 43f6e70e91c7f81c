/** Every step of the daemon keeps the system invariant. */
module StoreSteps {
  import opened Bytes
  import opened Record
  import opened Device
  import opened Readers
  import opened Capture
  import opened CaptureInvariant
  import opened CaptureRuns
  import opened CaptureDisk
  import opened SegmentData
  import opened Tuning
  import opened Store
  import opened StoreInvariant

  // ---- frames: what a write leaves readable ----

  /** Block 0 and the TOC are the same on both disks. */
  ghost predicate SameToc(d: Disk, d': Disk) {
    |d'| == |d| && forall b :: 0 <= b < DATA_START && b < |d| ==> d'[b] == d[b]
  }

  lemma SameTocReads(d: Disk, d': Disk)
    requires SameToc(d, d')
    ensures forall j: nat :: j < TOC_SLOT_COUNT ==> Slot(d', j) == Slot(d, j)
    ensures Header0(d') == Header0(d)
  {
    hide DecodeEntry;
    hide DecodeVolume;
    forall j: nat | j < TOC_SLOT_COUNT ensures Slot(d', j) == Slot(d, j) {
      assert TOC_START + j < DATA_START;
    }
  }

  /** The TOC invariants depend on the slots alone. */
  lemma SameSlots(d: Disk, d': Disk, seg: nat, hi: nat, hi': nat)
    requires forall j: nat :: j < TOC_SLOT_COUNT ==> Slot(d', j) == Slot(d, j)
    requires hi <= hi'
    ensures TocOk(d, seg, hi) ==> TocOk(d', seg, hi')
    ensures Apart(d) ==> Apart(d')
    ensures OpenPlain(d) ==> OpenPlain(d')
  {
    hide Slot;
    assert forall j: nat :: SealedAt(d', j) <==> SealedAt(d, j);
  }

  /** A step that leaves header and slots readable as before, and the high-water
      mark where it was or higher. */
  lemma OnDiskSame(y: Sys, y': Sys)
    requires OnDisk(y) && SameToc(y.d, y'.d)
    requires y'.m.cap.cfg.bs == y.m.cap.cfg.bs && y'.m.cap.cfg.numBlocks == y.m.cap.cfg.numBlocks
    requires Formed(y'.d, y.m.cap.cfg.bs)
    requires y'.m.nextSeg == y.m.nextSeg && y.m.cap.hwm <= y'.m.cap.hwm && y'.f.lag == y.f.lag
    ensures OnDisk(y')
  {
    hide DecodeVolume;
    hide Slot;
    SameTocReads(y.d, y'.d);
    var v := Header(y.d);
    assert Header(y'.d) == v;
    SameSlots(y.d, y'.d, v.nextSegmentId, y.m.cap.hwm, y'.m.cap.hwm);
    SameSlots(y.d, y'.d, v.nextSegmentId, v.nextDataBlock, v.nextDataBlock);
  }

  /** A single-block write either reaches the device or does not. */
  lemma SingleWrite(d: Disk, cb: Callback, block: nat, b: Block, mask: set<nat>)
    requires block < |d|
    ensures var d' := Applied(d, Meta(cb, block, [b]), mask);
            d' == (if 0 in mask then d[block := b] else d)
  {
    var w := Meta(cb, block, [b]);
    var d' := Applied(d, w, mask);
    assert Masked(d, block, [b], mask)[0] == if 0 in mask then b else d[block];
    assert d' == if 0 in mask then d[block := b] else d;
  }

  /** Writing one TOC entry changes that slot only. */
  lemma SlotUpdate(d: Disk, k: nat, e: Entry, bs: nat)
    requires ENTRY_BYTES <= bs && Formed(d, bs) && DATA_START <= |d| && k < TOC_SLOT_COUNT && FitsEntry(e)
    ensures var d' := d[TOC_START + k := EntryBlock(e, bs)];
            && Formed(d', bs) && Slot(d', k) == e && Header0(d') == Header0(d)
            && forall j: nat :: j < TOC_SLOT_COUNT && j != k ==> Slot(d', j) == Slot(d, j)
  {
    hide DecodeVolume;
    hide DecodeEntry;
    hide EntryBlock;
    hide EncodeEntry;
    EntryReadsBack(d[TOC_START + k := EntryBlock(e, bs)], k, e, bs);
  }

  lemma HeaderUpdate(d: Disk, v: Volume, bs: nat)
    requires ENTRY_BYTES <= bs && Formed(d, bs) && DATA_START <= |d| && FitsVolume(v)
    ensures var d' := d[0 := VolumeBlock(v, bs)];
            && Formed(d', bs) && Header(d') == v
            && forall j: nat :: j < TOC_SLOT_COUNT ==> Slot(d', j) == Slot(d, j)
  {
    hide DecodeVolume;
    hide DecodeEntry;
    hide VolumeBlock;
    hide EncodeVolume;
    HeaderReadsBack(d[0 := VolumeBlock(v, bs)], v, bs);
  }

  predicate Disjoint(a: Entry, b: Entry) {
    EndOf(a) <= b.startBlock || EndOf(b) <= a.startBlock
  }

  /** The TOC invariants after one slot has been rewritten. */
  lemma TocAfterSlot(d: Disk, d': Disk, k: nat, seg: nat, hi: nat)
    requires k < TOC_SLOT_COUNT
    requires forall j: nat :: j < TOC_SLOT_COUNT && j != k ==> Slot(d', j) == Slot(d, j)
    requires TocOk(d, seg, hi)
    requires Sealed(Slot(d', k)) ==>
               && Slot(d', k).segmentId == k && k < seg && Slot(d', k).tscHz != 0
               && DATA_START <= Slot(d', k).startBlock && EndOf(Slot(d', k)) <= hi
    ensures TocOk(d', seg, hi)
  {
    hide Slot;
    forall j: nat | SealedAt(d', j)
      ensures Slot(d', j).segmentId == j && j < seg && Slot(d', j).tscHz != 0
           && DATA_START <= Slot(d', j).startBlock && EndOf(Slot(d', j)) <= hi
    {
      assert j != k ==> SealedAt(d, j);
    }
  }

  lemma ApartAfterSlot(d: Disk, d': Disk, k: nat)
    requires k < TOC_SLOT_COUNT
    requires forall j: nat :: j < TOC_SLOT_COUNT && j != k ==> Slot(d', j) == Slot(d, j)
    requires Apart(d)
    requires Sealed(Slot(d', k)) ==>
               forall j: nat :: SealedAt(d, j) && j != k ==> Disjoint(Slot(d, j), Slot(d', k))
    ensures Apart(d')
  {
    hide Slot;
    forall i: nat, j: nat | SealedAt(d', i) && SealedAt(d', j) && i != j
      ensures Disjoint(Slot(d', i), Slot(d', j))
    {
      assert i != k ==> SealedAt(d, i);
      assert j != k ==> SealedAt(d, j);
    }
  }

  lemma OpenPlainAfterSlot(d: Disk, d': Disk, k: nat)
    requires k < TOC_SLOT_COUNT
    requires forall j: nat :: j < TOC_SLOT_COUNT && j != k ==> Slot(d', j) == Slot(d, j)
    requires OpenPlain(d)
    requires !Sealed(Slot(d', k)) && Classify(Slot(d', k)) != NotFound ==> Plain(Slot(d', k))
    ensures OpenPlain(d')
  {
    hide Slot;
  }

  // ---- memory facts every step needs ----

  lemma InvIsPossible(y: Sys)
    requires SysInv(y)
    ensures MemoryOk(y.m)
  {
    hide DecodeEntry;
    hide DecodeVolume;
    hide VolumeBlock;
    hide EntryBlock;
    hide Inv;
    hide CoverOk;
    hide DataOk;
  }

  // ---- capture events and the device's data writes ----

  /** A write at or above the data area leaves block 0 and the TOC alone. */
  lemma DataWriteSameToc(d: Disk, t: nat, blocks: seq<Block>, bs: nat)
    requires DATA_START <= t && t + |blocks| <= |d| && Formed(d, bs) && Formed(blocks, bs)
    ensures SameToc(d, Write(d, t, blocks)) && Formed(Write(d, t, blocks), bs)
  {
    WriteFormed(d, t, blocks, bs);
  }

  lemma CaptureLands(y: Sys, e: Event)
    requires SysInv(y) && y.m.cap.recording && Enabled(y.m.cap, e)
    ensures Shape(y.m.cap)
    ensures SameToc(y.d, DiskAfter(y, e)) && Formed(DiskAfter(y, e), y.m.cap.cfg.bs)
    ensures DataOk(Next(y.m.cap, e), DiskAfter(y, e))
  {
    hide OnDisk;
    hide InFlightMeta;
    hide Next;
    hide WriteComplete;
    var s := y.m.cap;
    assert Shape(s) by { BodyShape(s); }
    assert DiskOk(y.d, s.cfg) by { DiskIsOk(y); }
    if e.Complete? && e.ok {
      CompleteData(s, y.d, e.io, e.rcs);
      WriteInside(s, e.io);
      DataWriteSameToc(y.d, e.io.target, Landed(s, e.io), s.cfg.bs);
      assert Next(s, e) == WriteComplete(s, e.io, true, e.rcs) by { NextIsComplete(s, e); }
    } else {
      OtherEventData(s, y.d, e);
    }
  }

  lemma DiskIsOk(y: Sys)
    requires OnDisk(y)
    ensures DiskOk(y.d, y.m.cap.cfg)
  {
  }

  lemma NextIsComplete(s: Cap, e: Event)
    requires Shape(s) && Enabled(s, e) && e.Complete? && e.ok
    ensures Next(s, e) == WriteComplete(s, e.io, true, e.rcs)
  {
  }

  /** The fields of the capture state that the rest of the daemon looks at. */
  lemma NextForDaemon(s: Cap, e: Event)
    requires Inv(s) && Enabled(s, e)
    requires !Hazard(Next(s, e).h)
    ensures var r := Next(s, e);
            && Inv(r) && r.cfg == s.cfg && r.start == s.start && r.recording == s.recording
            && s.finals <= r.finals <= 1
            && (r.finals == s.finals ==> r.hwm == s.hwm)
            && (r.finals == 1 ==> r.hwm == r.next && r.start <= r.next <= r.cfg.numBlocks)
            && (s.finals == 1 ==>
                  r.next == s.next && r.recordCount == s.recordCount && r.dropped == s.dropped
                  && r.firstTsc == s.firstTsc && r.lastTsc == s.lastTsc)
  {
    assert Shape(s) by { BodyShape(s); }
    NextGrows(s, e);
    NextKeeps(s, e);
    assert PlaceOk(Next(s, e));
    hide Body;
    hide Next;
    if s.finals == 1 {
      NextFrozen(s, e);
    }
  }

  lemma CaptureKeepsDisk(y: Sys, e: Event)
    requires SysInv(y) && y.m.cap.recording && Enabled(y.m.cap, e)
    requires MemoryOk(y.m) && Shape(y.m.cap)
    requires NoHazard(CaptureStep(y, e).f)
    ensures OnDisk(CaptureStep(y, e)) && InMemory(CaptureStep(y, e).m)
  {
    hide OnDisk;
    hide InFlightMeta;
    hide Next;
    hide DiskAfter;
    hide Inv;
    hide CoverOk;
    hide DataOk;
    CaptureLands(y, e);
    NextForDaemon(y.m.cap, e);
    OnDiskSame(y, CaptureStep(y, e));
    NextAllocated(y.m.cap, e);
  }

  lemma NextAllocated(s: Cap, e: Event)
    requires Shape(s) && Enabled(s, e)
    ensures Allocated(Next(s, e))
  {
  }

  lemma SegmentHasSlot(y: Sys)
    requires OnDisk(y) && InRecording(y) && y.m.cap.recording
    ensures y.m.segId < TOC_SLOT_COUNT
  {
    hide DecodeVolume;
    hide Slot;
  }

  lemma CaptureKeepsRecording(y: Sys, e: Event)
    requires SysInv(y) && y.m.cap.recording && Enabled(y.m.cap, e)
    requires MemoryOk(y.m) && Shape(y.m.cap)
    requires NoHazard(CaptureStep(y, e).f)
    ensures InRecording(CaptureStep(y, e))
  {
    hide OnDisk;
    hide InFlightMeta;
    hide Next;
    hide DiskAfter;
    hide Inv;
    hide CoverOk;
    hide DataOk;
    hide Slot;
    hide DecodeVolume;
    hide VolumeBlock;
    hide EntryBlock;
    CaptureLands(y, e);
    NextForDaemon(y.m.cap, e);
    NextCover(y.m.cap, e);
    SameTocReads(y.d, DiskAfter(y, e));
    SegmentHasSlot(y);
    var y' := CaptureStep(y, e);
    forall j: nat | SealedAt(y'.d, j) ensures EndOf(Slot(y'.d, j)) <= y'.m.cap.start {
      assert SealedAt(y.d, j);
    }
  }

  lemma CaptureKeepsMeta(y: Sys, e: Event)
    requires SysInv(y) && y.m.cap.recording && Enabled(y.m.cap, e)
    requires MemoryOk(y.m) && Shape(y.m.cap)
    requires NoHazard(CaptureStep(y, e).f)
    ensures InFlightMeta(CaptureStep(y, e))
  {
    hide Next;
    hide DiskAfter;
    hide Inv;
    hide CoverOk;
    hide DataOk;
    hide Slot;
    hide DecodeVolume;
    hide VolumeBlock;
    hide EntryBlock;
    hide TocOk;
    hide MarkDeleted;
    CaptureLands(y, e);
    NextForDaemon(y.m.cap, e);
    SameTocReads(y.d, DiskAfter(y, e));
    assert y.m.cap.finals == 0 || y.m.cap.finals == 1 by { FinalsAreFew(y.m.cap); }
  }

  lemma FinalsAreFew(s: Cap)
    requires Inv(s)
    ensures s.finals == 0 || s.finals == 1
  {
    hide Body;
  }

  lemma CaptureKeeps(y: Sys, e: Event)
    requires SysInv(y) && y.m.cap.recording && Enabled(y.m.cap, e)
    requires MemoryOk(y.m) && Shape(y.m.cap)
    requires NoHazard(CaptureStep(y, e).f)
    ensures SysInv(CaptureStep(y, e))
  {
    hide CaptureStep;
    CaptureKeepsDisk(y, e);
    CaptureKeepsRecording(y, e);
    CaptureKeepsMeta(y, e);
  }

  /** A change of data blocks only, which the open segment can bear. */
  lemma DataChangeKeeps(y: Sys, d': Disk)
    requires SysInv(y) && SameToc(y.d, d') && Formed(d', y.m.cap.cfg.bs)
    requires y.m.cap.recording && DataOk(y.m.cap, d')
    ensures SysInv(y.(d := d'))
  {
    hide Inv;
    hide CoverOk;
    hide DataOk;
    hide OnDisk;
    hide InRecording;
    hide InFlightMeta;
    OnDiskSame(y, y.(d := d'));
    DataChangeRecording(y, d');
    DataChangeMeta(y, d');
  }

  lemma DataChangeRecording(y: Sys, d': Disk)
    requires OnDisk(y) && InRecording(y) && SameToc(y.d, d')
    requires y.m.cap.recording && DataOk(y.m.cap, d')
    ensures InRecording(y.(d := d'))
  {
    hide Inv;
    hide CoverOk;
    hide DataOk;
    hide Slot;
    hide DecodeVolume;
    SegmentHasSlot(y);
    hide OnDisk;
    SameTocReads(y.d, d');
    forall j: nat | SealedAt(d', j) ensures EndOf(Slot(d', j)) <= y.m.cap.start {
      assert SealedAt(y.d, j);
    }
  }

  lemma DataChangeMeta(y: Sys, d': Disk)
    requires InFlightMeta(y) && SameToc(y.d, d') && y.m.cap.recording
    ensures InFlightMeta(y.(d := d'))
  {
    hide Slot;
    hide DecodeVolume;
    hide VolumeBlock;
    hide EntryBlock;
    hide MarkDeleted;
    SameTocReads(y.d, d');
  }

  lemma ScribbleKeeps(y: Sys, io: Io, blocks: seq<Block>)
    requires SysInv(y) && io in y.m.cap.out
    requires |blocks| == y.m.cap.cfg.bufBlocks && Formed(blocks, y.m.cap.cfg.bs)
    ensures io.target + |blocks| <= |y.d|
    ensures SysInv(y.(d := Write(y.d, io.target, blocks)))
  {
    hide Inv;
    hide CoverOk;
    hide DataOk;
    hide OnDisk;
    hide InFlightMeta;
    hide Write;
    assert y.m.cap.recording;
    var s := y.m.cap;
    assert Body(s) by { InvBody(s); }
    ScribbleKeepsData(s, y.d, io, blocks);
    assert DiskOk(y.d, s.cfg) by { DiskIsOk(y); }
    WriteInside(s, io);
    DataWriteSameToc(y.d, io.target, blocks, s.cfg.bs);
    DataChangeKeeps(y, Write(y.d, io.target, blocks));
  }

  lemma InvBody(s: Cap)
    requires Inv(s)
    ensures Body(s)
  {
  }

  // ---- requests: start, tuning, delete, format ----

  /** A step that changes memory only. */
  lemma MemoryStepDisk(y: Sys, m': Daemon)
    requires OnDisk(y)
    requires m'.cap.cfg.bs == y.m.cap.cfg.bs && m'.cap.cfg.numBlocks == y.m.cap.cfg.numBlocks
    requires m'.nextSeg == y.m.nextSeg && m'.cap.hwm == y.m.cap.hwm
    ensures OnDisk(y.(m := m'))
  {
    hide TocOk;
    hide Apart;
    hide OpenPlain;
    hide DecodeVolume;
  }

  lemma StartKeeps(y: Sys, port: u16, limit: Option<u64>, now: Clock)
    requires SysInv(y) && (AdminFree(y.m) || y.m.cap.recording)
    ensures SysInv(y.(m := RecordingStart(y.m, port, limit, now)))
  {
    hide OnDisk;
    hide Inv;
    hide CoverOk;
    hide DataOk;
    hide Slot;
    hide DecodeVolume;
    hide VolumeBlock;
    hide EntryBlock;
    MemoryStepDisk(y, RecordingStart(y.m, port, limit, now));
  }

  lemma SetConfigKeeps(y: Sys, c: Option<Config>)
    requires SysInv(y) && !Formatting(y.m)
    requires c.Some? ==>
               ConfigOk(c.value) && c.value.bs == y.m.cap.cfg.bs && c.value.numBlocks == y.m.cap.cfg.numBlocks
    ensures SysInv(y.(m := SetConfig(y.m, c)))
  {
    hide OnDisk;
    hide Inv;
    hide CoverOk;
    hide DataOk;
    hide Slot;
    hide DecodeVolume;
    hide VolumeBlock;
    hide EntryBlock;
    hide MarkDeleted;
    MemoryStepDisk(y, SetConfig(y.m, c));
  }

  lemma DeleteStartKeeps(y: Sys, slot: nat)
    requires SysInv(y) && AdminFree(y.m) && slot < TOC_SLOT_COUNT
    ensures SysInv(y.(m := SegmentDelete(y.m, slot)))
  {
    hide OnDisk;
    hide Inv;
    hide CoverOk;
    hide DataOk;
    hide Slot;
    hide DecodeVolume;
    MemoryStepDisk(y, SegmentDelete(y.m, slot));
  }

  lemma DeleteReadKeeps(y: Sys, ok: bool)
    requires SysInv(y) && y.m.delRead.Some? && Readable(y.d, y.m.delRead.value)
    ensures SysInv(y.(m := DeleteReadDone(y.m, y.d, ok)))
  {
    hide Inv;
    hide CoverOk;
    hide DataOk;
    hide DecodeVolume;
    hide DecodeEntry;
    hide MarkDeleted;
    assert DiskOk(y.d, y.m.cap.cfg) by { DiskIsOk(y); }
    hide OnDisk;
    MemoryStepDisk(y, DeleteReadDone(y.m, y.d, ok));
  }

  lemma FormatStartKeeps(y: Sys, sec: u64)
    requires SysInv(y) && (AdminFree(y.m) || y.m.cap.recording)
    ensures SysInv(y.(m := QuickFormat(y.m, sec)))
  {
    hide Inv;
    hide CoverOk;
    hide DataOk;
    hide DecodeVolume;
    hide Slot;
    hide VolumeBlock;
    hide Zeros;
    hide OnDisk;
    MemoryStepDisk(y, QuickFormat(y.m, sec));
  }

  // ---- completions of metadata writes ----

  lemma OpenEntryFits(m: Daemon)
    requires InMemory(m) && m.segId < TOC_SLOT_COUNT && m.cap.start <= m.cap.cfg.numBlocks
    ensures FitsEntry(OpenEntry(m))
  {
    BlocksFit(m.cap.cfg);
    EntryFits(OpenEntry(m));
  }

  lemma LiveVolumeFits(m: Daemon)
    requires InMemory(m)
    ensures FitsVolume(LiveVolume(m))
  {
    BlocksFit(m.cap.cfg);
    VolumeFits(m.cap.cfg.bs, m.nextSeg, m.cap.hwm, m.initSec);
  }

  /** A slot that holds no sealed entry becomes an open one, or stays. */
  lemma ClaimSlotDisk(y: Sys, y': Sys, k: nat, e: Entry)
    requires OnDisk(y) && k < TOC_SLOT_COUNT && FitsEntry(e) && Classify(e) == Open && Plain(e)
    requires y'.d == y.d[TOC_START + k := EntryBlock(e, y.m.cap.cfg.bs)]
    requires y'.m.cap.cfg == y.m.cap.cfg && y'.m.nextSeg == y.m.nextSeg && y'.m.cap.hwm == y.m.cap.hwm
    requires y'.f.lag == y.f.lag
    ensures OnDisk(y') && Slot(y'.d, k) == e
    ensures forall j: nat :: j < TOC_SLOT_COUNT && j != k ==> Slot(y'.d, j) == Slot(y.d, j)
    ensures Header0(y'.d) == Header0(y.d)
  {
    hide DecodeVolume;
    hide EntryBlock;
    hide FitsEntry;
    var v := Header(y.d);
    SlotUpdate(y.d, k, e, y.m.cap.cfg.bs);
    hide Slot;
    TocAfterSlot(y.d, y'.d, k, v.nextSegmentId, y.m.cap.hwm);
    if !y.f.lag {
      TocAfterSlot(y.d, y'.d, k, v.nextSegmentId, v.nextDataBlock);
    }
    ApartAfterSlot(y.d, y'.d, k);
    OpenPlainAfterSlot(y.d, y'.d, k);
  }

  /** The header is replaced by one that covers at least as much. */
  lemma HeaderDisk(y: Sys, y': Sys)
    requires OnDisk(y) && InMemory(y.m)
    requires y'.d == y.d[0 := VolumeBlock(LiveVolume(y.m), y.m.cap.cfg.bs)]
    requires y'.m.cap.cfg == y.m.cap.cfg && y'.m.nextSeg == y.m.nextSeg && y'.m.cap.hwm == y.m.cap.hwm
    ensures OnDisk(y')
    ensures forall j: nat :: j < TOC_SLOT_COUNT ==> Slot(y'.d, j) == Slot(y.d, j)
    ensures |y'.d| == |y.d| && Header0(y'.d) == LiveVolume(y.m)
  {
    hide DecodeVolume;
    hide VolumeBlock;
    hide FitsVolume;
    var v := Header(y.d);
    LiveVolumeFits(y.m);
    HeaderUpdate(y.d, LiveVolume(y.m), y.m.cap.cfg.bs);
    hide Slot;
    SameSlots(y.d, y'.d, v.nextSegmentId, y.m.cap.hwm, y.m.cap.hwm);
    TocMonotone(y'.d, v.nextSegmentId, y.m.nextSeg, y.m.cap.hwm);
  }

  lemma TocMonotone(d: Disk, seg: nat, seg': nat, hi: nat)
    requires TocOk(d, seg, hi) && seg <= seg'
    ensures TocOk(d, seg', hi)
  {
    hide Slot;
  }

  /** The disk when some of the blocks of the metadata write have landed. */
  function Landing(y: Sys, mask: set<nat>): Sys
    requires y.m.meta.Some?
  {
    y.(d := Applied(y.d, y.m.meta.value, mask))
  }

  lemma ClaimTocDisk(y: Sys, mask: set<nat>)
    requires SysInv(y) && y.m.meta.Some? && y.m.meta.value.cb.ClaimToc?
    ensures OnDisk(Landing(y, mask))
    ensures 0 in mask ==> Slot(Landing(y, mask).d, y.m.segId) == OpenEntry(y.m)
    ensures forall j: nat :: j < TOC_SLOT_COUNT && j != y.m.segId ==> Slot(Landing(y, mask).d, j) == Slot(y.d, j)
    ensures Header0(Landing(y, mask).d) == Header0(y.d)
    ensures 0 !in mask ==> Landing(y, mask).d == y.d
  {
    hide Inv;
    hide DecodeVolume;
    hide EntryBlock;
    hide FitsEntry;
    hide Slot;
    assert DiskOk(y.d, y.m.cap.cfg) by { DiskIsOk(y); }
    OpenEntryFits(y.m);
    hide OnDisk;
    SingleWrite(y.d, ClaimToc, TOC_START + y.m.segId, y.m.meta.value.blocks[0], mask);
    if 0 in mask {
      ClaimSlotDisk(y, Landing(y, mask), y.m.segId, OpenEntry(y.m));
    }
  }

  lemma ClaimTocKeeps(y: Sys, ok: bool, mask: set<nat>)
    requires SysInv(y) && y.m.meta.Some? && y.m.meta.value.cb.ClaimToc?
    requires ok ==> 0 in mask
    ensures SysInv(Landing(y, mask).(m := ClaimTocDone(y.m, ok)))
  {
    hide OnDisk;
    hide Slot;
    hide EntryBlock;
    hide VolumeBlock;
    ClaimTocDisk(y, mask);
    ClaimTocMemory(Landing(y, mask), ok);
  }

  /** daemon_claim_toc_write_complete, once the disk is settled. */
  lemma ClaimTocMemory(y: Sys, ok: bool)
    requires OnDisk(y) && InMemory(y.m) && Claiming(y.m) && y.m.segId == y.m.nextSeg < TOC_SLOT_COUNT
    requires y.m.delRead.None? && ENTRY_BYTES <= y.m.cap.cfg.bs
    requires ok ==> Slot(y.d, y.m.segId) == OpenEntry(y.m)
    ensures SysInv(y.(m := ClaimTocDone(y.m, ok)))
  {
    hide DecodeVolume;
    hide VolumeBlock;
    hide Slot;
    hide TocOk;
    hide Apart;
    hide OpenPlain;
  }

  /** A header write that lands replaces the header by the live one. */
  lemma LiveHeaderDisk(y: Sys, mask: set<nat>)
    requires SysInv(y) && y.m.meta.Some?
    requires y.m.meta.value.cb.ClaimHeader? || y.m.meta.value.cb.FinHeader?
    ensures OnDisk(Landing(y, mask))
    ensures 0 in mask ==> OnDisk(Landing(y, mask).(f := y.f.(lag := false)))
    ensures forall j: nat :: j < TOC_SLOT_COUNT ==> Slot(Landing(y, mask).d, j) == Slot(y.d, j)
    ensures 0 in mask ==> Header0(Landing(y, mask).d) == LiveVolume(y.m)
    ensures 0 !in mask ==> Landing(y, mask).d == y.d
    ensures forall b :: 0 < b < |y.d| ==> Landing(y, mask).d[b] == y.d[b]
  {
    hide Inv;
    hide DecodeVolume;
    hide VolumeBlock;
    hide Slot;
    assert DiskOk(y.d, y.m.cap.cfg) by { DiskIsOk(y); }
    hide OnDisk;
    SingleWrite(y.d, y.m.meta.value.cb, 0, y.m.meta.value.blocks[0], mask);
    if 0 in mask {
      HeaderDisk(y, Landing(y, mask));
      HeaderDisk(y, Landing(y, mask).(f := y.f.(lag := false)));
    }
  }

  lemma ClaimHeaderKeeps(y: Sys, ok: bool, mask: set<nat>)
    requires SysInv(y) && y.m.meta.Some? && y.m.meta.value.cb.ClaimHeader?
    requires ok ==> 0 in mask
    ensures SysInv(Landing(y, mask).(m := ClaimHeaderDone(y.m, ok),
                                     f := y.f.(lag := LagAfter(y.f.lag, ClaimHeader, mask))))
  {
    hide OnDisk;
    hide Slot;
    hide VolumeBlock;
    hide DecodeVolume;
    LiveHeaderDisk(y, mask);
    ClaimHeaderMemory(Landing(y, mask).(f := y.f.(lag := LagAfter(y.f.lag, ClaimHeader, mask))), ok);
  }

  /** daemon_claim_header_write_complete, once the disk is settled: recording
      begins, above everything finalized. */
  lemma ClaimHeaderMemory(y: Sys, ok: bool)
    requires OnDisk(y) && InMemory(y.m) && Claiming(y.m) && y.m.segId + 1 == y.m.nextSeg
    requires y.m.delRead.None? && ENTRY_BYTES <= y.m.cap.cfg.bs
    requires Slot(y.d, y.m.segId) == OpenEntry(y.m)
    requires ok ==> Header0(y.d) == LiveVolume(y.m)
    ensures SysInv(y.(m := ClaimHeaderDone(y.m, ok)))
  {
    hide DecodeVolume;
    hide Slot;
    var m' := ClaimHeaderDone(y.m, ok);
    MemoryStepDisk(y, m');
    if ok {
      BeginIsSound(y.m.cap);
      assert CoverOk(m'.cap) && DataOk(m'.cap, y.d);
      hide Inv;
      hide CoverOk;
      hide DataOk;
      assert forall j: nat :: SealedAt(y.d, j) ==> EndOf(Slot(y.d, j)) <= m'.cap.start;
    }
  }

  lemma FinHeaderKeeps(y: Sys, ok: bool, mask: set<nat>, now: Clock)
    requires SysInv(y) && y.m.meta.Some? && y.m.meta.value.cb.FinHeader? && now.hz > 0
    requires ok ==> 0 in mask
    ensures SysInv(Landing(y, mask).(m := FinHeaderDone(y.m, now), f := y.f.(lag := LagAfter(y.f.lag, FinHeader, mask))))
  {
    hide Slot;
    hide VolumeBlock;
    hide EntryBlock;
    hide DecodeVolume;
    hide Inv;
    hide CoverOk;
    hide ConfigOk;
    hide TocOk;
    hide Apart;
    hide OpenPlain;
    LiveHeaderDisk(y, mask);
    var y1 := Landing(y, mask).(f := y.f.(lag := LagAfter(y.f.lag, FinHeader, mask)));
    assert OnDisk(y1);
    hide OnDisk;
    DataFrame(y.m.cap, y.d, y1.d) by { DiskIsOk(y1); InvBody(y.m.cap); }
    hide DataOk;
    assert forall j: nat :: SealedAt(y1.d, j) ==> SealedAt(y.d, j);
    MemoryStepDisk(y1, FinHeaderDone(y.m, now));
    SegmentHasSlot(y);
    assert FinalWrite(FinHeaderDone(y.m, now), FinHeaderDone(y.m, now).meta);
  }

  /** The data of the open segment does not depend on block 0. */
  lemma DataFrame(s: Cap, d: Disk, d': Disk)
    requires Body(s) && DataOk(s, d) && |d'| == |d| && Formed(d', s.cfg.bs) && s.start > 0
    requires forall b :: s.start <= b < |d| ==> d'[b] == d[b]
    ensures DataOk(s, d')
  {
    assert PlaceOk(s);
    BlocksPerChunk(s.cfg) by { assert BufsOk(s); }
    hide Body;
    hide ChunkOnDisk;
    hide ChunkBlock;
    hide BlocksOf;
    forall c | c in s.h.done ensures c < |s.h.placed| && ChunkAt(s, d', c) {
      assert ChunkAt(s, d, c);
      TargetBelowNext(s, c);
      ChunkFrame(d, d', s.cfg.bs, TargetOf(s, c), s.cfg.bufSize, s.h.placed[c]);
    }
  }

  // ---- finalize: the TOC entry ----

  /** The entry of a segment that is stopped and drained. */
  lemma FinalEntryFits(m: Daemon, now: Clock)
    requires InMemory(m) && m.segId < TOC_SLOT_COUNT
    requires m.cap.start <= m.cap.next <= m.cap.cfg.numBlocks
    ensures FitsEntry(FinalEntry(m, now))
  {
    BlocksFit(m.cap.cfg);
    EntryFits(FinalEntry(m, now));
  }

  /** A drained segment has nothing outstanding, and its high-water mark is the
      end of its data. */
  lemma DrainedFacts(s: Cap)
    requires Inv(s) && s.finals == 1
    ensures s.stopping && s.pending == 0 && s.out == multiset{} && s.waiter.None?
    ensures s.hwm == s.next && s.start <= s.next <= s.cfg.numBlocks
  {
    assert PlaceOk(s);
    hide Body;
    NothingOutstanding(s, 0);
  }

  lemma FinalSlotDisk(y: Sys, y': Sys, now: Clock)
    requires OnDisk(y) && InMemory(y.m) && InRecording(y) && y.m.cap.recording && Finalizing(y.m)
    requires y.m.cap.start <= y.m.cap.next && now.hz > 0
    requires !y.f.lag ==> Header0(y.d).nextDataBlock == y.m.cap.hwm
    requires y' == y.(d := y.d[TOC_START + y.m.segId := EntryBlock(FinalEntry(y.m, now), y.m.cap.cfg.bs)])
    ensures OnDisk(y') && Slot(y'.d, y.m.segId) == FinalEntry(y.m, now)
    ensures forall j: nat :: j < TOC_SLOT_COUNT && j != y.m.segId ==> Slot(y'.d, j) == Slot(y.d, j)
    ensures Header0(y'.d) == Header0(y.d)
  {
    hide DecodeVolume;
    hide EntryBlock;
    hide FitsEntry;
    hide Inv;
    hide CoverOk;
    hide DataOk;
    var k := y.m.segId;
    SegmentHasSlot(y);
    DrainedFacts(y.m.cap);
    FinalEntryFits(y.m, now);
    SlotUpdate(y.d, k, FinalEntry(y.m, now), y.m.cap.cfg.bs);
    hide Slot;
    var v := Header(y.d);
    assert Header(y'.d) == v;
    TocAfterSlot(y.d, y'.d, k, v.nextSegmentId, y.m.cap.hwm);
    if !y.f.lag {
      TocAfterSlot(y.d, y'.d, k, v.nextSegmentId, v.nextDataBlock);
    }
    ApartAfterSlot(y.d, y'.d, k);
    OpenPlainAfterSlot(y.d, y'.d, k);
  }

  lemma FinTocDisk(y: Sys, mask: set<nat>)
    requires SysInv(y) && y.m.meta.Some? && y.m.meta.value.cb.FinToc?
    ensures OnDisk(Landing(y, mask))
  {
    hide Inv;
    hide CoverOk;
    hide DataOk;
    hide DecodeVolume;
    hide EntryBlock;
    hide Slot;
    hide ConfigOk;
    hide TocOk;
    hide FinalEntry;
    assert DiskOk(y.d, y.m.cap.cfg) by { DiskIsOk(y); }
    SegmentHasSlot(y);
    hide OnDisk;
    var now: Clock :| now.hz > 0
      && y.m.meta == EntryWrite(FinToc, y.m.segId, FinalEntry(y.m, now), y.m.cap.cfg.bs);
    SingleWrite(y.d, FinToc, TOC_START + y.m.segId, y.m.meta.value.blocks[0], mask);
    if 0 in mask {
      FinalSlotDisk(y, Landing(y, mask), now);
    }
  }

  lemma FinTocKeeps(y: Sys, mask: set<nat>)
    requires SysInv(y) && y.m.meta.Some? && y.m.meta.value.cb.FinToc?
    ensures SysInv(Landing(y, mask).(m := FinTocDone(y.m)))
  {
    hide OnDisk;
    hide Inv;
    hide CoverOk;
    hide DataOk;
    hide Slot;
    hide DecodeVolume;
    hide EntryBlock;
    FinTocDisk(y, mask);
    DrainedFacts(y.m.cap);
    MemoryStepDisk(Landing(y, mask), FinTocDone(y.m));
  }

  // ---- quick format ----

  /** Every slot is as it was or zero-filled. */
  ghost predicate Thinned(d: Disk, d': Disk, bs: nat) {
    |d'| == |d| && forall b :: TOC_START <= b < DATA_START && b < |d| ==> d'[b] == d[b] || d'[b] == Zeros(bs)
  }

  lemma ThinnedReads(d: Disk, d': Disk, bs: nat, j: nat)
    requires Thinned(d, d', bs) && ENTRY_BYTES <= bs && DATA_START <= |d| && j < TOC_SLOT_COUNT
    ensures Slot(d', j) == Slot(d, j) || (Classify(Slot(d', j)) == NotFound && !Sealed(Slot(d', j)))
  {
    hide DecodeEntry;
    hide Zeros;
    if d'[TOC_START + j] != d[TOC_START + j] {
      ZeroBlockIsFree(bs);
    }
  }

  lemma ThinnedToc(d: Disk, d': Disk, bs: nat, seg: nat, hi: nat)
    requires Thinned(d, d', bs) && ENTRY_BYTES <= bs && DATA_START <= |d|
    ensures TocOk(d, seg, hi) ==> TocOk(d', seg, hi)
    ensures Apart(d) ==> Apart(d')
    ensures OpenPlain(d) ==> OpenPlain(d')
  {
    hide Thinned;
    forall j: nat | j < TOC_SLOT_COUNT
      ensures Slot(d', j) == Slot(d, j) || (Classify(Slot(d', j)) == NotFound && !Sealed(Slot(d', j)))
    {
      ThinnedReads(d, d', bs, j);
    }
    hide Slot;
    assert forall j: nat :: SealedAt(d', j) ==> SealedAt(d, j) && Slot(d', j) == Slot(d, j);
  }

  /** What the zero-fill of one piece leaves: only the blocks of the piece change,
      and those only to zeros. */
  lemma PieceLands(y: Sys, mask: set<nat>)
    requires SysInv(y) && y.m.meta.Some? && y.m.meta.value.cb.FmtZero?
    ensures var d' := Landing(y, mask).d;
            var w := y.m.meta.value;
            && Formed(d', y.m.cap.cfg.bs) && Thinned(y.d, d', y.m.cap.cfg.bs)
            && TOC_START <= w.block && w.block + |w.blocks| <= DATA_START && |w.blocks| == ZeroPiece(y.m)
            && (forall b :: 0 <= b < |y.d| && !(w.block <= b < w.block + |w.blocks|) ==> d'[b] == y.d[b])
            && ((forall i :: 0 <= i < |w.blocks| ==> i in mask) ==>
                  forall b :: w.block <= b < w.block + |w.blocks| ==> d'[b] == Zeros(y.m.cap.cfg.bs))
  {
    hide Inv;
    hide CoverOk;
    hide DataOk;
    hide DecodeVolume;
    hide Slot;
    assert DiskOk(y.d, y.m.cap.cfg) by { DiskIsOk(y); }
    hide OnDisk;
    hide InRecording;
    var w := y.m.meta.value;
    var masked := Masked(y.d, w.block, w.blocks, mask);
    assert Landing(y, mask).d == Write(y.d, w.block, masked);
    assert forall i :: 0 <= i < |masked| ==>
      masked[i] == (if i in mask then Zeros(y.m.cap.cfg.bs) else y.d[w.block + i]);
  }

  lemma FmtZeroDisk(y: Sys, mask: set<nat>)
    requires SysInv(y) && y.m.meta.Some? && y.m.meta.value.cb.FmtZero?
    ensures OnDisk(Landing(y, mask))
  {
    hide Inv;
    hide CoverOk;
    hide DataOk;
    hide DecodeVolume;
    hide Slot;
    PieceLands(y, mask);
    hide InFlightMeta;
    hide InRecording;
    var v := Header(y.d);
    ThinnedToc(y.d, Landing(y, mask).d, y.m.cap.cfg.bs, v.nextSegmentId, y.m.cap.hwm);
    ThinnedToc(y.d, Landing(y, mask).d, y.m.cap.cfg.bs, v.nextSegmentId, v.nextDataBlock);
    assert Landing(y, mask).d[0] == y.d[0];
  }

  lemma FmtZeroKeeps(y: Sys, ok: bool, mask: set<nat>)
    requires SysInv(y) && y.m.meta.Some? && y.m.meta.value.cb.FmtZero?
    requires ok ==> forall i :: 0 <= i < |y.m.meta.value.blocks| ==> i in mask
    ensures y.m.cursor <= y.m.staged.dataStartBlock
    ensures SysInv(Landing(y, mask).(m := FmtZeroDone(y.m, ok)))
  {
    hide Inv;
    hide CoverOk;
    hide DataOk;
    hide DecodeVolume;
    hide Slot;
    hide OnDisk;
    hide VolumeBlock;
    hide Zeros;
    FmtZeroDisk(y, mask);
    PieceLands(y, mask);
    MemoryStepDisk(Landing(y, mask), FmtZeroDone(y.m, ok));
  }

  lemma AllZeroToc(d: Disk, bs: nat)
    requires ENTRY_BYTES <= bs && DATA_START <= |d|
    requires forall b :: TOC_START <= b < DATA_START ==> d[b] == Zeros(bs)
    ensures forall j: nat :: !SealedAt(d, j)
    ensures OpenPlain(d)
  {
    hide DecodeEntry;
    hide Zeros;
    forall j: nat | j < TOC_SLOT_COUNT ensures !SealedAt(d, j) && Classify(Slot(d, j)) == NotFound {
      assert d[TOC_START + j] == Zeros(bs);
      ZeroBlockIsFree(bs);
    }
  }

  lemma NothingSealed(d: Disk, seg: nat, hi: nat)
    requires forall j: nat :: !SealedAt(d, j)
    ensures TocOk(d, seg, hi) && Apart(d)
  {
    hide Slot;
  }

  lemma StagedFits(m: Daemon, d: Disk)
    requires InMemory(m) && FormatOk(m, d)
    ensures FitsVolume(m.staged)
  {
    BlocksFit(m.cap.cfg);
    VolumeFits(m.cap.cfg.bs, 0, DATA_START, m.staged.initSec);
  }

  lemma FmtHeaderDisk(y: Sys, mask: set<nat>)
    requires SysInv(y) && y.m.meta.Some? && y.m.meta.value.cb.FmtHeader?
    ensures OnDisk(Landing(y, mask))
    ensures 0 in mask ==> Header0(Landing(y, mask).d) == y.m.staged
    ensures forall j: nat :: !SealedAt(Landing(y, mask).d, j)
  {
    hide Inv;
    hide CoverOk;
    hide DataOk;
    hide DecodeVolume;
    hide VolumeBlock;
    hide Zeros;
    hide Slot;
    StagedFits(y.m, y.d);
    hide FitsVolume;
    assert DiskOk(y.d, y.m.cap.cfg) by { DiskIsOk(y); }
    var d' := Landing(y, mask).d;
    SingleWrite(y.d, FmtHeader, 0, y.m.meta.value.blocks[0], mask);
    if 0 in mask {
      HeaderUpdate(y.d, y.m.staged, y.m.cap.cfg.bs);
    }
    assert forall b :: TOC_START <= b < DATA_START ==> d'[b] == Zeros(y.m.cap.cfg.bs);
    AllZeroToc(d', y.m.cap.cfg.bs);
    NothingSealed(d', Header(d').nextSegmentId, y.m.cap.hwm);
    NothingSealed(d', Header(d').nextSegmentId, Header(d').nextDataBlock);
    hide TocOk;
    hide Apart;
    hide OpenPlain;
  }

  lemma FmtHeaderKeeps(y: Sys, ok: bool, mask: set<nat>)
    requires SysInv(y) && y.m.meta.Some? && y.m.meta.value.cb.FmtHeader?
    requires ok ==> 0 in mask
    ensures SysInv(Landing(y, mask).(m := FmtHeaderDone(y.m, ok),
                                     f := y.f.(lag := LagAfter(y.f.lag, FmtHeader, mask))))
  {
    hide Inv;
    hide CoverOk;
    hide DataOk;
    hide DecodeVolume;
    hide VolumeBlock;
    hide Slot;
    FmtHeaderDisk(y, mask);
  }

  // ---- delete ----

  lemma DeleteDisk(y: Sys, mask: set<nat>)
    requires SysInv(y) && y.m.meta.Some? && y.m.meta.value.cb.DeleteWrite?
    ensures OnDisk(Landing(y, mask))
    ensures var k := y.m.meta.value.block - TOC_START;
            var d' := Landing(y, mask).d;
            && 0 <= k < TOC_SLOT_COUNT
            && Slot(d', k) == (if 0 in mask then Slot(y.d, k).(state := STATE_DELETED) else Slot(y.d, k))
            && (forall b :: 0 <= b < |y.d| && b != TOC_START + k ==> d'[b] == y.d[b])
            && (forall j: nat :: j < TOC_SLOT_COUNT && j != k ==> Slot(d', j) == Slot(y.d, j))
            && Formed(d', y.m.cap.cfg.bs) && |d'| == |y.d|
  {
    hide Inv;
    hide CoverOk;
    hide DataOk;
    hide InRecording;
    hide DecodeVolume;
    hide DecodeEntry;
    hide MarkDeleted;
    var w := y.m.meta.value;
    var k := w.block - TOC_START;
    var d' := Landing(y, mask).d;
    SingleWrite(y.d, DeleteWrite, w.block, w.blocks[0], mask);
    MarkDeletedDecodes(y.d[w.block]);
    assert Slot(d', k) == (if 0 in mask then Slot(y.d, k).(state := STATE_DELETED) else Slot(y.d, k));
    DeletedSlotDisk(y, Landing(y, mask), k);
  }

  lemma DeleteTarget(y: Sys)
    requires SysInv(y) && y.m.meta.Some? && y.m.meta.value.cb.DeleteWrite?
    ensures y.m.meta.value.block >= TOC_START
    ensures Classify(Slot(y.d, y.m.meta.value.block - TOC_START)) in {Open, Finalized}
  {
    hide OnDisk;
    hide InRecording;
    hide Slot;
    hide MarkDeleted;
  }

  /** A slot whose state becomes DELETED, with everything else kept. */
  lemma DeletedSlotDisk(y: Sys, y': Sys, k: nat)
    requires OnDisk(y) && k < TOC_SLOT_COUNT && y'.m == y.m && y'.f == y.f
    requires |y'.d| == |y.d| && Formed(y'.d, y.m.cap.cfg.bs)
    requires forall b :: 0 <= b < |y.d| && b != TOC_START + k ==> y'.d[b] == y.d[b]
    requires Slot(y'.d, k) == Slot(y.d, k) || Slot(y'.d, k) == Slot(y.d, k).(state := STATE_DELETED)
    requires Classify(Slot(y.d, k)) in {Open, Finalized}
    ensures OnDisk(y')
    ensures forall j: nat :: j < TOC_SLOT_COUNT && j != k ==> Slot(y'.d, j) == Slot(y.d, j)
    ensures SealedAt(y'.d, k) ==> SealedAt(y.d, k)
  {
    hide DecodeVolume;
    hide DecodeEntry;
    forall j: nat | j < TOC_SLOT_COUNT && j != k ensures Slot(y'.d, j) == Slot(y.d, j) {
      assert y'.d[TOC_START + j] == y.d[TOC_START + j];
    }
    hide Slot;
    var v := Header(y.d);
    assert Header(y'.d) == v;
    assert Sealed(Slot(y'.d, k)) ==> SealedAt(y.d, k);
    TocAfterSlot(y.d, y'.d, k, v.nextSegmentId, y.m.cap.hwm);
    if !y.f.lag {
      TocAfterSlot(y.d, y'.d, k, v.nextSegmentId, v.nextDataBlock);
    }
    ApartAfterSlot(y.d, y'.d, k);
    OpenPlainAfterSlot(y.d, y'.d, k);
  }

  lemma DeleteRecording(y: Sys, d': Disk, k: nat)
    requires OnDisk(y) && InRecording(y) && y.m.cap.recording && k < TOC_SLOT_COUNT && k != y.m.segId
    requires |d'| == |y.d| && Formed(d', y.m.cap.cfg.bs)
    requires forall b :: 0 <= b < |y.d| && b != TOC_START + k ==> d'[b] == y.d[b]
    requires forall j: nat :: j < TOC_SLOT_COUNT && j != k ==> Slot(d', j) == Slot(y.d, j)
    requires SealedAt(d', k) ==> SealedAt(y.d, k) && EndOf(Slot(d', k)) == EndOf(Slot(y.d, k))
    requires y.m.meta.Some? && y.m.meta.value.cb.DeleteWrite?
    ensures InRecording(y.(d := d', m := y.m.(meta := None)))
  {
    hide Inv;
    hide CoverOk;
    hide DecodeVolume;
    hide Slot;
    SegmentHasSlot(y);
    assert d'[0] == y.d[0];
    hide OnDisk;
    DataFrame(y.m.cap, y.d, d') by { InvBody(y.m.cap); }
    hide DataOk;
    forall j: nat | SealedAt(d', j) ensures EndOf(Slot(d', j)) <= y.m.cap.start {
      assert SealedAt(y.d, j);
    }
  }

  lemma DeleteKeeps(y: Sys, mask: set<nat>)
    requires SysInv(y) && y.m.meta.Some? && y.m.meta.value.cb.DeleteWrite?
    ensures SysInv(Landing(y, mask).(m := y.m.(meta := None)))
  {
    hide InRecording;
    hide Slot;
    hide MarkDeleted;
    DeleteDisk(y, mask);
    hide OnDisk;
    var d' := Landing(y, mask).d;
    var k := y.m.meta.value.block - TOC_START;
    MemoryStepDisk(Landing(y, mask), y.m.(meta := None));
    if y.m.cap.recording {
      DeleteRecording(y, d', k);
    } else {
      NotRecording(Landing(y, mask).(m := y.m.(meta := None)));
    }
  }

  lemma NotRecording(y: Sys)
    requires !y.m.cap.recording
    ensures InRecording(y)
  {
  }

  // ---- crashes ----

  /** However much of the metadata write in flight has landed, the disk keeps
      its invariants. */
  lemma LandingKeepsDisk(y: Sys, mask: set<nat>)
    requires SysInv(y) && y.m.meta.Some?
    ensures OnDisk(Landing(y, mask))
  {
    hide OnDisk;
    hide Landing;
    hide InFlightMeta;
    match y.m.meta.value.cb {
      case ClaimToc => ClaimTocDisk(y, mask);
      case ClaimHeader => LiveHeaderDisk(y, mask);
      case FinHeader => LiveHeaderDisk(y, mask);
      case FinToc => FinTocDisk(y, mask);
      case FmtZero => FmtZeroDisk(y, mask);
      case FmtHeader => FmtHeaderDisk(y, mask);
      case DeleteWrite => DeleteDisk(y, mask);
    }
  }

  /** The disk a crash leaves: some of the write in flight has landed. */
  function CrashDisk(y: Sys, mask: set<nat>): Disk {
    if y.m.meta.Some? then Applied(y.d, y.m.meta.value, mask) else y.d
  }

  /** Every crash point is safe: at any moment, with any part of the metadata
      write in flight landed, the disk alone satisfies what a restart relies on. */
  lemma EveryCrashPointIsSafe(y: Sys, mask: set<nat>)
    requires SysInv(y) && !y.f.lag
    ensures CrashSafe(CrashDisk(y, mask), y.m.cap.cfg)
  {
    hide TocOk;
    hide Apart;
    hide OpenPlain;
    hide DecodeVolume;
    hide InFlightMeta;
    hide InRecording;
    if y.m.meta.Some? {
      LandingKeepsDisk(y, mask);
    }
  }

  /** A restart from such a disk is a sound idle daemon again. */
  lemma ReloadIsSound(m: Daemon, d: Disk, restart: Config, f: Flags)
    requires Allocated(m.cap) && ConfigOk(restart) && CrashSafe(d, restart)
    ensures SysInv(Sys(Reload(m, d, restart), d, f.(lag := false)))
  {
    hide TocOk;
    hide Apart;
    hide OpenPlain;
    hide DecodeVolume;
  }

  lemma CrashSafeConfig(d: Disk, c: Config, c': Config)
    requires CrashSafe(d, c) && c'.bs == c.bs && c'.numBlocks == c.numBlocks
    ensures CrashSafe(d, c')
  {
    hide TocOk;
    hide Apart;
    hide OpenPlain;
    hide DecodeVolume;
  }

  // ---- every step ----

  lemma MetaDoneKeeps(y: Sys, ok: bool, mask: set<nat>, now: Clock)
    requires SysInv(y) && Possible(y, MetaDone(ok, mask, now))
    ensures SysInv(Do(y, MetaDone(ok, mask, now)))
  {
    hide SysInv;
    hide FmtZeroDone;
    var w := y.m.meta.value;
    MetaHasBlock(y);
    match w.cb {
      case ClaimToc => ClaimTocKeeps(y, ok, mask);
      case ClaimHeader => ClaimHeaderKeeps(y, ok, mask);
      case FinHeader => FinHeaderKeeps(y, ok, mask, now);
      case FinToc => FinTocKeeps(y, mask);
      case FmtZero => FmtZeroKeeps(y, ok, mask);
      case FmtHeader => FmtHeaderKeeps(y, ok, mask);
      case DeleteWrite => DeleteKeeps(y, mask);
    }
  }

  lemma MetaHasBlock(y: Sys)
    requires SysInv(y) && y.m.meta.Some?
    ensures !y.m.meta.value.cb.FmtZero? ==> |y.m.meta.value.blocks| == 1
  {
    hide OnDisk;
    hide InRecording;
    hide EntryBlock;
    hide VolumeBlock;
    hide Slot;
  }

  lemma SysConfig(y: Sys)
    requires SysInv(y)
    ensures ConfigOk(y.m.cap.cfg) && Allocated(y.m.cap)
  {
    hide OnDisk;
    hide InRecording;
    hide InFlightMeta;
  }

  lemma TuningKeeps(y: Sys, t: Step)
    requires SysInv(y) && Possible(y, t) && (t.SetChunk? || t.SetBuffers? || t.SetWireSeq?)
    ensures SysInv(Do(y, t))
  {
    hide SysInv;
    assert ConfigOk(y.m.cap.cfg) by { SysConfig(y); }
    match t {
      case SetChunk(bytes) =>
        WithChunkKeepsConfig(y.m.cap.cfg, y.m.unit, bytes);
        SetConfigKeeps(y, WithChunk(y.m.cap.cfg, y.m.unit, bytes));
      case SetBuffers(count) => SetConfigKeeps(y, WithBuffers(y.m.cap.cfg, count));
      case SetWireSeq(on) => SetConfigKeeps(y, Some(y.m.cap.cfg.(withSeq := on)));
    }
  }

  lemma CrashKeeps(y: Sys, mask: set<nat>, restart: Config)
    requires SysInv(y) && Possible(y, Crash(mask, restart)) && !y.f.lag
    ensures SysInv(Do(y, Crash(mask, restart)))
  {
    hide CrashSafe;
    assert Allocated(y.m.cap);
    EveryCrashPointIsSafe(y, mask);
    hide SysInv;
    CrashSafeConfig(CrashDisk(y, mask), y.m.cap.cfg, restart);
    ReloadIsSound(y.m, CrashDisk(y, mask), restart, y.f.(lagCrash := y.f.lagCrash || y.f.lag));
  }

  /** Every possible step keeps the system invariant. */
  lemma DoKeeps(y: Sys, t: Step)
    requires SysInv(y) && Possible(y, t) && NoHazard(Do(y, t).f)
    ensures SysInv(Do(y, t))
  {
    hide SysInv;
    match t {
      case Start(port, limit, now) => StartKeeps(y, port, limit, now);
      case Capture(e) => CaptureKeeps(y, e);
      case Scribble(io, blocks) => ScribbleKeeps(y, io, blocks);
      case MetaDone(ok, mask, now) => MetaDoneKeeps(y, ok, mask, now);
      case StopIdle =>
      case DeleteStart(slot) => DeleteStartKeeps(y, slot);
      case DeleteRead(ok) => DeleteReadStep(y, ok);
      case FormatStart(sec) => FormatStartKeeps(y, sec);
      case SetChunk(_) => TuningKeeps(y, t);
      case SetBuffers(_) => TuningKeeps(y, t);
      case SetWireSeq(_) => TuningKeeps(y, t);
      case Crash(mask, restart) => CrashKeeps(y, mask, restart);
    }
  }

  lemma DeleteReadStep(y: Sys, ok: bool)
    requires SysInv(y) && Possible(y, DeleteRead(ok))
    ensures SysInv(Do(y, DeleteRead(ok)))
  {
    assert y.m.meta.None?;
    hide SysInv;
    DeleteReadKeeps(y, ok);
    assert Do(y, DeleteRead(ok)) == y.(m := DeleteReadDone(y.m, y.d, ok));
  }
}
