/** Where the volume's documented promises stop, and exactly when they hold. */
module StoreLimits {
  import opened Bytes
  import opened Record
  import opened Device
  import opened Capture
  import opened CaptureInvariant
  import opened CaptureDisk
  import opened SegmentData
  import opened Store
  import opened StoreInvariant
  import opened StoreSteps
  import opened StoreTheorems

  // ---- a finalize, whatever reaches the device of its two writes ----

  /** The header write of a finalize is about to complete. */
  ghost predicate HeaderCompletes(y: Sys, ok: bool, mask: set<nat>, now: Clock) {
    && SysInv(y) && y.m.meta.Some? && y.m.meta.value.cb.FinHeader?
    && Possible(y, MetaDone(ok, mask, now))
  }

  /** The finalize's header write has completed, `header` of it having reached the
      device, and then `entry` of its TOC write. */
  function AfterFinalize(y: Sys, ok: bool, header: set<nat>, entry: set<nat>, now: Clock): Sys
    requires HeaderCompletes(y, ok, header, now)
  {
    Landing(Do(y, MetaDone(ok, header, now)), entry)
  }

  lemma HeaderStep(y: Sys, ok: bool, mask: set<nat>, now: Clock)
    requires HeaderCompletes(y, ok, mask, now)
    ensures var y1 := Do(y, MetaDone(ok, mask, now));
            && SysInv(y1) && y1.m.meta.Some? && y1.m.meta.value.cb.FinToc?
            && y1.m.cap == y.m.cap && y1.m.segId == y.m.segId && y1.f.lag == (0 !in mask)
            && y1.d == Landing(y, mask).d && (0 !in mask ==> y1.d == y.d)
            && Header0(y1.d) == (if 0 in mask then LiveVolume(y.m) else Header0(y.d))
  {
    hide SysInv;
    hide Slot;
    hide DecodeVolume;
    MetaDoneKeeps(y, ok, mask, now);
    LiveHeaderDisk(y, mask);
  }

  /** While the finalize's header write is in flight, block 0 says where the
      segment starts, and everything finalized lies below that. */
  lemma LaggingFacts(y: Sys)
    requires SysInv(y) && y.m.meta.Some? && y.m.meta.value.cb.FinHeader?
    ensures y.m.segId < TOC_SLOT_COUNT && y.m.cap.start <= y.m.cap.next && y.m.cap.hwm == y.m.cap.next
    ensures Header0(y.d).nextDataBlock == y.m.cap.start
    ensures forall j: nat :: SealedAt(y.d, j) ==> EndOf(Slot(y.d, j)) <= y.m.cap.start
  {
    assert FinalOk(y.m.cap);
    hide Inv;
    hide CoverOk;
    hide DataOk;
    hide Slot;
    hide DecodeVolume;
    hide VolumeBlock;
    SegmentHasSlot(y);
    hide OnDisk;
  }

  /** A TOC write of a finalize that does not land changes nothing. */
  lemma EntryLost(y: Sys, mask: set<nat>)
    requires SysInv(y) && y.m.meta.Some? && y.m.meta.value.cb.FinToc? && 0 !in mask
    ensures Landing(y, mask).d == y.d
  {
    hide Inv;
    hide CoverOk;
    hide DataOk;
    hide EntryBlock;
    hide Slot;
    hide DecodeVolume;
    assert DiskOk(y.d, y.m.cap.cfg) by { DiskIsOk(y); }
    SegmentHasSlot(y);
    hide OnDisk;
    SingleWrite(y.d, FinToc, TOC_START + y.m.segId, y.m.meta.value.blocks[0], mask);
  }

  /** A FINALIZED entry landing, however the header came out. */
  lemma EntryLands(y: Sys, mask: set<nat>)
    requires SysInv(y) && y.m.meta.Some? && y.m.meta.value.cb.FinToc? && 0 in mask
    ensures OnDisk(Landing(y, mask)) && Header0(Landing(y, mask).d) == Header0(y.d)
    ensures y.m.segId < TOC_SLOT_COUNT && SealedAt(Landing(y, mask).d, y.m.segId)
    ensures var e := Slot(Landing(y, mask).d, y.m.segId);
            e.startBlock == y.m.cap.start && y.m.cap.start <= y.m.cap.next && EndOf(e) == y.m.cap.next
    ensures forall j: nat :: j < TOC_SLOT_COUNT && j != y.m.segId ==> Slot(Landing(y, mask).d, j) == Slot(y.d, j)
  {
    hide Inv;
    hide CoverOk;
    hide DataOk;
    hide DecodeVolume;
    hide EntryBlock;
    hide Slot;
    assert DiskOk(y.d, y.m.cap.cfg) by { DiskIsOk(y); }
    SegmentHasSlot(y);
    hide OnDisk;
    var now: Clock :| now.hz > 0
      && y.m.meta == EntryWrite(FinToc, y.m.segId, FinalEntry(y.m, now), y.m.cap.cfg.bs);
    SingleWrite(y.d, FinToc, TOC_START + y.m.segId, y.m.meta.value.blocks[0], mask);
    FinalSlotDisk(y, Landing(y, mask), now);
  }

  /** What the two writes leave: block 0 names the end of the segment if the header
      reached the device and its start if not, and the segment is finalized if the
      entry reached it. */
  lemma FinalizeDisk(y: Sys, ok: bool, header: set<nat>, entry: set<nat>, now: Clock)
    requires HeaderCompletes(y, ok, header, now)
    ensures var y2 := AfterFinalize(y, ok, header, entry, now);
            && OnDisk(y2) && y2.m.cap == y.m.cap && y.m.segId < TOC_SLOT_COUNT
            && y.m.cap.start <= y.m.cap.next
            && Header0(y2.d).nextDataBlock == (if 0 in header then y.m.cap.next else y.m.cap.start)
            && (0 in header ==> Header0(y2.d).nextSegmentId == y.m.nextSeg)
            && (0 !in header ==> Header0(y2.d).nextSegmentId == Header0(y.d).nextSegmentId)
            && (0 in entry ==>
                  && SealedAt(y2.d, y.m.segId) && Slot(y2.d, y.m.segId).startBlock == y.m.cap.start
                  && EndOf(Slot(y2.d, y.m.segId)) == y.m.cap.next)
            && (forall j: nat :: SealedAt(y2.d, j) && (j != y.m.segId || 0 !in entry) ==>
                  EndOf(Slot(y2.d, j)) <= y.m.cap.start)
  {
    HeaderStep(y, ok, header, now);
    LaggingFacts(y);
    LiveHeaderDisk(y, header);
    hide Do;
    hide Possible;
    hide DecodeVolume;
    var y1 := Do(y, MetaDone(ok, header, now));
    assert OnDisk(y1);
    hide SysInv;
    hide Slot;
    hide Header0;
    hide OnDisk;
    if 0 in entry {
      EntryLands(y1, entry);
    } else {
      EntryLost(y1, entry);
    }
    hide Landing;
  }

  /** "A crash between the finalize's two writes loses no segment data", exactly:
      whatever is reported of the header write, and however much of either write
      has reached the device, the disk is safe for a restart exactly if the segment
      holds no data, the header has reached the device, or the entry has not. */
  lemma FinalizeIsSafeIff(y: Sys, ok: bool, header: set<nat>, entry: set<nat>, now: Clock)
    requires HeaderCompletes(y, ok, header, now)
    ensures CrashSafe(AfterFinalize(y, ok, header, entry, now).d, y.m.cap.cfg)
       <==> y.m.cap.next == y.m.cap.start || 0 in header || 0 !in entry
  {
    FinalizeDisk(y, ok, header, entry, now);
    hide HeaderCompletes;
    hide AfterFinalize;
    hide DecodeVolume;
    hide Slot;
    var y2 := AfterFinalize(y, ok, header, entry, now);
    var v := Header(y2.d);
    assert Header0(y2.d) == v;
    if y.m.cap.next == y.m.cap.start || 0 in header || 0 !in entry {
      assert TocOk(y2.d, v.nextSegmentId, v.nextDataBlock);
    } else {
      assert SealedAt(y2.d, y.m.segId) && EndOf(Slot(y2.d, y.m.segId)) > v.nextDataBlock;
    }
  }

  /** What that costs: a daemon restarted from that disk places its next segment
      behind the finalized one exactly if the header has reached the device, and
      otherwise on top of it. */
  lemma NextSegmentAfterFinalize(y: Sys, ok: bool, header: set<nat>, entry: set<nat>, now: Clock,
                                 restart: Config, port: u16)
    requires HeaderCompletes(y, ok, header, now) && 0 in entry
    requires ConfigOk(restart) && port != 0
    requires Header0(AfterFinalize(y, ok, header, entry, now).d).nextSegmentId < TOC_SLOT_COUNT
    ensures var y2 := AfterFinalize(y, ok, header, entry, now);
            && |y2.d| > 0 && |y2.d[0]| >= VOLUME_BYTES
            && var m := RecordingStart(Reload(y2.m, y2.d, restart), port, None, now);
               && m.claiming
               && m.cap.start == (if 0 in header then EndOf(Slot(y2.d, y.m.segId))
                                  else Slot(y2.d, y.m.segId).startBlock)
  {
    FinalizeDisk(y, ok, header, entry, now);
    hide HeaderCompletes;
    hide AfterFinalize;
    hide DecodeVolume;
    hide Slot;
    hide EntryBlock;
  }

  // ---- deleting a segment whose claim was never recorded ----

  /** The documented invariant: every entry that is finalized or deleted has an id
      below next_segment_id. */
  ghost predicate IdsBelowNext(d: Disk) {
    forall j: nat :: j < TOC_SLOT_COUNT && Classify(Slot(d, j)) in {Finalized, Deleted}
                     ==> j < Header0(d).nextSegmentId
  }

  /** A delete keeps that invariant exactly if the slot's claim had reached the
      header: an entry left open by a claim that failed halfway can be deleted
      too, and then lies at or above next_segment_id. */
  lemma DeleteKeepsIdsBelowIff(y: Sys)
    requires SysInv(y) && y.m.meta.Some? && y.m.meta.value.cb.DeleteWrite?
    requires IdsBelowNext(y.d)
    ensures y.m.meta.value.block >= TOC_START
    ensures IdsBelowNext(Landing(y, {0}).d)
       <==> y.m.meta.value.block - TOC_START < Header0(y.d).nextSegmentId
  {
    hide InRecording;
    hide DecodeVolume;
    hide DecodeEntry;
    hide MarkDeleted;
    DeleteDisk(y, {0});
    var k := y.m.meta.value.block - TOC_START;
    var d' := Landing(y, {0}).d;
    assert Header0(d') == Header0(y.d);
    hide Slot;
    hide InFlightMeta;
    hide OnDisk;
    assert Classify(Slot(d', k)) == Deleted;
  }

  /** Such a tombstone holds no data: no blocks, no records, and it does not pass
      for a segment that was finalized. */
  lemma TombstoneIsEmpty(y: Sys)
    requires SysInv(y) && y.m.meta.Some? && y.m.meta.value.cb.DeleteWrite?
    requires Classify(Slot(y.d, y.m.meta.value.block - TOC_START)) == Open
    ensures var e := Slot(Landing(y, {0}).d, y.m.meta.value.block - TOC_START);
            Classify(e) == Deleted && !Sealed(e) && e.blockCount == 0 && e.recordCount == 0
  {
    hide InRecording;
    hide DecodeVolume;
    hide DecodeEntry;
    hide MarkDeleted;
    DeleteDisk(y, {0});
    assert OpenPlain(y.d);
  }

  /** An idle, sound daemon with a free slot. */
  ghost predicate Idling(y: Sys) {
    && SysInv(y) && NoHazard(y.f) && AdminFree(y.m) && !y.m.cap.recording
    && Header0(y.d).nextSegmentId < TOC_SLOT_COUNT
  }

  lemma RunCons(y: Sys, t: Step, ts: seq<Step>)
    requires Possible(y, t) && IsRun(Do(y, t), ts)
    ensures IsRun(y, [t] + ts) && After(y, [t] + ts) == After(Do(y, t), ts)
  {
    assert ([t] + ts)[1..] == ts;
  }

  const NOW := Clock(0, 0, 1)

  /** A write of one block inside the device can complete at any time. */
  lemma CanComplete(y: Sys, ok: bool)
    requires SysInv(y) && y.m.meta.Some? && !y.m.meta.value.cb.FmtZero?
    ensures Possible(y, MetaDone(ok, if ok then {0} else {}, NOW))
  {
    InvIsPossible(y);
    MetaHasBlock(y);
    MetaInside(y);
    assert DiskOk(y.d, y.m.cap.cfg) by { DiskIsOk(y); }
    hide SysInv;
    hide MemoryOk;
  }

  /** Every metadata write but a format's zeroing is one block in front of the data. */
  lemma MetaInside(y: Sys)
    requires SysInv(y) && y.m.meta.Some? && !y.m.meta.value.cb.FmtZero?
    ensures y.m.meta.value.block < DATA_START
  {
    hide Inv;
    hide CoverOk;
    hide DataOk;
    hide InMemory;
    hide Slot;
    hide DecodeVolume;
    hide EntryBlock;
    hide VolumeBlock;
    hide MarkDeleted;
    if y.m.meta.value.cb.FinToc? {
      SegmentHasSlot(y);
    }
    hide OnDisk;
    hide InRecording;
  }

  lemma CanRequest(y: Sys, t: Step)
    requires SysInv(y) && AdminFree(y.m)
    requires t.Start? || (t.DeleteStart? && t.slot < TOC_SLOT_COUNT)
    ensures Possible(y, t)
  {
    InvIsPossible(y);
    assert DiskOk(y.d, y.m.cap.cfg) by { DiskIsOk(y); }
    hide SysInv;
  }

  /** The claim's first write is on its way. */
  ghost predicate ClaimingSlot(y: Sys, k: nat, cb: Callback) {
    && NoHazard(y.f) && y.m.delRead.None? && !y.m.cap.recording && y.m.segId == k < TOC_SLOT_COUNT
    && y.m.meta.Some? && y.m.meta.value.cb == cb
  }

  lemma ClaimRequested(y: Sys, port: u16)
    requires Idling(y) && port != 0 && y.m.nextSeg < TOC_SLOT_COUNT
    requires Possible(y, Start(port, None, NOW))
    ensures var y1 := Do(y, Start(port, None, NOW));
            ClaimingSlot(y1, y.m.nextSeg, ClaimToc) && y1.d == y.d
  {
    hide SysInv;
    hide EntryBlock;
    hide DecodeVolume;
  }

  lemma ClaimTocLanded(y: Sys, k: nat)
    requires SysInv(y) && ClaimingSlot(y, k, ClaimToc) && Possible(y, MetaDone(true, {0}, NOW))
    ensures var y2 := Do(y, MetaDone(true, {0}, NOW));
            && ClaimingSlot(y2, k, ClaimHeader) && Header0(y2.d) == Header0(y.d)
            && Slot(y2.d, k) == OpenEntry(y.m)
  {
    hide Inv;
    hide CoverOk;
    hide DataOk;
    hide EntryBlock;
    hide VolumeBlock;
    hide DecodeVolume;
    hide Slot;
    assert DiskOk(y.d, y.m.cap.cfg) by { DiskIsOk(y); }
    ClaimTocDisk(y, {0});
    hide OnDisk;
    SingleWrite(y.d, ClaimToc, TOC_START + k, y.m.meta.value.blocks[0], {0});
  }

  lemma ClaimHeaderLost(y: Sys, k: nat)
    requires SysInv(y) && ClaimingSlot(y, k, ClaimHeader) && Possible(y, MetaDone(false, {}, NOW))
    ensures var y3 := Do(y, MetaDone(false, {}, NOW));
            NoHazard(y3.f) && AdminFree(y3.m) && !y3.m.cap.recording && y3.d == y.d
  {
    hide Inv;
    hide Slot;
    hide DecodeVolume;
    hide EntryBlock;
    LiveHeaderDisk(y, {});
  }

  /** The claim's TOC entry lands and its header write fails. */
  lemma ClaimFailsHalfway(y: Sys, port: u16)
    requires Idling(y) && port != 0 && y.m.nextSeg < TOC_SLOT_COUNT
    ensures IsRun(y, HalfClaim(port))
    ensures var z := After(y, HalfClaim(port));
            && Idling(z) && Header0(z.d) == Header0(y.d) && Classify(Slot(z.d, y.m.nextSeg)) == Open
  {
    hide Possible;
    hide Do;
    hide Slot;
    hide SysInv;
    var t0, t1, t2 := Start(port, None, NOW), MetaDone(true, {0}, NOW), MetaDone(false, {}, NOW);
    CanRequest(y, t0);
    var y1 := Do(y, t0);
    ClaimRequested(y, port);
    DoKeeps(y, t0);
    CanComplete(y1, true);
    var y2 := Do(y1, t1);
    ClaimTocLanded(y1, y.m.nextSeg);
    DoKeeps(y1, t1);
    CanComplete(y2, false);
    var y3 := Do(y2, t2);
    ClaimHeaderLost(y2, y.m.nextSeg);
    DoKeeps(y2, t2);
    RunCons(y2, t2, []);
    RunCons(y1, t1, [t2]);
    RunCons(y, t0, [t1, t2]);
  }

  function HalfClaim(port: u16): seq<Step> {
    [Start(port, None, NOW)] + ([MetaDone(true, {0}, NOW)] + [MetaDone(false, {}, NOW)])
  }

  function DeleteSteps(slot: nat): seq<Step> {
    [DeleteStart(slot)] + ([DeleteRead(true)] + [MetaDone(true, {0}, NOW)])
  }

  /** Deleting an open slot of an idle daemon. */
  lemma DeleteOpenSlot(y: Sys, k: nat)
    requires Idling(y) && k < TOC_SLOT_COUNT && Classify(Slot(y.d, k)) == Open
    ensures IsRun(y, DeleteSteps(k))
    ensures var z := After(y, DeleteSteps(k));
            && SysInv(z) && NoHazard(z.f) && Header0(z.d) == Header0(y.d) && Classify(Slot(z.d, k)) == Deleted
  {
    hide Possible;
    hide Do;
    hide Slot;
    hide SysInv;
    var t0, t1, t2 := DeleteStart(k), DeleteRead(true), MetaDone(true, {0}, NOW);
    CanRequest(y, t0);
    var y1 := Do(y, t0);
    DeleteRequested(y, k);
    DoKeeps(y, t0);
    var y2 := Do(y1, t1);
    DeleteWritten(y1, k);
    DoKeeps(y1, t1);
    CanComplete(y2, true);
    DeleteLanded(y2, k);
    DoKeeps(y2, t2);
    RunCons(y2, t2, []);
    RunCons(y1, t1, [t2]);
    RunCons(y, t0, [t1, t2]);
  }

  lemma DeleteRequested(y: Sys, k: nat)
    requires Idling(y) && k < TOC_SLOT_COUNT && Possible(y, DeleteStart(k))
    ensures var y1 := Do(y, DeleteStart(k));
            && NoHazard(y1.f) && y1.d == y.d && y1.m.meta.None? && y1.m.delRead == Some(k)
            && Possible(y1, DeleteRead(true))
  {
    hide SysInv;
  }

  lemma DeleteWritten(y: Sys, k: nat)
    requires NoHazard(y.f) && y.m.meta.None? && y.m.delRead == Some(k)
    requires Possible(y, DeleteRead(true)) && Classify(Slot(y.d, k)) == Open
    ensures var y1 := Do(y, DeleteRead(true));
            && NoHazard(y1.f) && y1.d == y.d && y1.m.meta.Some? && y1.m.meta.value.cb.DeleteWrite?
            && y1.m.meta.value.block == TOC_START + k
  {
    hide MarkDeleted;
    hide DecodeEntry;
  }

  lemma DeleteLanded(y: Sys, k: nat)
    requires SysInv(y) && NoHazard(y.f) && Possible(y, MetaDone(true, {0}, NOW))
    requires y.m.meta.Some? && y.m.meta.value.cb.DeleteWrite? && y.m.meta.value.block == TOC_START + k
    ensures var y1 := Do(y, MetaDone(true, {0}, NOW));
            && NoHazard(y1.f) && k < TOC_SLOT_COUNT
            && Header0(y1.d) == Header0(y.d) && Classify(Slot(y1.d, k)) == Deleted
  {
    hide OnDisk;
    hide InRecording;
    hide DecodeVolume;
    hide MarkDeleted;
    DeleteDisk(y, {0});
    assert Do(y, MetaDone(true, {0}, NOW)).d[0] == y.d[0];
    assert Classify(Slot(y.d, k)) in {Open, Finalized};
    hide Slot;
    hide InFlightMeta;
  }

  /** The concrete run that breaks the documented invariant: claim a segment, lose
      the header write, delete the slot left open. */
  lemma TombstoneRun(y: Sys, port: u16)
    requires Idling(y) && port != 0 && Header0(y.d).nextSegmentId == y.m.nextSeg
    ensures IsRun(y, HalfClaim(port)) && IsRun(After(y, HalfClaim(port)), DeleteSteps(y.m.nextSeg))
    ensures !IdsBelowNext(After(After(y, HalfClaim(port)), DeleteSteps(y.m.nextSeg)).d)
  {
    hide SysInv;
    hide Slot;
    ClaimFailsHalfway(y, port);
    DeleteOpenSlot(After(y, HalfClaim(port)), y.m.nextSeg);
  }
}
