/** What a finalize that starts inside flush_buffer costs: the next segment
    overlaps the finalized one, without any crash. */
module StoreOverlap {
  import opened Bytes
  import opened Record
  import opened Device
  import opened Capture
  import opened CaptureInvariant
  import opened CaptureRuns
  import opened CaptureLimits
  import opened CaptureWitness
  import opened Store
  import opened StoreInvariant
  import opened StoreSteps
  import opened StoreTheorems
  import StoreLimits

  /** A recording whose full buffer has to be handed off, with nothing pending, and
      one more failure is the fifth. */
  ghost predicate OneFailureLeft(s: Cap, payload: seq<byte>) {
    && Shape(s) && s.recording && !s.stopping && s.finals == 0 && s.pending == 0
    && s.failures + 1 >= WRITE_FAILURE_THRESHOLD
    && !s.bufs[s.cur].inFlight && s.bufs[s.cur].used > 0 && RoomFor(s.cfg, s.next)
    && s.bufs[s.cur].used + RECORD_HDR + |payload| > s.cfg.bufSize
  }

  lemma EarlyFinalize(s: Cap, tsc: nat, payload: seq<byte>, rx: Rx, rest: seq<Rc>)
    requires OneFailureLeft(s, payload) && rx.flushRcs == [Rejected] + rest
    ensures var r := CaptureOurs(s, tsc, payload, rx).s;
            && Shape(r) && r.finals == 2 && r.hwm == s.next && r.next == s.next + s.cfg.bufBlocks
            && r.start == s.start && r.recording && r.cfg == s.cfg
  {
    hide FlushBuffer;
    hide StopRecording;
    hide Append;
    hide Grows;
    RefusedHandOffFinalizesIff(s, rest);
    FlushGrows(s, rx.flushRcs);
    var t := NextBuffer(FlushBuffer(s, rx.flushRcs));
    if !t.bufs[t.cur].inFlight && RECORD_HDR + |payload| <= t.cfg.bufSize {
      AppendAfterStop(t, tsc, payload, rx.stopRcs);
    }
    hide AppendAndCheckLimit;
  }

  lemma FlushGrows(s: Cap, rcs: seq<Rc>)
    requires Shape(s)
    ensures var r := FlushBuffer(s, rcs); r.start == s.start && r.recording == s.recording && r.cfg == s.cfg
  {
    hide FlushBuffer;
  }

  lemma AppendAfterStop(s: Cap, tsc: nat, payload: seq<byte>, rcs: seq<Rc>)
    requires Shape(s) && s.stopping && s.bufs[s.cur].used + RECORD_HDR + |payload| <= s.cfg.bufSize
    ensures var r := AppendAndCheckLimit(s, tsc, payload, rcs).s;
            && r.finals == s.finals && r.hwm == s.hwm && r.next == s.next && r.start == s.start
            && r.recording == s.recording && r.cfg == s.cfg && Shape(r)
  {
    hide Encode;
    hide Stored;
  }

  // ---- the daemon ----

  /** Such a moment of a sound daemon, and the packet that brings it about. */
  ghost predicate Overdue(y: Sys, rx: Rx, payload: seq<byte>, rest: seq<Rc>) {
    && SysInv(y) && AdminFree(y.m) && OneFailureLeft(y.m.cap, payload)
    && OursIn(y.m.cap.cfg, rx) == Some(payload) && rx.flushRcs == [Rejected] + rest
  }

  /** The daemon once the packet is dealt with: the finalize chain has started from
      a high-water mark one chunk short of next_write_block. */
  ghost predicate Short(y: Sys, y1: Sys) {
    var s, r := y.m.cap, y1.m.cap;
    && Shape(r) && r.hwm == s.next && r.next == s.next + s.cfg.bufBlocks && r.start == s.start && r.cfg == s.cfg
    && r.recording && RoomFor(s.cfg, s.next)
    && y1.d == y.d && y1.m.segId == y.m.segId && y1.m.nextSeg == y.m.nextSeg
    && y1.m.startSec == y.m.startSec && y1.m.startNsec == y.m.startNsec
    && y1.m.delRead.None? && y1.m.staged == y.m.staged && y1.m.cursor == y.m.cursor
  }

  lemma PacketIsPossible(y: Sys, tsc: u64, rx: Rx)
    requires SysInv(y) && y.m.cap.recording
    ensures Possible(y, Capture(Poll(tsc, [rx]))) && Shape(y.m.cap) && DiskOk(y.d, y.m.cap.cfg)
  {
    InvIsPossible(y);
    assert DiskOk(y.d, y.m.cap.cfg) by { DiskIsOk(y); }
    assert Body(y.m.cap);
    BodyShape(y.m.cap);
    hide SysInv;
    hide MemoryOk;
    hide Shape;
    hide Body;
  }

  lemma OneLeftParts(s: Cap, payload: seq<byte>)
    requires OneFailureLeft(s, payload)
    ensures Shape(s) && s.recording && !s.stopping && s.finals == 0 && RoomFor(s.cfg, s.next)
  {
  }

  lemma CaptureDoes(y: Sys, e: Event)
    requires Possible(y, Capture(e)) && !e.Complete?
    ensures var y' := Do(y, Capture(e));
            y'.d == y.d && y'.m == AfterCapture(y.m, Next(y.m.cap, e))
  {
    hide MemoryOk;
    hide Next;
    hide VolumeBlock;
    hide Shape;
    hide AfterCapture;
    NextGrows(y.m.cap, e);
  }

  lemma PacketStep(y: Sys, tsc: u64, rx: Rx, payload: seq<byte>, rest: seq<Rc>)
    requires Overdue(y, rx, payload, rest)
    ensures Possible(y, Capture(Poll(tsc, [rx])))
    ensures var y1 := Do(y, Capture(Poll(tsc, [rx])));
            Short(y, y1) && y1.m.meta.Some? && y1.m.meta == HeaderWrite(FinHeader, LiveVolume(y1.m), y.m.cap.cfg.bs)
  {
    assert OneFailureLeft(y.m.cap, payload);
    PacketIsPossible(y, tsc, rx);
    hide SysInv;
    hide MemoryOk;
    hide CaptureOurs;
    hide CapturePoll;
    hide VolumeBlock;
    hide Shape;
    hide OursIn;
    hide Possible;
    hide Do;
    hide OneFailureLeft;
    CaptureDoes(y, Poll(tsc, [rx]));
    OneLeftParts(y.m.cap, payload);
    PollOne(y.m.cap, tsc, rx, payload);
    EarlyFinalize(y.m.cap, tsc, payload, rx, rest);
  }

  /** The daemon's memory and disk are fit for the steps of the finalize chain. */
  ghost predicate Fit(y: Sys, bs: nat) {
    MemoryOk(y.m) && y.m.cap.cfg.bs == bs && Formed(y.d, bs) && DATA_START <= |y.d|
  }

  lemma ShortIsFit(y: Sys, y1: Sys)
    requires SysInv(y) && Short(y, y1) && y.m.cap.start <= y.m.cap.next
    requires y1.m.meta == HeaderWrite(FinHeader, LiveVolume(y1.m), y.m.cap.cfg.bs)
    ensures Fit(y1, y.m.cap.cfg.bs)
  {
    InvIsPossible(y);
    assert DiskOk(y.d, y.m.cap.cfg) by { DiskIsOk(y); }
    hide SysInv;
    hide VolumeBlock;
  }

  lemma HeaderStep(y: Sys, bs: nat, now: Clock)
    requires Fit(y, bs) && now.hz > 0 && y.m.cap.start <= y.m.cap.next
    requires y.m.meta == HeaderWrite(FinHeader, LiveVolume(y.m), bs)
    ensures Possible(y, MetaDone(true, {0}, now))
    ensures var y' := Do(y, MetaDone(true, {0}, now));
            Fit(y', bs) && y'.m == FinHeaderDone(y.m, now) && |y'.d| == |y.d|
  {
    hide VolumeBlock;
    hide EntryBlock;
    hide Applied;
    hide Allocated;
    SingleWrite(y.d, FinHeader, 0, y.m.meta.value.blocks[0], {0});
  }

  lemma EntryStep(y: Sys, bs: nat, e: Entry, now: Clock)
    requires Fit(y, bs) && now.hz > 0 && y.m.segId < TOC_SLOT_COUNT && FitsEntry(e)
    requires y.m.meta == EntryWrite(FinToc, y.m.segId, e, bs)
    ensures Possible(y, MetaDone(true, {0}, now))
    ensures var y' := Do(y, MetaDone(true, {0}, now));
            Fit(y', bs) && y'.m == FinTocDone(y.m) && |y'.d| == |y.d| && Slot(y'.d, y.m.segId) == e
  {
    hide EntryBlock;
    hide FitsEntry;
    hide Applied;
    hide Slot;
    SingleWrite(y.d, FinToc, TOC_START + y.m.segId, y.m.meta.value.blocks[0], {0});
    SlotUpdate(y.d, y.m.segId, e, bs);
  }

  lemma StartStep(y: Sys, bs: nat, port: u16, now: Clock)
    requires Fit(y, bs) && AdminFree(y.m) && !y.m.cap.recording && port != 0 && y.m.nextSeg < TOC_SLOT_COUNT
    ensures Possible(y, Start(port, None, now))
    ensures var y' := Do(y, Start(port, None, now));
            y'.d == y.d && y'.m.claiming && y'.m.cap.start == y.m.cap.hwm
  {
    hide EntryBlock;
  }

  lemma ShortEntryFits(y: Sys, y1: Sys, now: Clock)
    requires SysInv(y) && y.m.cap.recording && Short(y, y1) && y.m.cap.start <= y.m.cap.next
    ensures FitsEntry(FinalEntry(y1.m, now))
  {
    SegmentHasSlot(y);
    BlocksFit(y.m.cap.cfg);
    hide OnDisk;
    hide InRecording;
    hide InFlightMeta;
    hide FitsEntry;
    EntryFits(FinalEntry(y1.m, now));
  }

  function OverlapSteps(tsc: u64, rx: Rx, now: Clock, port: u16): seq<Step> {
    [Capture(Poll(tsc, [rx]))] + ([MetaDone(true, {0}, now)] + ([MetaDone(true, {0}, now)] + [Start(port, None, now)]))
  }

  /** From any such moment, whatever the device answers after the refusal: the
      finalized entry reaches a whole chunk past the high-water mark, and the next
      segment is placed at that mark, inside the finalized one. No crash is
      needed. */
  lemma NextSegmentOverlaps(y: Sys, tsc: u64, rx: Rx, payload: seq<byte>, rest: seq<Rc>, now: Clock, port: u16)
    requires Overdue(y, rx, payload, rest) && now.hz > 0 && port != 0 && y.m.nextSeg < TOC_SLOT_COUNT
    ensures IsRun(y, OverlapSteps(tsc, rx, now, port))
    ensures var z := After(y, OverlapSteps(tsc, rx, now, port));
            var e := Slot(z.d, y.m.segId);
            && Classify(e) == Finalized && z.m.claiming
            && e.startBlock <= z.m.cap.start && EndOf(e) == z.m.cap.start + y.m.cap.cfg.bufBlocks
            && y.m.cap.cfg.bufBlocks > 0
  {
    var t0, t1 := Capture(Poll(tsc, [rx])), MetaDone(true, {0}, now);
    RecordingPlace(y);
    PacketStep(y, tsc, rx, payload, rest);
    ChainOverlaps(y, Do(y, t0), now, port);
    hide Overdue;
    hide Possible;
    hide Do;
    hide Slot;
    hide Short;
    StoreLimits.RunCons(y, t0, [t1] + ([t1] + [Start(port, None, now)]));
  }

  function ChainSteps(now: Clock, port: u16): seq<Step> {
    [MetaDone(true, {0}, now)] + ([MetaDone(true, {0}, now)] + [Start(port, None, now)])
  }

  lemma FinalEntryFacts(m: Daemon, now: Clock)
    requires m.cap.start <= m.cap.next
    ensures var e := FinalEntry(m, now);
            Classify(e) == Finalized && e.startBlock == m.cap.start && EndOf(e) == m.cap.next
  {
  }

  lemma ChainRuns(y: Sys, bs: nat, now: Clock, port: u16)
    requires Fit(y, bs) && y.m.cap.cfg.bs == bs && y.m.cap.start <= y.m.cap.next && y.m.segId < TOC_SLOT_COUNT
    requires y.m.meta == HeaderWrite(FinHeader, LiveVolume(y.m), bs) && FitsEntry(FinalEntry(y.m, now))
    requires now.hz > 0 && port != 0 && y.m.delRead.None? && y.m.nextSeg < TOC_SLOT_COUNT
    ensures IsRun(y, ChainSteps(now, port))
    ensures var z := After(y, ChainSteps(now, port));
            Slot(z.d, y.m.segId) == FinalEntry(y.m, now) && z.m.claiming && z.m.cap.start == y.m.cap.hwm
  {
    hide Possible;
    hide Do;
    hide Slot;
    hide VolumeBlock;
    hide EntryBlock;
    hide FitsEntry;
    hide Fit;
    hide LiveVolume;
    hide FinalEntry;
    var t1, t3 := MetaDone(true, {0}, now), Start(port, None, now);
    HeaderStep(y, bs, now);
    var y2 := Do(y, t1);
    EntryStep(y2, bs, FinalEntry(y.m, now), now);
    var y3 := Do(y2, t1);
    StartStep(y3, bs, port, now);
    StoreLimits.RunCons(y3, t3, []);
    StoreLimits.RunCons(y2, t1, [t3]);
    StoreLimits.RunCons(y, t1, [t1] + [t3]);
  }

  lemma ChainOverlaps(y: Sys, y1: Sys, now: Clock, port: u16)
    requires SysInv(y) && y.m.cap.recording && Short(y, y1) && y.m.cap.start <= y.m.cap.next
    requires y1.m.meta == HeaderWrite(FinHeader, LiveVolume(y1.m), y.m.cap.cfg.bs)
    requires now.hz > 0 && port != 0 && y.m.nextSeg < TOC_SLOT_COUNT
    ensures IsRun(y1, ChainSteps(now, port))
    ensures var z := After(y1, ChainSteps(now, port));
            var e := Slot(z.d, y.m.segId);
            && Classify(e) == Finalized && z.m.claiming && e.startBlock <= z.m.cap.start == y.m.cap.next
            && EndOf(e) == y.m.cap.next + y.m.cap.cfg.bufBlocks
  {
    ShortIsFit(y, y1);
    ShortEntryFits(y, y1, now);
    SegmentHasSlot(y);
    hide SysInv;
    hide FitsEntry;
    hide Fit;
    hide Shape;
    hide LiveVolume;
    hide VolumeBlock;
    hide IsRun;
    hide After;
    hide Slot;
    FinalEntryFacts(y1.m, now);
    hide FinalEntry;
    ChainRuns(y1, y.m.cap.cfg.bs, now, port);
  }

  lemma RecordingPlace(y: Sys)
    requires SysInv(y) && y.m.cap.recording
    ensures y.m.cap.start <= y.m.cap.next && y.m.cap.cfg.bufBlocks > 0
  {
    assert PlaceOk(y.m.cap) && BufsOk(y.m.cap);
  }
}
