/** What each request and each completion does to the daemon's state, and what the
    block it writes says to whoever reads it. What is not named stays as it was. */
module StoreRequests {
  import opened Bytes
  import opened Record
  import opened Capture
  import opened CaptureInvariant
  import opened CaptureRuns
  import opened Tuning
  import opened Store
  import opened StoreInvariant
  import opened StoreSteps
  import opened StoreTheorems
  import opened StoreOperations

  // ---- blocks in flight, as a reader decodes them ----

  /** The write in flight puts entry `e` into slot `slot`. */
  ghost predicate WritesSlot(w: Option<Meta>, slot: nat, e: Entry) {
    && w.Some? && w.value.block == 1 + slot && |w.value.blocks| == 1
    && 112 <= |w.value.blocks[0]| && DecodeEntry(w.value.blocks[0]) == e
  }

  /** The write in flight puts volume header `v` into block 0. */
  ghost predicate WritesVolume(w: Option<Meta>, v: Volume) {
    && w.Some? && w.value.block == 0 && |w.value.blocks| == 1
    && 88 <= |w.value.blocks[0]| && DecodeVolume(w.value.blocks[0]) == v
  }

  /** A volume of this program: version 2, 4096 slots from block 1 on, data from block
      4097 on. */
  function OwnVolume(bs: nat, nextSegment: nat, nextData: nat, sec: nat): Volume {
    Volume(VOLUME_MAGIC, 2, bs, 4096, nextSegment, 1, 4097, nextData, sec)
  }

  lemma EntryInFlight(cb: Callback, slot: nat, e: Entry, bs: nat)
    requires 112 <= bs && FitsEntry(e)
    ensures WritesSlot(EntryWrite(cb, slot, e, bs), slot, e)
  {
    hide EncodeEntry;
    hide DecodeEntry;
    EntryRoundTrip(e, Zeros(bs - ENTRY_BYTES));
  }

  lemma VolumeInFlight(cb: Callback, v: Volume, bs: nat)
    requires 112 <= bs && FitsVolume(v)
    ensures WritesVolume(HeaderWrite(cb, v, bs), v)
  {
    hide EncodeVolume;
    hide DecodeVolume;
    VolumeRoundTrip(v, Zeros(bs - VOLUME_BYTES));
  }

  // ---- a start request ----

  /** An omitted option keeps its value: a port of 0 and a limit not given. */
  predicate Configured(c: Config, port: u16, limit: Option<u64>, c': Config) {
    && (if port == 0 then c'.port == c.port else c'.port == port)
    && (if limit.None? then c'.countLimit == c.countLimit else c'.countLimit == limit.value)
    && c'.bs == c.bs && c'.bufSize == c.bufSize && c'.bufBlocks == c.bufBlocks && c'.bufCount == c.bufCount
    && c'.numBlocks == c.numBlocks && c'.withSeq == c.withSeq
  }

  /** Every field of the capture state but the configuration and the start block. */
  predicate SameCapture(s: Cap, r: Cap) {
    r.(cfg := s.cfg, start := s.start) == s
  }

  /** Every field of the daemon but the capture state, the claim and the write. */
  predicate SameElse(m: Daemon, r: Daemon) {
    && r.unit == m.unit && r.nextSeg == m.nextSeg && r.initSec == m.initSec && r.currentSeg == m.currentSeg
    && r.delRead == m.delRead && r.staged == m.staged && r.cursor == m.cursor
  }

  predicate SameClaim(m: Daemon, r: Daemon) {
    && r.claiming == m.claiming && r.segId == m.segId && r.startSec == m.startSec && r.startNsec == m.startNsec
    && r.cap.start == m.cap.start && r.meta == m.meta
  }

  /** A start while recording changes nothing. Any other sets the options that were
      given and no more, and then claims a slot exactly if it knows a port and the
      table of contents is not full: the slot of the next id, from the high-water
      mark on, at the time of the request, with an open entry on its way that says
      so. */
  lemma StartRequest(y: Sys, port: u16, limit: Option<u64>, now: Clock)
    requires SysInv(y) && Possible(y, Start(port, limit, now))
    ensures var y' := Do(y, Start(port, limit, now));
            var m, m' := y.m, y'.m;
            var accepted := !m.cap.recording && m'.cap.cfg.port != 0 && m.nextSeg < 4096;
            && y'.d == y.d && y'.f == y.f
            && (if m.cap.recording then m' == m else Configured(m.cap.cfg, port, limit, m'.cap.cfg))
            && SameCapture(m.cap, m'.cap) && SameElse(m, m')
            && (!accepted ==> SameClaim(m, m'))
            && (accepted ==>
                  && m'.claiming && m'.segId == m.nextSeg && m'.cap.start == m.cap.hwm
                  && m'.startSec == now.sec && m'.startNsec == now.nsec
                  && m'.meta.Some? && m'.meta.value.cb == ClaimToc
                  && WritesSlot(m'.meta, m.nextSeg,
                                Entry(SEGMENT_MAGIC, m.nextSeg, 1, m.cap.hwm, 0, m.cap.cfg.bufSize,
                                      0, 0, 0, 0, 0, now.sec, now.nsec, 0, 0)))
  {
    hide OnDisk;
    hide InRecording;
    hide InFlightMeta;
    hide EntryBlock;
    hide DecodeEntry;
    hide FitsEntry;
    var m, m' := y.m, Do(y, Start(port, limit, now)).m;
    if !m.cap.recording && m'.cap.cfg.port != 0 && m.nextSeg < 4096 {
      StartFits(m, port, limit, now);
      EntryInFlight(ClaimToc, m.nextSeg, OpenEntry(m'), m.cap.cfg.bs);
    }
    hide SysInv;
    hide WritesSlot;
  }

  lemma StartFits(m: Daemon, port: u16, limit: Option<u64>, now: Clock)
    requires InMemory(m) && ENTRY_BYTES <= m.cap.cfg.bs && m.nextSeg < 4096
    ensures FitsEntry(OpenEntry(RecordingStart(m, port, limit, now))) || m.cap.recording
         || RecordingStart(m, port, limit, now).cap.cfg.port == 0
  {
    hide EntryBlock;
    hide FitsEntry;
    BlocksFit(m.cap.cfg);
    var r := RecordingStart(m, port, limit, now);
    if !m.cap.recording && r.cap.cfg.port != 0 {
      EntryFits(OpenEntry(r));
    }
  }

  // ---- the completions of a claim ----

  /** A claim's entry write: failed, it ends the claim; completed, it raises
      next_segment_id, and a header that says so is on its way. */
  lemma ClaimEntryCompletes(y: Sys, ok: bool, mask: set<nat>, now: Clock)
    requires SysInv(y) && Possible(y, MetaDone(ok, mask, now)) && y.m.meta.value.cb.ClaimToc?
    ensures var m, m' := y.m, Do(y, MetaDone(ok, mask, now)).m;
            && m'.cap == m.cap && m'.(meta := m.meta, nextSeg := m.nextSeg, claiming := m.claiming) == m
            && m'.claiming == ok && m'.nextSeg == (if ok then m.nextSeg + 1 else m.nextSeg)
            && (if !ok then m'.meta.None?
                else && m'.meta.Some? && m'.meta.value.cb == ClaimHeader
                     && WritesVolume(m'.meta, OwnVolume(m.cap.cfg.bs, m.nextSeg + 1, m.cap.hwm, m.initSec)))
  {
    hide OnDisk;
    hide InRecording;
    hide EntryBlock;
    hide VolumeBlock;
    hide DecodeVolume;
    hide FitsVolume;
    hide Applied;
    assert y.m.claiming && y.m.nextSeg < 4096;
    if ok {
      var v := LiveVolume(y.m.(nextSeg := y.m.nextSeg + 1));
      LiveVolumeFits(y.m.(nextSeg := y.m.nextSeg + 1));
      VolumeInFlight(ClaimHeader, v, y.m.cap.cfg.bs);
    }
    hide SysInv;
    hide WritesVolume;
  }

  /** A recording that has just begun. */
  ghost predicate JustBegun(s: Cap, r: Cap) {
    && r.recording && !r.stopping && r.failures == 0 && r.finals == 0 && r.h == NO_HISTORY
    && r.recordCount == 0 && r.dropped == 0 && r.firstTsc == 0 && r.lastTsc == 0 && r.reason == StopNone
    && r.cur == 0 && r.next == s.start
    && r.cfg == s.cfg && r.start == s.start && r.pending == s.pending && r.hwm == s.hwm
    && r.out == s.out && r.waiter == s.waiter
    && |r.bufs| == |s.bufs| == 32
    && forall i :: 0 <= i < 32 ==>
         r.bufs[i].used == 0 && !r.bufs[i].inFlight && r.bufs[i].recs == [] && r.bufs[i].data == s.bufs[i].data
         && r.bufs[i].target == s.bufs[i].target && r.bufs[i].chunk == s.bufs[i].chunk
  }

  /** A claim's header write: failed, it ends the claim; completed, the recording
      begins, with every count zero and every buffer empty. */
  lemma ClaimHeaderCompletes(y: Sys, ok: bool, mask: set<nat>, now: Clock)
    requires Possible(y, MetaDone(ok, mask, now)) && y.m.meta.value.cb.ClaimHeader?
    ensures var m, m' := y.m, Do(y, MetaDone(ok, mask, now)).m;
            && !m'.claiming && m'.meta.None?
            && m'.(cap := m.cap, claiming := m.claiming, meta := m.meta, currentSeg := m.currentSeg) == m
            && (if ok then JustBegun(m.cap, m'.cap) && m'.currentSeg == Some(m.segId)
                else m'.cap == m.cap && m'.currentSeg == m.currentSeg)
  {
    hide Shape;
    hide Applied;
  }

  // ---- finalize ----

  /** A capture event touches nothing outside the capture state, except that the one
      that finalizes puts a header on its way whose high-water mark lies behind the
      segment's last chunk. */
  lemma FinalizeStarts(y: Sys, e: Event)
    requires SysInv(y) && Possible(y, Capture(e)) && NoHazard(Do(y, Capture(e)).f)
    ensures var m, m' := y.m, Do(y, Capture(e)).m;
            && m'.(cap := m.cap, meta := m.meta) == m
            && (m'.cap.finals <= m.cap.finals ==> m'.meta == m.meta)
            && (m'.cap.finals > m.cap.finals ==>
                  && m'.cap.stopping && m'.cap.pending == 0
                  && m'.meta.Some? && m'.meta.value.cb == FinHeader
                  && WritesVolume(m'.meta, OwnVolume(m.cap.cfg.bs, m.nextSeg, m'.cap.next, m.initSec)))
  {
    FinalizeParts(y, e);
    CaptureKeeps(y, e);
    var m' := Do(y, Capture(e)).m;
    if m'.cap.finals > y.m.cap.finals {
      FinalizeFacts(Do(y, Capture(e)));
      LiveVolumeFits(m');
      VolumeInFlight(FinHeader, LiveVolume(m'), m'.cap.cfg.bs);
    }
    hide SysInv;
    hide Possible;
    hide Do;
    hide NoHazard;
    hide WritesVolume;
    hide HeaderWrite;
  }

  lemma FinalizeFacts(y: Sys)
    requires SysInv(y) && y.m.cap.recording && y.m.cap.finals >= 1
    ensures y.m.cap.stopping && y.m.cap.pending == 0 && y.m.cap.hwm == y.m.cap.next
    ensures ENTRY_BYTES <= y.m.cap.cfg.bs && InMemory(y.m)
  {
    hide OnDisk;
    hide InFlightMeta;
    assert Inv(y.m.cap);
    hide Body;
    DrainedFacts(y.m.cap);
  }

  lemma FinalizeParts(y: Sys, e: Event)
    requires Possible(y, Capture(e))
    ensures var m, m' := y.m, Do(y, Capture(e)).m;
            && m'.(cap := m.cap, meta := m.meta) == m && m'.cap.cfg == m.cap.cfg && m'.cap.recording
            && ENTRY_BYTES <= m'.cap.cfg.bs
            && m'.meta == if m'.cap.finals > m.cap.finals
                          then HeaderWrite(FinHeader, LiveVolume(m'), m'.cap.cfg.bs) else m.meta
  {
    hide MemoryOk;
    hide Next;
    hide VolumeBlock;
    hide DiskAfter;
    NextGrows(y.m.cap, e);
    hide Shape;
    hide Enabled;
    assert ENTRY_BYTES <= y.m.cap.cfg.bs by { assert MemoryOk(y.m); SizedMemory(y.m); }
  }

  lemma SizedMemory(m: Daemon)
    requires MemoryOk(m)
    ensures ENTRY_BYTES <= m.cap.cfg.bs
  {
  }

  /** Whatever is reported of a finalize's header write, the segment's entry is
      rebuilt and goes out next: its id, state 2, its place and length, its chunk
      size, its counts and time stamps, the tsc rate and the time of this moment as
      its end, the time of its claim as its start. */
  lemma FinalEntryGoesOut(y: Sys, ok: bool, mask: set<nat>, now: Clock)
    requires SysInv(y) && Possible(y, MetaDone(ok, mask, now)) && y.m.meta.value.cb.FinHeader?
    ensures var m, m' := y.m, Do(y, MetaDone(ok, mask, now)).m;
            && m'.(meta := m.meta) == m && m'.meta.Some? && m'.meta.value.cb == FinToc
            && m.cap.start <= m.cap.next
            && WritesSlot(m'.meta, m.segId,
                          Entry(SEGMENT_MAGIC, m.segId, 2, m.cap.start, m.cap.next - m.cap.start, m.cap.cfg.bufSize,
                                m.cap.recordCount, m.cap.dropped % 0x1_0000_0000_0000_0000,
                                m.cap.firstTsc, m.cap.lastTsc, now.hz,
                                m.startSec, m.startNsec, now.sec, now.nsec))
  {
    hide SysInv;
    hide InMemory;
    hide MemoryOk;
    hide EntryBlock;
    hide DecodeEntry;
    hide FitsEntry;
    hide Applied;
    hide WritesSlot;
    FinalFacts(y);
    FinalEntryFits(y.m, now);
    EntryInFlight(FinToc, y.m.segId, FinalEntry(y.m, now), y.m.cap.cfg.bs);
  }

  lemma FinalFacts(y: Sys)
    requires SysInv(y) && y.m.meta.Some? && y.m.meta.value.cb.FinHeader?
    ensures InMemory(y.m) && y.m.segId < TOC_SLOT_COUNT && ENTRY_BYTES <= y.m.cap.cfg.bs
    ensures y.m.cap.start <= y.m.cap.next <= y.m.cap.cfg.numBlocks
    ensures U64(y.m.cap.recordCount) == y.m.cap.recordCount
    ensures U64(y.m.cap.firstTsc) == y.m.cap.firstTsc && U64(y.m.cap.lastTsc) == y.m.cap.lastTsc
  {
    SegmentHasSlot(y);
    FinalPlace(y);
    CountsFit(y.m.cap);
    hide SysInv;
    hide Inv;
  }

  lemma FinalPlace(y: Sys)
    requires SysInv(y) && y.m.meta.Some? && y.m.meta.value.cb.FinHeader?
    ensures InMemory(y.m) && ENTRY_BYTES <= y.m.cap.cfg.bs && Inv(y.m.cap)
    ensures y.m.cap.start <= y.m.cap.next <= y.m.cap.cfg.numBlocks
  {
    hide OnDisk;
    hide VolumeBlock;
    hide Body;
    DrainedFacts(y.m.cap);
  }

  lemma CountsFit(s: Cap)
    requires Inv(s)
    ensures U64(s.recordCount) == s.recordCount
    ensures U64(s.firstTsc) == s.firstTsc && U64(s.lastTsc) == s.lastTsc
  {
    hide Inv;
    hide U64;
    CountsBelow(s);
    U64Small(s.recordCount);
    U64Small(s.firstTsc);
    U64Small(s.lastTsc);
  }

  lemma CountsBelow(s: Cap)
    requires Inv(s)
    ensures s.recordCount < DEVICE_BYTES_MAX && s.firstTsc < DEVICE_BYTES_MAX && s.lastTsc < DEVICE_BYTES_MAX
  {
    hide LogOk;
    hide BufsOk;
    hide BoundOk;
    hide PlaceOk;
    hide PlacedOk;
    hide OutOk;
    hide WaiterOk;
    hide FlightOk;
    RecordsFit64(s);
  }

  /** Whatever is reported of that entry's write, the recording is over. The counts
      stay for display. */
  lemma FinalEntryCompletes(y: Sys, ok: bool, mask: set<nat>, now: Clock)
    requires Possible(y, MetaDone(ok, mask, now)) && y.m.meta.value.cb.FinToc?
    ensures var m, m' := y.m, Do(y, MetaDone(ok, mask, now)).m;
            && !m'.cap.recording && m'.currentSeg.None? && m'.meta.None?
            && m'.cap.(recording := m.cap.recording) == m.cap
            && m'.(cap := m.cap, currentSeg := m.currentSeg, meta := m.meta) == m
  {
    hide Applied;
    hide Shape;
  }

  // ---- a segment's entry, from its start to its end ----

  /** From the claim to the end of the finalize the segment stays the one claimed. */
  lemma BusyKeepsClaim(y: Sys, t: Step)
    requires SysInv(y) && Possible(y, t) && TuningBusy(y.m) && !t.Crash?
    ensures var m, m' := y.m, Do(y, t).m;
            && m'.segId == m.segId && m'.startSec == m.startSec && m'.startNsec == m.startNsec
            && m'.cap.start == m.cap.start
  {
    hide OnDisk;
    hide InRecording;
    hide DecodeVolume;
    hide VolumeBlock;
    hide EntryBlock;
    hide RoundWriteChunk;
    hide MarkDeleted;
    hide Slot;
    match t {
      case Capture(e) =>
        hide Next;
        NextGrows(y.m.cap, e);
      case _ =>
    }
  }

  lemma {:induction false} BusyRunKeepsClaim(y: Sys, ts: seq<Step>)
    requires SysInv(y) && BusyThroughout(y, ts)
    ensures var m, r := y.m, Through(y, ts).m;
            && SysInv(Through(y, ts)) && r.segId == m.segId && r.startSec == m.startSec && r.startNsec == m.startNsec
            && r.cap.start == m.cap.start
    decreases |ts|
  {
    hide SysInv;
    hide Possible;
    hide Do;
    hide NoHazard;
    hide TuningBusy;
    if ts != [] {
      BusyKeepsClaim(y, ts[0]);
      DoKeeps(y, ts[0]);
      BusyRunKeepsClaim(Do(y, ts[0]), ts[1..]);
    }
  }

  /** While the final entry is in flight nothing replaces it. */
  lemma FinalWriteStays(y: Sys, t: Step)
    requires SysInv(y) && Possible(y, t) && NoHazard(Do(y, t).f) && !t.Crash? && !t.MetaDone?
    requires y.m.meta.Some? && y.m.meta.value.cb.FinToc?
    ensures Do(y, t).m.meta == y.m.meta
  {
    hide OnDisk;
    hide InRecording;
    hide DecodeVolume;
    hide VolumeBlock;
    hide EntryBlock;
    hide RoundWriteChunk;
    hide MarkDeleted;
    hide Slot;
    match t {
      case Capture(e) =>
        hide Next;
        hide MemoryOk;
        hide SysInv;
      case _ =>
    }
  }

  lemma {:induction false} FinalWriteWaits(y: Sys, ts: seq<Step>)
    requires SysInv(y) && BusyThroughout(y, ts) && forall k :: 0 <= k < |ts| ==> !ts[k].MetaDone?
    requires y.m.meta.Some? && y.m.meta.value.cb.FinToc?
    ensures Through(y, ts).m.meta == y.m.meta
    decreases |ts|
  {
    hide SysInv;
    hide Possible;
    hide Do;
    hide NoHazard;
    hide TuningBusy;
    if ts != [] {
      FinalWriteStays(y, ts[0]);
      DoKeeps(y, ts[0]);
      assert forall k :: 0 <= k < |ts[1..]| ==> ts[1..][k] == ts[k + 1];
      FinalWriteWaits(Do(y, ts[0]), ts[1..]);
    }
  }

  lemma WrittenSlot(y: Sys, mask: set<nat>, e: Entry)
    requires SysInv(y) && y.m.meta.Some? && y.m.meta.value.cb.FinToc? && 0 in mask
    requires WritesSlot(y.m.meta, y.m.segId, e)
    ensures Slot(Landing(y, mask).d, y.m.segId) == e
  {
    assert DiskOk(y.d, y.m.cap.cfg) by { DiskIsOk(y); }
    SegmentHasSlot(y);
    hide SysInv;
    hide DecodeEntry;
    SingleWrite(y.d, FinToc, TOC_START + y.m.segId, y.m.meta.value.blocks[0], mask);
  }

  /** An idle daemon accepts a start request at `began`; during `ts` the segment is
      claimed, recorded or finalized. */
  ghost predicate RecordedFrom(y: Sys, port: u16, limit: Option<u64>, began: Clock, ts: seq<Step>) {
    && SysInv(y) && Possible(y, Start(port, limit, began)) && NoHazard(Do(y, Start(port, limit, began)).f)
    && !y.m.claiming && !y.m.cap.recording && Do(y, Start(port, limit, began)).m.claiming
    && BusyThroughout(Do(y, Start(port, limit, began)), ts)
  }

  /** The finalize's header write completes at `ended`; during `us` the entry's write
      has not completed. */
  ghost predicate FinalizedFrom(z: Sys, ok: bool, mask: set<nat>, ended: Clock, us: seq<Step>) {
    && z.m.meta.Some? && z.m.meta.value.cb.FinHeader? && Possible(z, MetaDone(ok, mask, ended))
    && NoHazard(Do(z, MetaDone(ok, mask, ended)).f)
    && BusyThroughout(Do(z, MetaDone(ok, mask, ended)), us)
    && forall k :: 0 <= k < |us| ==> !us[k].MetaDone?
  }

  /** A whole recording, from the request to the moment when the final entry lands: in
      the slot that was claimed, the start clock is the time of the request, the end
      clock and the tsc rate are those of the finalize. */
  lemma EntryTellsTheTime(y: Sys, port: u16, limit: Option<u64>, began: Clock, ts: seq<Step>,
                          ok: bool, mask: set<nat>, ended: Clock, us: seq<Step>, landed: set<nat>)
    requires RecordedFrom(y, port, limit, began, ts)
    requires FinalizedFrom(Through(Do(y, Start(port, limit, began)), ts), ok, mask, ended, us) && 0 in landed
    ensures var z := Through(Do(y, Start(port, limit, began)), ts);
            var w := Through(Do(z, MetaDone(ok, mask, ended)), us);
            && w.m.meta.Some?
            && var e := Slot(Landing(w, landed).d, y.m.nextSeg);
            && e.magic == SEGMENT_MAGIC && e.segmentId == y.m.nextSeg && e.state == 2 && e.startBlock == y.m.cap.hwm
            && e.startSec == began.sec && e.startNsec == began.nsec
            && e.endSec == ended.sec && e.endNsec == ended.nsec && e.tscHz == ended.hz
  {
    var t := Start(port, limit, began);
    var y1 := Do(y, t);
    StartRequest(y, port, limit, began);
    DoKeeps(y, t);
    hide SysInv;
    hide Possible;
    hide Do;
    hide NoHazard;
    hide WritesSlot;
    hide Slot;
    hide Landing;
    hide TuningBusy;
    BusyRunKeepsClaim(y1, ts);
    FinalizeTellsTheTime(Through(y1, ts), ok, mask, ended, us, landed);
  }

  lemma FinalizeTellsTheTime(z: Sys, ok: bool, mask: set<nat>, ended: Clock, us: seq<Step>, landed: set<nat>)
    requires SysInv(z) && FinalizedFrom(z, ok, mask, ended, us) && 0 in landed
    ensures var w := Through(Do(z, MetaDone(ok, mask, ended)), us);
            && w.m.meta.Some?
            && var e := Slot(Landing(w, landed).d, z.m.segId);
            && e.magic == SEGMENT_MAGIC && e.segmentId == z.m.segId && e.state == 2 && e.startBlock == z.m.cap.start
            && e.startSec == z.m.startSec && e.startNsec == z.m.startNsec
            && e.endSec == ended.sec && e.endNsec == ended.nsec && e.tscHz == ended.hz
  {
    var t := MetaDone(ok, mask, ended);
    FinalEntryGoesOut(z, ok, mask, ended);
    DoKeeps(z, t);
    hide SysInv;
    hide Possible;
    hide Do;
    hide NoHazard;
    hide WritesSlot;
    hide Slot;
    hide Landing;
    hide TuningBusy;
    var z1 := Do(z, t);
    FinalWriteWaits(z1, us);
    BusyRunKeepsClaim(z1, us);
    var e := Entry(SEGMENT_MAGIC, z.m.segId, 2, z.m.cap.start, z.m.cap.next - z.m.cap.start, z.m.cap.cfg.bufSize,
                   z.m.cap.recordCount, z.m.cap.dropped % 0x1_0000_0000_0000_0000,
                   z.m.cap.firstTsc, z.m.cap.lastTsc, ended.hz,
                   z.m.startSec, z.m.startNsec, ended.sec, ended.nsec);
    WrittenSlot(Through(z1, us), landed, e);
  }

  /** A stop with no segment open changes nothing. */
  lemma IdleStopRequest(y: Sys)
    requires Possible(y, StopIdle)
    ensures Do(y, StopIdle) == y && !y.m.cap.recording
  {
    hide MemoryOk;
  }

  // ---- quick format ----

  /** A format is refused while recording. Otherwise a fresh volume is staged, and the
      zeroing of the table of contents begins at block 1; nothing else changes yet. */
  lemma FormatRequest(y: Sys, sec: u64)
    requires SysInv(y) && Possible(y, FormatStart(sec))
    ensures var m, m' := y.m, Do(y, FormatStart(sec)).m;
            && Do(y, FormatStart(sec)).d == y.d
            && (m.cap.recording ==> m' == m)
            && (!m.cap.recording ==>
                  && m'.staged == OwnVolume(m.cap.cfg.bs, 0, 4097, sec) && m'.cursor == 1
                  && m'.(staged := m.staged, cursor := m.cursor, meta := m.meta) == m
                  && m'.meta.Some? && m'.meta.value.cb == FmtZero && m'.meta.value.block == 1
                  && |m'.meta.value.blocks| == Min(4096, m.cap.cfg.bufBlocks)
                  && forall i :: 0 <= i < |m'.meta.value.blocks| ==> m'.meta.value.blocks[i] == Zeros(m.cap.cfg.bs))
  {
    hide OnDisk;
    hide InRecording;
    hide InFlightMeta;
    hide Zeros;
    hide VolumeBlock;
  }

  /** A format that fails ends where it is and leaves the daemon as it was. One that
      succeeds leaves a fresh volume with its counts reset; no other field changes. */
  lemma FormatEnds(y: Sys, ok: bool, mask: set<nat>, now: Clock)
    requires SysInv(y) && Possible(y, MetaDone(ok, mask, now)) && Formatting(y.m)
    ensures var m, m' := y.m, Do(y, MetaDone(ok, mask, now)).m;
            && (!ok ==> m' == m.(meta := None))
            && (ok && m.meta.value.cb.FmtZero? ==> m'.(cursor := m.cursor, meta := m.meta) == m && Formatting(m'))
            && (ok && m.meta.value.cb.FmtHeader? ==>
                  && m'.meta.None? && m'.nextSeg == 0 && m'.initSec == m.staged.initSec
                  && m'.cap.hwm == 4097 && m'.cap.next == 4097 && m'.cap.recordCount == 0 && m'.cap.dropped == 0
                  && m'.cap.firstTsc == 0 && m'.cap.lastTsc == 0
                  && m'.(cap := m.cap, nextSeg := m.nextSeg, initSec := m.initSec, meta := m.meta) == m
                  && m'.cap.(hwm := m.cap.hwm, next := m.cap.next, recordCount := m.cap.recordCount,
                             dropped := m.cap.dropped, firstTsc := m.cap.firstTsc, lastTsc := m.cap.lastTsc) == m.cap)
  {
    hide OnDisk;
    hide InRecording;
    hide Zeros;
    hide VolumeBlock;
    hide Applied;
    hide Shape;
    assert y.m.staged.dataStartBlock == 4097;
  }

  // ---- delete ----

  /** A delete of the segment being recorded is refused; any other reads the slot's
      entry first. */
  lemma DeleteRequest(y: Sys, slot: nat)
    requires Possible(y, DeleteStart(slot))
    ensures Do(y, DeleteStart(slot))
         == if y.m.cap.recording && y.m.currentSeg == Some(slot) then y
            else y.(m := y.m.(delRead := Some(slot)))
  {
    hide MemoryOk;
  }

  /** Then a failed read, a free slot and a segment already deleted end it with nothing
      written; an open or finalized one goes out again with state 3, every other field
      and every other byte of the block as it was read. */
  lemma DeleteReads(y: Sys, ok: bool)
    requires SysInv(y) && Possible(y, DeleteRead(ok))
    ensures var slot := y.m.delRead.value;
            var m, m' := y.m, Do(y, DeleteRead(ok)).m;
            && Do(y, DeleteRead(ok)).d == y.d && 1 + slot < |y.d| && 112 <= |y.d[1 + slot]|
            && m'.delRead.None? && m'.(delRead := m.delRead, meta := m.meta) == m
            && var e := DecodeEntry(y.d[1 + slot]);
               if !ok || e.magic != SEGMENT_MAGIC || e.state == 0 || e.state == 3 then m'.meta == m.meta
               else && m'.meta.Some? && m'.meta.value.cb == DeleteWrite
                    && WritesSlot(m'.meta, slot, e.(state := 3))
                    && |m'.meta.value.blocks[0]| == |y.d[1 + slot]|
                    && m'.meta.value.blocks[0][..12] == y.d[1 + slot][..12]
                    && m'.meta.value.blocks[0][16..] == y.d[1 + slot][16..]
  {
    hide SysInv;
    hide MemoryOk;
    hide DecodeEntry;
    hide MarkDeleted;
    SlotIsReadable(y, y.m.delRead.value);
    var slot := y.m.delRead.value;
    MarkDeletedDecodes(y.d[1 + slot]);
    MarkDeletedParts(y.d[1 + slot]);
  }

  lemma SlotIsReadable(y: Sys, slot: nat)
    requires SysInv(y) && slot < TOC_SLOT_COUNT
    ensures 1 + slot < |y.d| && 112 <= |y.d[1 + slot]|
  {
    DiskIsOk(y);
    hide SysInv;
  }

  // ---- settings ----

  /** The number of buffers is refused while a segment is claimed or recorded and
      outside 1 to 32; otherwise it is the one setting that changes. */
  lemma BuffersRequest(y: Sys, count: nat)
    requires Possible(y, SetBuffers(count))
    ensures var y' := Do(y, SetBuffers(count));
            if y.m.cap.recording || y.m.claiming || count < 1 || count > 32 then y' == y
            else && y'.m.cap.cfg.bufCount == count
                 && y'.(m := y'.m.(cap := y'.m.cap.(cfg := y'.m.cap.cfg.(bufCount := y.m.cap.cfg.bufCount)))) == y
  {
    hide MemoryOk;
  }

  /** So is the packet format. */
  lemma WireSeqRequest(y: Sys, on: bool)
    requires Possible(y, SetWireSeq(on))
    ensures var y' := Do(y, SetWireSeq(on));
            if y.m.cap.recording || y.m.claiming then y' == y
            else && y'.m.cap.cfg.withSeq == on
                 && y'.(m := y'.m.(cap := y'.m.cap.(cfg := y'.m.cap.cfg.(withSeq := y.m.cap.cfg.withSeq)))) == y
  {
    hide MemoryOk;
  }

  /** And the chunk size, outside 4096 bytes to 2 MiB; it becomes the least number of
      whole write units that holds the bytes asked for, in bytes and in blocks. */
  lemma ChunkRequest(y: Sys, bytes: nat, other: nat)
    requires SysInv(y) && Possible(y, SetChunk(bytes))
    ensures var y' := Do(y, SetChunk(bytes));
            var c, c' := y.m.cap.cfg, y'.m.cap.cfg;
            if y.m.cap.recording || y.m.claiming || bytes < 4096 || bytes > 2097152 then y' == y
            else && IsMultiple(c'.bufSize, y.m.unit) && bytes <= c'.bufSize
                 && (IsMultiple(other, y.m.unit) && bytes <= other ==> c'.bufSize <= other)
                 && c'.bufBlocks * c.bs == c'.bufSize
                 && y'.(m := y'.m.(cap := y'.m.cap.(cfg := c'.(bufSize := c.bufSize, bufBlocks := c.bufBlocks)))) == y
  {
    assert ConfigOk(y.m.cap.cfg) by { SysConfig(y); }
    hide SysInv;
    hide RoundWriteChunk;
    hide MemoryOk;
    RoundIsLeast(y.m.unit, bytes, other);
    WithChunkKeepsConfig(y.m.cap.cfg, y.m.unit, bytes);
    hide IsMultiple;
  }

  // ---- a restart ----

  /** A crash keeps of the memory only the buffers and the write unit: what else the
      new daemon knows is its command line and block 0, and it does nothing yet. */
  lemma Restarts(y: Sys, mask: set<nat>, restart: Config)
    requires Possible(y, Crash(mask, restart))
    ensures var y' := Do(y, Crash(mask, restart));
            var m, m' := y.m, y'.m;
            && |y'.d| == |y.d| && |y'.d[0]| >= 88
            && m'.nextSeg == DecodeVolume(y'.d[0]).nextSegmentId
            && m'.cap.hwm == DecodeVolume(y'.d[0]).nextDataBlock
            && m'.initSec == DecodeVolume(y'.d[0]).initSec
            && m'.cap.cfg == restart && m'.unit == m.unit && m'.cap.bufs == m.cap.bufs
            && !m'.cap.recording && !m'.cap.stopping && !m'.claiming && m'.currentSeg.None?
            && m'.meta.None? && m'.delRead.None?
            && m'.cap.pending == 0 && m'.cap.out == multiset{} && m'.cap.waiter.None?
            && m'.cap.failures == 0 && m'.cap.recordCount == 0 && m'.cap.dropped == 0 && m'.cap.reason == StopNone
  {
    hide DecodeVolume;
    hide Applied;
    DiskStaysFormed(y.d, y.m, mask);
  }

  // ---- when a run meets a hazard ----

  /** A step meets a hazard exactly if: a capture event leaves one of the write path's
      three, or finalizes while an admin request is at work; a delete reads while a
      write is in flight; or the daemon crashes while the header lags. */
  lemma HazardIff(y: Sys, t: Step)
    requires Possible(y, t)
    ensures NoHazard(Do(y, t).f) <==>
              && NoHazard(y.f)
              && (match t
                  case Capture(e) =>
                    var s := Next(y.m.cap, e);
                    && !s.h.rejected && !s.h.clashed && !s.h.retargeted
                    && (s.finals > y.m.cap.finals ==> y.m.meta.None? && y.m.delRead.None?)
                  case DeleteRead(_) => y.m.meta.None?
                  case Crash(_, _) => !y.f.lag
                  case _ => true)
  {
    hide Next;
    hide MemoryOk;
    hide VolumeBlock;
    hide DecodeEntry;
    hide Applied;
    hide DiskAfter;
    hide Reload;
    hide Completed;
    hide RecordingStart;
    hide QuickFormat;
    hide WithChunk;
  }

  /** The header lags from the completion of a finalize's header write that has not
      reached the device to the next header write that does. */
  lemma LagIff(y: Sys, t: Step)
    requires Possible(y, t)
    ensures Do(y, t).f.lag <==>
              match t
              case MetaDone(_, mask, _) =>
                var cb := y.m.meta.value.cb;
                if cb.FinHeader? then 0 !in mask
                else y.f.lag && !((cb.ClaimHeader? || cb.FmtHeader?) && 0 in mask)
              case Crash(_, _) => false
              case _ => y.f.lag
  {
    hide Next;
    hide MemoryOk;
    hide VolumeBlock;
    hide DecodeEntry;
    hide Applied;
    hide DiskAfter;
    hide Reload;
    hide Completed;
    hide RecordingStart;
    hide QuickFormat;
    hide WithChunk;
  }
}
