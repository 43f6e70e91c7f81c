/** The round trip is about something: from any idle daemon with a free slot and
    room for one chunk, and so from a freshly formatted device, one packet for
    the capture port can be recorded, finalized without loss, and so read back. */
module StoreReachability {
  import opened Bytes
  import opened Record
  import opened Device
  import opened Capture
  import opened CaptureInvariant
  import opened CaptureRuns
  import opened CaptureLimits
  import opened SegmentData
  import opened Store
  import opened StoreInvariant
  import opened StoreSteps
  import opened StoreTheorems
  import opened StoreLimits

  // ---- the capture path alone ----

  /** A segment that holds one record in its current buffer. */
  ghost predicate OneRecord(s: Cap, rec: Record) {
    && Shape(s) && s.recording && !s.stopping && s.pending == 0 && s.finals == 0
    && s.out == multiset{} && s.waiter.None? && s.bufs[s.cur].used > 0
    && s.h == NO_HISTORY.(log := [rec]) && RoomFor(s.cfg, s.next)
  }

  lemma FirstPacket(s: Cap, tsc: u64, rx: Rx, payload: seq<byte>)
    requires Allocated(s) && s.pending == 0 && s.out == multiset{} && s.waiter.None?
    requires OursIn(s.cfg, rx) == Some(payload) && s.cfg.countLimit == 0
    requires RECORD_HDR + |payload| <= s.cfg.bufSize && RoomFor(s.cfg, s.start)
    ensures var r := CapturePoll(BeginSegment(s), tsc, [rx]);
            OneRecord(r, Record(0, tsc, payload)) && r.start == s.start
  {
    hide Stored;
    hide Encode;
    hide Keeps;
    var b := BeginSegment(s);
    FirstFrame(b, tsc, rx, payload);
    var p := CaptureFrame(b, tsc, rx);
    assert [rx][1..] == [];
    assert CapturePoll(p.s, tsc, []) == p.s;
  }

  lemma FirstFrame(b: Cap, tsc: u64, rx: Rx, payload: seq<byte>)
    requires Shape(b) && b.recording && !b.stopping && b.bufs[b.cur].used == 0 && !b.bufs[b.cur].inFlight
    requires OursIn(b.cfg, rx) == Some(payload) && b.cfg.countLimit == 0
    requires RECORD_HDR + |payload| <= b.cfg.bufSize
    ensures CaptureFrame(b, tsc, rx) == PollStep(Append(b, tsc, payload), false)
  {
    hide Append;
    hide OursIn;
  }

  /** Stopped, with the one write that will drain the segment outstanding. */
  ghost predicate Draining(t: Cap, rec: Record, io: Io) {
    && Shape(t) && io in t.out && io.buf < MAX_WRITE_BUFFERS && t.finals == 0 && !Hazard(t.h) && t.recording
    && var r := WriteComplete(t, io, true, []);
       r.finals == 1 && !Hazard(r.h) && r.h.log == [rec] && Lossless(r.h) && r.recording
  }

  /** Stopping hands the buffer off; its completion drains the segment. */
  lemma StopAndComplete(s: Cap, rec: Record)
    requires OneRecord(s, rec) && Inv(s)
    ensures Draining(StopRequest(s, true, []), rec, Io(s.cur, s.next, 0))
  {
    hide Inv;
    var u := s.(reason := StopUser);
    hide FlushBuffer;
    FlushSubmits(Stopped(u), []);
    assert StopRequest(s, true, []) == Flushed(Stopped(u), Accepted);
    hide Stored;
    hide Pad;
    hide StopRecording;
  }

  // ---- the whole daemon ----

  /** A capture event that meets no hazard, on a daemon with nothing else to do. */
  lemma CaptureQuietly(y: Sys, e: Event)
    requires SysInv(y) && NoHazard(y.f) && AdminFree(y.m) && y.m.cap.recording
    requires Shape(y.m.cap) && Enabled(y.m.cap, e) && !Hazard(Next(y.m.cap, e).h)
    ensures Possible(y, Capture(e))
    ensures var y' := Do(y, Capture(e));
            && SysInv(y') && NoHazard(y'.f) && y'.m.cap == Next(y.m.cap, e) && y'.m.delRead.None?
            && (y'.m.cap.finals > y.m.cap.finals ==> y'.m.meta.Some? && y'.m.meta.value.cb.FinHeader?)
            && (y'.m.cap.finals == y.m.cap.finals ==> y'.m.meta.None?)
  {
    InvIsPossible(y);
    assert DiskOk(y.d, y.m.cap.cfg) by { DiskIsOk(y); }
    hide SysInv;
    hide MemoryOk;
    hide Next;
    hide Do;
    CaptureFacts(y, e);
    DoKeeps(y, Capture(e));
  }

  lemma CaptureFacts(y: Sys, e: Event)
    requires NoHazard(y.f) && AdminFree(y.m)
    requires Possible(y, Capture(e)) && !Hazard(Next(y.m.cap, e).h)
    ensures var y' := Do(y, Capture(e));
            && NoHazard(y'.f) && y'.m.cap == Next(y.m.cap, e) && y'.m.delRead.None?
            && (y'.m.cap.finals > y.m.cap.finals ==> y'.m.meta.Some? && y'.m.meta.value.cb.FinHeader?)
            && (y'.m.cap.finals == y.m.cap.finals ==> y'.m.meta.None?)
  {
    hide Shape;
    hide MemoryOk;
    hide Next;
    hide VolumeBlock;
    hide DiskAfter;
  }

  /** An idle, sound daemon with a free slot and room for a chunk. */
  ghost predicate CanRecord(y: Sys, port: u16) {
    && Idling(y) && port != 0 && y.m.nextSeg < TOC_SLOT_COUNT
    && RoomFor(y.m.cap.cfg, y.m.cap.hwm)
  }

  function Opened(y: Sys, port: u16): Cap {
    y.m.cap.(cfg := y.m.cap.cfg.(port := port, countLimit := 0), start := y.m.cap.hwm)
  }

  lemma ClaimAsked(y: Sys, port: u16)
    requires CanRecord(y, port) && Possible(y, Start(port, Some(0), NOW))
    ensures var y1 := Do(y, Start(port, Some(0), NOW));
            && ClaimingSlot(y1, y.m.nextSeg, ClaimToc) && y1.m.cap == Opened(y, port)
  {
    hide SysInv;
    hide EntryBlock;
    hide DecodeVolume;
  }

  lemma ClaimTocDone(y: Sys, k: nat)
    requires SysInv(y) && ClaimingSlot(y, k, ClaimToc) && Possible(y, MetaDone(true, {0}, NOW))
    ensures var y2 := Do(y, MetaDone(true, {0}, NOW));
            ClaimingSlot(y2, k, ClaimHeader) && y2.m.cap == y.m.cap
  {
    hide SysInv;
    hide VolumeBlock;
    hide Applied;
  }

  lemma RecordingBegins(y: Sys, k: nat)
    requires SysInv(y) && ClaimingSlot(y, k, ClaimHeader) && Possible(y, MetaDone(true, {0}, NOW))
    ensures var y3 := Do(y, MetaDone(true, {0}, NOW));
            && NoHazard(y3.f) && AdminFree(y3.m) && y3.m.cap.recording && y3.m.cap == BeginSegment(y.m.cap)
    ensures y.m.cap.pending == 0 && y.m.cap.out == multiset{} && y.m.cap.waiter.None? && Allocated(y.m.cap)
  {
    hide OnDisk;
    hide InFlightMeta;
    hide Applied;
  }

  lemma HeaderWritten(y: Sys)
    requires SysInv(y) && NoHazard(y.f) && Possible(y, MetaDone(true, {0}, NOW))
    requires y.m.meta.Some? && y.m.meta.value.cb.FinHeader?
    ensures var y' := Do(y, MetaDone(true, {0}, NOW));
            && SysInv(y') && NoHazard(y'.f) && y'.m.cap == y.m.cap
            && y'.m.meta.Some? && y'.m.meta.value.cb.FinToc?
  {
    DoKeeps(y, MetaDone(true, {0}, NOW));
    hide SysInv;
    hide EntryBlock;
    hide Applied;
  }

  function OpenSteps(port: u16): seq<Step> {
    [Start(port, Some(0), NOW)] + ([MetaDone(true, {0}, NOW)] + [MetaDone(true, {0}, NOW)])
  }

  lemma OpenRun(y: Sys, port: u16)
    requires CanRecord(y, port)
    ensures IsRun(y, OpenSteps(port))
    ensures var z := After(y, OpenSteps(port));
            && SysInv(z) && NoHazard(z.f) && AdminFree(z.m) && z.m.cap.recording
            && Allocated(Opened(y, port)) && z.m.cap == BeginSegment(Opened(y, port))
            && z.m.cap.pending == 0 && z.m.cap.out == multiset{} && z.m.cap.waiter.None?
  {
    hide Possible;
    hide Do;
    hide SysInv;
    hide Slot;
    var t0, t1 := Start(port, Some(0), NOW), MetaDone(true, {0}, NOW);
    CanRequest(y, t0);
    var y1 := Do(y, t0);
    ClaimAsked(y, port);
    DoKeeps(y, t0);
    CanComplete(y1, true);
    var y2 := Do(y1, t1);
    ClaimTocDone(y1, y.m.nextSeg);
    DoKeeps(y1, t1);
    CanComplete(y2, true);
    RecordingBegins(y2, y.m.nextSeg);
    DoKeeps(y2, t1);
    RunCons(y2, t1, []);
    RunCons(y1, t1, [t1]);
    RunCons(y, t0, [t1, t1]);
  }

  function FinishSteps(io: Io): seq<Step> {
    [Capture(Stop(true, []))] + DrainSteps(io)
  }

  lemma FinishRun(y: Sys, rec: Record)
    requires SysInv(y) && NoHazard(y.f) && AdminFree(y.m) && OneRecord(y.m.cap, rec)
    ensures var ts := FinishSteps(Io(y.m.cap.cur, y.m.cap.next, 0));
            && IsRun(y, ts)
            && var z := After(y, ts);
               && SysInv(z) && NoHazard(z.f) && z.m.meta.Some? && z.m.meta.value.cb.FinToc?
               && Lossless(z.m.cap.h) && z.m.cap.h.log == [rec]
  {
    hide Possible;
    hide Do;
    hide StopRequest;
    hide Inv;
    hide Shape;
    hide Draining;
    var s := y.m.cap;
    var io := Io(s.cur, s.next, 0);
    assert Inv(s);
    hide SysInv;
    hide Lossless;
    hide OneRecord;
    StopAndComplete(s, rec);
    DrainingFacts(StopRequest(s, true, []), rec, io);
    BeforeStop(s, rec);
    CaptureQuietly(y, Stop(true, []));
    DrainRun(Do(y, Capture(Stop(true, []))), rec, io);
    RunCons(y, Capture(Stop(true, [])), DrainSteps(io));
  }

  lemma DrainingFacts(t: Cap, rec: Record, io: Io)
    requires Draining(t, rec, io)
    ensures Shape(t) && t.recording && t.finals == 0 && !Hazard(t.h)
    ensures io in t.out && io.buf < MAX_WRITE_BUFFERS
  {
  }

  function DrainSteps(io: Io): seq<Step> {
    [Capture(Complete(io, true, []))] + [MetaDone(true, {0}, NOW)]
  }

  lemma DrainRun(y: Sys, rec: Record, io: Io)
    requires SysInv(y) && NoHazard(y.f) && AdminFree(y.m) && Draining(y.m.cap, rec, io)
    ensures IsRun(y, DrainSteps(io))
    ensures var z := After(y, DrainSteps(io));
            && SysInv(z) && NoHazard(z.f) && z.m.meta.Some? && z.m.meta.value.cb.FinToc?
            && Lossless(z.m.cap.h) && z.m.cap.h.log == [rec]
  {
    hide Possible;
    hide Do;
    hide WriteComplete;
    hide SysInv;
    hide Shape;
    hide Lossless;
    CaptureQuietly(y, Complete(io, true, []));
    var y1 := Do(y, Capture(Complete(io, true, [])));
    CanComplete(y1, true);
    HeaderWritten(y1);
    RunCons(y1, MetaDone(true, {0}, NOW), []);
    RunCons(y, Capture(Complete(io, true, [])), [MetaDone(true, {0}, NOW)]);
  }

  lemma BeforeStop(s: Cap, rec: Record)
    requires OneRecord(s, rec)
    ensures Shape(s) && s.recording && s.finals == 0 && !Hazard(s.h)
  {
  }

  function RecordSteps(tsc: u64, rx: Rx, io: Io): seq<Step> {
    [Capture(Poll(tsc, [rx]))] + FinishSteps(io)
  }

  lemma RecordRun(y: Sys, tsc: u64, rx: Rx, rec: Record)
    requires SysInv(y) && NoHazard(y.f) && AdminFree(y.m) && y.m.cap.recording && Shape(y.m.cap)
    requires OneRecord(CapturePoll(y.m.cap, tsc, [rx]), rec) && y.m.cap.finals == 0
    ensures var s := CapturePoll(y.m.cap, tsc, [rx]);
            var ts := RecordSteps(tsc, rx, Io(s.cur, s.next, 0));
            && IsRun(y, ts)
            && var z := After(y, ts);
               && SysInv(z) && NoHazard(z.f) && z.m.meta.Some? && z.m.meta.value.cb.FinToc?
               && Lossless(z.m.cap.h) && z.m.cap.h.log == [rec]
  {
    hide Possible;
    hide Do;
    hide CapturePoll;
    hide SysInv;
    hide Shape;
    hide Lossless;
    hide OneRecord;
    var s := CapturePoll(y.m.cap, tsc, [rx]);
    BeforeStop(s, rec);
    CaptureQuietly(y, Poll(tsc, [rx]));
    FinishRun(Do(y, Capture(Poll(tsc, [rx]))), rec);
    RunCons(y, Capture(Poll(tsc, [rx])), FinishSteps(Io(s.cur, s.next, 0)));
  }

  /** Any idle daemon that can record at all gets to the starting point of the
      round trip with a log that is not empty. */
  lemma OnePacketCanBeRecorded(y: Sys, port: u16, tsc: u64, rx: Rx, payload: seq<byte>)
    requires CanRecord(y, port)
    requires OursIn(y.m.cap.cfg.(port := port, countLimit := 0), rx) == Some(payload)
    requires RECORD_HDR + |payload| <= y.m.cap.cfg.bufSize
    ensures exists ts :: IsRun(y, ts)
              && var z := After(y, ts);
                 && SysInv(z) && NoHazard(z.f) && z.m.meta.Some? && z.m.meta.value.cb.FinToc?
                 && Lossless(z.m.cap.h) && z.m.cap.h.log == [Record(0, tsc, payload)]
  {
    hide SysInv;
    hide CapturePoll;
    hide OneRecord;
    hide BeginSegment;
    OpenRun(y, port);
    var o := Opened(y, port);
    var z := After(y, OpenSteps(port));
    BeginFacts(o);
    FirstPacket(o, tsc, rx, payload);
    RecordRun(z, tsc, rx, Record(0, tsc, payload));
    var s := CapturePoll(z.m.cap, tsc, [rx]);
    var more := RecordSteps(tsc, rx, Io(s.cur, s.next, 0));
    RunConcat(y, OpenSteps(port), more);
    assert IsRun(y, OpenSteps(port) + more);
  }

  /** A daemon started on a freshly formatted device with room for a chunk is one
      that can record. */
  lemma FreshCanRecord(m: Daemon, d: Disk, c: Config, sec: u64, port: u16)
    requires Allocated(m.cap) && ConfigOk(c) && Fresh(d, c, sec)
    requires port != 0 && DATA_START + c.bufBlocks <= c.numBlocks
    ensures |d| > 0 && |d[0]| >= VOLUME_BYTES
    ensures CanRecord(Sys(Reload(m, d, c), d, NO_FLAGS), port)
  {
    FreshIsSound(m, d, c, sec);
    VolumeFits(c.bs, 0, DATA_START, sec);
    HeaderReadsBack(d, VolumeFor(c.bs, 0, DATA_START, sec), c.bs);
    hide SysInv;
    hide VolumeBlock;
    hide FitsVolume;
    hide DecodeVolume;
  }

  /** So the round trip starts from nothing: format a device, start the daemon,
      send it one packet. */
  lemma FreshDeviceRecords(m: Daemon, d: Disk, c: Config, sec: u64, port: u16, tsc: u64, rx: Rx, payload: seq<byte>)
    requires Allocated(m.cap) && ConfigOk(c) && Fresh(d, c, sec)
    requires port != 0 && DATA_START + c.bufBlocks <= c.numBlocks
    requires OursIn(c.(port := port, countLimit := 0), rx) == Some(payload)
    requires RECORD_HDR + |payload| <= c.bufSize
    ensures |d| > 0 && |d[0]| >= VOLUME_BYTES
    ensures exists ts :: IsRun(Sys(Reload(m, d, c), d, NO_FLAGS), ts)
              && var z := After(Sys(Reload(m, d, c), d, NO_FLAGS), ts);
                 && SysInv(z) && NoHazard(z.f) && z.m.meta.Some? && z.m.meta.value.cb.FinToc?
                 && Lossless(z.m.cap.h) && z.m.cap.h.log == [Record(0, tsc, payload)]
  {
    FreshCanRecord(m, d, c, sec, port);
    hide SysInv;
    hide CanRecord;
    hide Fresh;
    assert Reload(m, d, c).cap.cfg == c;
    hide Reload;
    hide Lossless;
    OnePacketCanBeRecorded(Sys(Reload(m, d, c), d, NO_FLAGS), port, tsc, rx, payload);
  }

  lemma BeginFacts(s: Cap)
    requires Allocated(s)
    ensures var r := BeginSegment(s);
            Shape(r) && r.finals == 0 && r.pending == s.pending && r.out == s.out && r.waiter == s.waiter
  {
  }

  lemma {:induction false} RunConcat(y: Sys, ts: seq<Step>, us: seq<Step>)
    requires IsRun(y, ts) && IsRun(After(y, ts), us)
    ensures IsRun(y, ts + us) && After(y, ts + us) == After(After(y, ts), us)
    decreases |ts|
  {
    hide Possible;
    hide Do;
    if ts == [] {
      assert ts + us == us;
    } else {
      assert (ts + us)[0] == ts[0] && (ts + us)[1..] == ts[1..] + us;
      RunConcat(Do(y, ts[0]), ts[1..], us);
    }
  }
}
