/** The bridge and the daemon together: what a web call that returns 0 may take
    for granted. */
module AdminService {
  import opened Bytes
  import opened Record
  import opened Device
  import opened Capture
  import opened CaptureRuns
  import opened Tuning
  import opened Store
  import opened StoreInvariant
  import opened StoreSteps
  import opened StoreTheorems
  import opened StoreRequests
  import opened AdminLedger
  import AdminBridge

  // ---- what an answer of 0 says ----

  /** In state `y` the daemon has done what a request asks for that it accepted in
      state `y0`. A start and a setting change what they name and keep every other
      setting. */
  ghost predicate Accomplished(req: Step, y0: Sys, y: Sys) {
    match req
    case Start(port, limit, _) =>
      && y.m.cap.recording && y.m.currentSeg == Some(y.m.segId) && y.m.segId == y0.m.nextSeg
      && Classify(Slot(y.d, y.m.segId)) == Open && Header0(y.d).nextSegmentId == y.m.segId + 1
      && Configured(y0.m.cap.cfg, port, limit, y.m.cap.cfg)
    case Capture(_) => !y.m.cap.recording && Classify(Slot(y.d, y.m.segId)) == Finalized
    case DeleteStart(slot) => Classify(Slot(y.d, slot)) == Deleted
    case FormatStart(sec) =>
      && Header0(y.d) == VolumeFor(y.m.cap.cfg.bs, 0, DATA_START, sec) && LiveVolume(y.m) == Header0(y.d)
      && forall b :: TOC_START <= b < DATA_START && b < |y.d| ==> y.d[b] == Zeros(y.m.cap.cfg.bs)
    case SetChunk(bytes) =>
      var c, c0 := y.m.cap.cfg, y0.m.cap.cfg;
      && 0 < y.m.unit <= 0x8000_0000 && c.bs > 0 && 4096 <= bytes <= 2097152
      && c.bufSize == RoundWriteChunk(y.m.unit, bytes) && c.bufBlocks == c.bufSize / c.bs
      && c == c0.(bufSize := c.bufSize, bufBlocks := c.bufBlocks)
    case SetBuffers(count) =>
      1 <= count <= 32 && y.m.cap.cfg == y0.m.cap.cfg.(bufCount := count)
    case SetWireSeq(on) => y.m.cap.cfg == y0.m.cap.cfg.(withSeq := on)
    case _ => false
  }

  /** The request the daemon owes an answer since state `y0`, as its state shows it. */
  ghost predicate Owes(y0: Sys, y: Sys, asked: bool, req: Step) {
    match req
    case Start(port, limit, _) =>
      && !asked && y.m.delRead.None?
      && y.m.meta.Some? && (y.m.meta.value.cb.ClaimToc? || y.m.meta.value.cb.ClaimHeader?)
      && y.m.segId == y0.m.nextSeg && Configured(y0.m.cap.cfg, port, limit, y.m.cap.cfg)
    case Capture(_) => asked && y.m.delRead.None? && !OwesMeta(y.m)
    case DeleteStart(slot) =>
      && !asked && slot < TOC_SLOT_COUNT
      && (if y.m.delRead.Some? then y.m.delRead.value == slot && !OwesMeta(y.m)
          else y.m.meta.Some? && y.m.meta.value.cb.DeleteWrite? && y.m.meta.value.block == TOC_START + slot)
    case FormatStart(sec) =>
      && !asked && y.m.delRead.None? && Formatting(y.m)
      && y.m.staged == VolumeFor(y.m.cap.cfg.bs, 0, DATA_START, sec)
    case _ => false
  }

  /** The request a step answers: its own, accepted now, or the one owed. */
  ghost predicate Serves(y0: Sys, y: Sys, t: Step, asked: bool, req: Step) {
    if Asks(t) then req == t && y0 == y else Owes(y0, y, asked, req)
  }

  lemma TuningDone(y: Sys, t: Step)
    requires SysInv(y) && Possible(y, t) && Answer(y, t) == Some(0)
    requires t.SetChunk? || t.SetBuffers? || t.SetWireSeq?
    ensures Accomplished(t, y, Do(y, t))
  {
    hide SysInv;
    hide Shape;
    hide RoundWriteChunk;
    hide IsMultiple;
  }

  lemma StartDone(y0: Sys, y: Sys, ok: bool, mask: set<nat>, now: Clock, req: Step)
    requires SysInv(y) && Possible(y, MetaDone(ok, mask, now)) && req.Start? && Owes(y0, y, false, req)
    requires Answer(y, MetaDone(ok, mask, now)) == Some(0)
    ensures Accomplished(req, y0, Do(y, MetaDone(ok, mask, now)))
  {
    hide VolumeBlock;
    hide DecodeVolume;
    hide EntryBlock;
    hide Slot;
    hide OnDisk;
    hide InRecording;
    MetaHasBlock(y);
    assert y.m.meta.value.cb.ClaimHeader? && 0 in mask;
    LiveHeaderDisk(y, mask);
    hide MemoryOk;
    hide InMemory;
  }

  lemma StopDone(y: Sys, ok: bool, mask: set<nat>, now: Clock)
    requires SysInv(y) && Possible(y, MetaDone(ok, mask, now)) && y.m.meta.value.cb.FinToc? && ok
    ensures var y' := Do(y, MetaDone(ok, mask, now));
            !y'.m.cap.recording && Classify(Slot(y'.d, y'.m.segId)) == Finalized
  {
    LandedWhole(y, mask, now);
    var at := FinalEntryLands(y, mask);
    hide SysInv;
    hide Slot;
    hide MemoryOk;
    hide Applied;
  }

  lemma DeleteDone(y: Sys, ok: bool, mask: set<nat>, now: Clock)
    requires SysInv(y) && Possible(y, MetaDone(ok, mask, now)) && y.m.meta.value.cb.DeleteWrite? && ok
    ensures y.m.meta.value.block >= TOC_START
    ensures Classify(Slot(Do(y, MetaDone(ok, mask, now)).d, y.m.meta.value.block - TOC_START)) == Deleted
  {
    LandedWhole(y, mask, now);
    DeleteDisk(y, mask);
    DeleteTarget(y);
    hide SysInv;
    hide Slot;
    hide MemoryOk;
  }

  lemma FormatDone(y0: Sys, y: Sys, ok: bool, mask: set<nat>, now: Clock, req: Step)
    requires SysInv(y) && Possible(y, MetaDone(ok, mask, now)) && y.m.meta.value.cb.FmtHeader? && ok
    requires req.FormatStart? && Owes(y0, y, false, req)
    ensures Accomplished(req, y0, Do(y, MetaDone(ok, mask, now)))
  {
    LandedWhole(y, mask, now);
    FmtHeaderDisk(y, mask);
    FormatLands(y, mask);
    FormatMemory(y.m);
    hide SysInv;
    hide Possible;
    hide FmtHeaderDone;
    hide VolumeFor;
    hide LiveVolume;
    hide Applied;
    hide Accomplished;
    hide Header0;
    FormattedIs(req, y0, y, Do(y, MetaDone(ok, mask, now)));
  }

  lemma FormatMemory(m: Daemon)
    requires m.staged == VolumeFor(m.cap.cfg.bs, 0, DATA_START, m.staged.initSec)
    ensures var m' := FmtHeaderDone(m, true); LiveVolume(m') == m.staged && m'.cap.cfg == m.cap.cfg
  {
  }

  lemma FormattedIs(req: Step, y0: Sys, y: Sys, y': Sys)
    requires req.FormatStart? && Owes(y0, y, false, req) && |y'.d| == |y.d| && y'.m.cap.cfg == y.m.cap.cfg
    requires y.m.staged == VolumeFor(y.m.cap.cfg.bs, 0, DATA_START, y.m.staged.initSec)
    requires Header0(y'.d) == y.m.staged && LiveVolume(y'.m) == y.m.staged
    requires forall b :: TOC_START <= b < DATA_START && b < |y.d| ==> y'.d[b] == Zeros(y.m.cap.cfg.bs)
    ensures Accomplished(req, y0, y')
  {
    hide Header0;
    hide LiveVolume;
  }

  /** A completion reported successful has landed. */
  lemma LandedWhole(y: Sys, mask: set<nat>, now: Clock)
    requires SysInv(y) && Possible(y, MetaDone(true, mask, now)) && !y.m.meta.value.cb.FmtZero?
    ensures 0 in mask
  {
    MetaHasBlock(y);
    hide SysInv;
    hide MemoryOk;
  }

  lemma FormatLands(y: Sys, mask: set<nat>)
    requires SysInv(y) && y.m.meta.Some? && y.m.meta.value.cb.FmtHeader?
    ensures forall b :: TOC_START <= b < DATA_START && b < |y.d| ==> Landing(y, mask).d[b] == Zeros(y.m.cap.cfg.bs)
    ensures y.m.staged == VolumeFor(y.m.cap.cfg.bs, 0, DATA_START, y.m.staged.initSec)
    ensures |Landing(y, mask).d| == |y.d|
  {
    hide DecodeVolume;
    hide VolumeBlock;
    hide Slot;
    assert DiskOk(y.d, y.m.cap.cfg) by { DiskIsOk(y); }
    SingleWrite(y.d, FmtHeader, 0, y.m.meta.value.blocks[0], mask);
    assert FormatOk(y.m, y.d) && y.m.cursor == DATA_START;
    assert |Landing(y, mask).d| == |y.d|;
    assert forall b :: TOC_START <= b < DATA_START && b < |y.d| ==> y.d[b] == Zeros(y.m.cap.cfg.bs);
    assert forall b :: TOC_START <= b < DATA_START && b < |y.d| ==> Landing(y, mask).d[b] == y.d[b];
  }

  lemma AlreadyDeleted(y: Sys, ok: bool, slot: nat)
    requires Possible(y, DeleteRead(ok)) && y.m.delRead == Some(slot) && Answer(y, DeleteRead(ok)) == Some(0)
    ensures Classify(Slot(Do(y, DeleteRead(ok)).d, slot)) == Deleted
  {
    hide Shape;
    hide DecodeEntry;
    hide MarkDeleted;
  }

  /** An answer of 0 is true: a start that is answered 0 is recording what was
      asked for, with its claim on the disk; a stop has left its segment finalized
      on the disk; a delete has left its slot DELETED; a format has left an empty
      table of contents under a fresh header; a setting is in force. */
  lemma ZeroIsTrue(y0: Sys, y: Sys, t: Step, asked: bool, req: Step)
    requires SysInv(y) && Possible(y, t) && Orderly(y, t, asked) && AskedOk(y, asked)
    requires Serves(y0, y, t, asked, req) && !Unasked(y, t, asked) && Answer(y, t) == Some(0)
    ensures Accomplished(req, y0, Do(y, t))
  {
    hide SysInv;
    hide Do;
    hide Accomplished;
    match t {
      case MetaDone(ok, mask, now) => MetaZeroIsTrue(y0, y, ok, mask, now, asked, req);
      case DeleteRead(ok) =>
        assert req.DeleteStart?;
        AlreadyDeleted(y, ok, req.slot);
        assert Accomplished(req, y0, Do(y, t)) by { DeletedIs(req, y0, Do(y, t)); }
      case _ => TuningDone(y, t);
    }
  }

  /** And the other way round: what succeeds is answered 0. A start is answered 0
      exactly if it has begun the recording asked for; a stop, a format and a delete
      exactly if their last write was reported successful, or there was nothing left
      to delete; a setting exactly if it was free to change and in its range. */
  lemma ZeroIff(y0: Sys, y: Sys, t: Step, asked: bool, req: Step)
    requires SysInv(y) && Possible(y, t) && Orderly(y, t, asked) && AskedOk(y, asked)
    requires Serves(y0, y, t, asked, req) && !Unasked(y, t, asked) && Answer(y, t).Some?
    ensures Answer(y, t) == Some(0) <==>
              match req
              case Start(_, _, _) => Accomplished(req, y0, Do(y, t))
              case Capture(_) => t.MetaDone? && t.ok
              case FormatStart(_) => t.MetaDone? && t.ok
              case DeleteStart(slot) =>
                (t.MetaDone? && t.ok) || (t.DeleteRead? && t.ok && Classify(Slot(y.d, slot)) == Deleted)
              case SetChunk(bytes) => !y.m.cap.recording && !y.m.claiming && 4096 <= bytes <= 2097152
              case SetBuffers(count) => !y.m.cap.recording && !y.m.claiming && 1 <= count <= 32
              case SetWireSeq(_) => !y.m.cap.recording && !y.m.claiming
              case _ => false
  {
    hide SysInv;
    hide Do;
    hide Accomplished;
    if Answer(y, t) == Some(0) {
      ZeroIsTrue(y0, y, t, asked, req);
    } else if req.Start? {
      StartNotDone(y0, y, t, asked, req);
    }
    match t {
      case MetaDone(ok, mask, now) => CompletionAnswers(y, ok, mask, now);
      case SetChunk(_) => SettingAnswers(y, t);
      case SetBuffers(_) => SettingAnswers(y, t);
      case DeleteRead(ok) => DeleteReadAnswers(y, ok);
      case _ =>
    }
  }

  /** A start that is refused or fails has not begun a recording of the next slot. */
  lemma StartNotDone(y0: Sys, y: Sys, t: Step, asked: bool, req: Step)
    requires SysInv(y) && Possible(y, t) && Serves(y0, y, t, asked, req) && req.Start?
    requires Answer(y, t).Some? && Answer(y, t) != Some(0)
    ensures !Accomplished(req, y0, Do(y, t))
  {
    hide DecodeVolume;
    hide VolumeBlock;
    hide EntryBlock;
    hide DecodeEntry;
    hide MarkDeleted;
    hide Applied;
    hide RoundWriteChunk;
    hide IsMultiple;
    hide Slot;
  }

  lemma DeletedIs(req: Step, y0: Sys, y: Sys)
    requires req.DeleteStart? && Classify(Slot(y.d, req.slot)) == Deleted
    ensures Accomplished(req, y0, y)
  {
  }

  lemma StoppedIs(req: Step, y0: Sys, y: Sys)
    requires req.Capture? && !y.m.cap.recording && Classify(Slot(y.d, y.m.segId)) == Finalized
    ensures Accomplished(req, y0, y)
  {
  }

  lemma MetaZeroIsTrue(y0: Sys, y: Sys, ok: bool, mask: set<nat>, now: Clock, asked: bool, req: Step)
    requires SysInv(y) && Possible(y, MetaDone(ok, mask, now)) && AskedOk(y, asked)
    requires Owes(y0, y, asked, req) && !Unasked(y, MetaDone(ok, mask, now), asked)
    requires Answer(y, MetaDone(ok, mask, now)) == Some(0)
    ensures Accomplished(req, y0, Do(y, MetaDone(ok, mask, now)))
  {
    hide SysInv;
    hide Do;
    hide Accomplished;
    hide MemoryOk;
    match req {
      case Start(_, _, _) => StartDone(y0, y, ok, mask, now, req);
      case Capture(_) =>
        StopDone(y, ok, mask, now);
        StoppedIs(req, y0, Do(y, MetaDone(ok, mask, now)));
      case DeleteStart(slot) =>
        DeleteWritten(y0, y, slot);
        DeleteDone(y, ok, mask, now);
        DeletedIs(req, y0, Do(y, MetaDone(ok, mask, now)));
      case FormatStart(_) => FormatDone(y0, y, ok, mask, now, req);
    }
  }

  lemma DeleteWritten(y0: Sys, y: Sys, slot: nat)
    requires SysInv(y) && y.m.meta.Some? && Owes(y0, y, false, DeleteStart(slot))
    ensures y.m.meta.value.cb.DeleteWrite?
  {
    assert y.m.delRead.Some? ==> y.m.meta.None?;
    hide SysInv;
  }

  // ---- what is owed stays owed until it is answered ----

  lemma StaysOwed(y0: Sys, y: Sys, t: Step, asked: bool, req: Step)
    requires SysInv(y) && Possible(y, t) && NoHazard(Do(y, t).f)
    requires Orderly(y, t, asked) && AskedOk(y, asked)
    requires Serves(y0, y, t, asked, req) && (Answer(y, t).None? || Unasked(y, t, asked))
    ensures Owes(y0, Do(y, t), StopAskedAfter(y, t, asked), req)
  {
    hide SysInv;
    hide Do;
    hide Owes;
    match t {
      case Capture(e) => CaptureStaysOwed(y0, y, e, asked, req);
      case MetaDone(ok, mask, now) => MetaStaysOwed(y0, y, ok, mask, now, asked, req);
      case _ => RequestStaysOwed(y0, y, t, asked, req);
    }
  }

  lemma CaptureStaysOwed(y0: Sys, y: Sys, e: Event, asked: bool, req: Step)
    requires SysInv(y) && Possible(y, Capture(e)) && NoHazard(Do(y, Capture(e)).f)
    requires Orderly(y, Capture(e), asked) && Serves(y0, y, Capture(e), asked, req)
    ensures Owes(y0, Do(y, Capture(e)), StopAskedAfter(y, Capture(e), asked), req)
  {
    assert y.m.cap.recording;
    CaptureOwes(y, e);
    NotClaiming(y);
    CaptureMeta(y, e);
    hide SysInv;
    hide Possible;
    hide Do;
    hide NoHazard;
    hide VolumeFor;
    if Asks(Capture(e)) {
      assert req == Capture(e);
    } else {
      hide StopAskedAfter;
      OwedBeside(y0, y, Do(y, Capture(e)), asked, req);
    }
  }

  /** While a segment is open only a stop or a delete can be owed. */
  lemma OwedBeside(y0: Sys, y: Sys, y': Sys, asked: bool, req: Step)
    requires Owes(y0, y, asked, req) && !Formatting(y.m)
    requires y.m.meta.Some? ==> !y.m.meta.value.cb.ClaimToc? && !y.m.meta.value.cb.ClaimHeader?
    requires y'.m.delRead == y.m.delRead && (OwesMeta(y'.m) <==> OwesMeta(y.m))
    requires y.m.meta.Some? ==> y'.m.meta == y.m.meta
    ensures Owes(y0, y', asked, req)
  {
    hide VolumeFor;
  }

  lemma NotClaiming(y: Sys)
    requires SysInv(y) && y.m.cap.recording
    ensures !Formatting(y.m)
    ensures y.m.meta.Some? ==> !y.m.meta.value.cb.ClaimToc? && !y.m.meta.value.cb.ClaimHeader?
    ensures y.m.delRead.Some? ==> y.m.meta.None?
  {
    hide OnDisk;
    hide InRecording;
    hide VolumeBlock;
    hide EntryBlock;
    hide MarkDeleted;
    hide Slot;
  }

  lemma CaptureMeta(y: Sys, e: Event)
    requires Possible(y, Capture(e)) && NoHazard(Do(y, Capture(e)).f)
    ensures var m := Do(y, Capture(e)).m; y.m.meta.Some? ==> m.meta == y.m.meta
  {
    hide MemoryOk;
    hide Next;
    hide VolumeBlock;
    hide DiskAfter;
    hide Shape;
    hide Enabled;
  }

  /** What a completion that answers nothing does: a claim or a format goes on, and
      the others it leaves alone. */
  ghost predicate GoesOn(m: Daemon, m': Daemon)
    requires m.meta.Some?
  {
    && m.delRead.None? && m'.delRead.None? && m'.cap.cfg == m.cap.cfg && m'.staged == m.staged
    && m'.segId == m.segId
    && (m.meta.value.cb.ClaimToc? ==> m'.meta.Some? && m'.meta.value.cb.ClaimHeader?)
    && (Formatting(m) ==> Formatting(m'))
    && (!OwesMeta(m) ==> !OwesMeta(m'))
    && !m.meta.value.cb.ClaimHeader? && !m.meta.value.cb.DeleteWrite?
  }

  lemma QuietCompleted(m: Daemon, ok: bool, now: Clock)
    requires MemoryOk(m) && m.meta.Some? && m.delRead.None?
    requires !Terminal(m.meta.value.cb, ok) || m.meta.value.cb.FinToc?
    ensures GoesOn(m, Completed(m, ok, now))
  {
    hide VolumeBlock;
    hide EntryBlock;
    hide ZeroBlocks;
    hide LiveVolume;
    hide FinalEntry;
    hide Formed;
  }

  lemma QuietCompletion(y: Sys, ok: bool, mask: set<nat>, now: Clock, asked: bool)
    requires SysInv(y) && Possible(y, MetaDone(ok, mask, now))
    requires Answer(y, MetaDone(ok, mask, now)).None? || Unasked(y, MetaDone(ok, mask, now), asked)
    ensures GoesOn(y.m, Do(y, MetaDone(ok, mask, now)).m)
    ensures StopAskedAfter(y, MetaDone(ok, mask, now), asked) == asked
  {
    assert y.m.delRead.None?;
    hide SysInv;
    hide MemoryOk;
    hide Completed;
    hide GoesOn;
    hide Applied;
    QuietCompleted(y.m, ok, now);
  }

  lemma MetaStaysOwed(y0: Sys, y: Sys, ok: bool, mask: set<nat>, now: Clock, asked: bool, req: Step)
    requires SysInv(y) && Possible(y, MetaDone(ok, mask, now)) && Owes(y0, y, asked, req)
    requires Answer(y, MetaDone(ok, mask, now)).None? || Unasked(y, MetaDone(ok, mask, now), asked)
    ensures Owes(y0, Do(y, MetaDone(ok, mask, now)), StopAskedAfter(y, MetaDone(ok, mask, now), asked), req)
  {
    QuietCompletion(y, ok, mask, now, asked);
    hide SysInv;
    hide MemoryOk;
    hide Do;
    hide Answer;
    hide StopAskedAfter;
    hide VolumeFor;
  }

  lemma RequestStaysOwed(y0: Sys, y: Sys, t: Step, asked: bool, req: Step)
    requires SysInv(y) && Possible(y, t) && NoHazard(Do(y, t).f)
    requires Orderly(y, t, asked) && AskedOk(y, asked) && !t.Capture? && !t.MetaDone?
    requires Serves(y0, y, t, asked, req) && Answer(y, t).None?
    ensures Owes(y0, Do(y, t), StopAskedAfter(y, t, asked), req)
  {
    hide SysInv;
    hide VolumeBlock;
    hide EntryBlock;
    hide DecodeEntry;
    hide MarkDeleted;
    hide RoundWriteChunk;
    hide IsMultiple;
    hide Write;
  }

  // ---- the two threads and the device together ----

  /** `cur` is the request dispatched last; `reqs` says what each request asks for,
      `from` is the daemon's state when it was accepted, `told` when it was
      answered. */
  datatype Service = Service(y: Sys, asked: bool, b: AdminBridge.Bridge, cur: nat,
                             reqs: map<nat, Step>, from: map<nat, Sys>, told: map<nat, Sys>)

  /** Either the web thread moves, or the daemon does, accepting request `id` if
      its step is one that accepts a request. */
  datatype Move = Web(e: AdminBridge.Event) | Reactor(t: Step, id: nat)

  predicate WebMoves(e: AdminBridge.Event) {
    e.Call? || e.Post? || e.WaitEnds? || e.ReadRc?
  }

  /** A move that may come. Nothing is assumed about when requests are dispatched
      other than that they were posted. No signal and no crash: both end the
      daemon. A finalize that nobody asked for ends only while no call owns the
      slot or reads from it. */
  ghost predicate MayCome(s: Service, v: Move) {
    match v
    case Web(e) => WebMoves(e) && AdminBridge.Enabled(s.b, e)
    case Reactor(t, id) =>
      && Possible(s.y, t) && NoHazard(Do(s.y, t).f)
      && !t.Crash? && !(t.Capture? && t.e.Stop? && !t.e.user)
      && (if Asks(t) then id in s.b.posted else id == s.cur)
      && (Unasked(s.y, t, s.asked) ==> !s.b.slot.busy && !s.b.web.Reading?)
  }

  ghost function After(s: Service, v: Move): Service
    requires MayCome(s, v)
  {
    match v
    case Web(e) => s.(b := AdminBridge.Step(s.b, e))
    case Reactor(t, id) =>
      var y', answer, unasked := Do(s.y, t), Answer(s.y, t), Unasked(s.y, t, s.asked);
      var b' := AdminBridge.Run(s.b, Seen(s.y, t, s.asked, id));
      Service(y', StopAskedAfter(s.y, t, s.asked), if b'.Some? then b'.value else s.b, id,
              if Asks(t) then s.reqs[id := t] else s.reqs, if Asks(t) then s.from[id := s.y] else s.from,
              if answer.Some? && !unasked then s.told[id := y'] else s.told)
  }

  /** An answered request was accomplished when it was answered 0. */
  ghost predicate Truthful(s: Service, id: nat) {
    id in s.b.answers ==>
      && id in s.reqs && id in s.from && id in s.told
      && (s.b.answers[id] == 0 ==> Accomplished(s.reqs[id], s.from[id], s.told[id]))
  }

  ghost predicate ServiceOk(s: Service) {
    && SysInv(s.y) && AskedOk(s.y, s.asked) && AdminBridge.Consistent(s.b)
    && Owing(s.y.m, s.asked) <= 1 && Agree(s.b, s.y.m, s.asked, s.cur)
    && (Owing(s.y.m, s.asked) == 1 ==>
          s.cur in s.reqs && s.cur in s.from && Owes(s.from[s.cur], s.y, s.asked, s.reqs[s.cur]))
    && AllTruthful(s)
  }

  ghost predicate AllTruthful(s: Service) {
    forall id :: Truthful(s, id)
  }

  lemma WebLeaves(b: AdminBridge.Bridge, e: AdminBridge.Event)
    requires WebMoves(e) && AdminBridge.Enabled(b, e)
    ensures AdminBridge.Undisturbed(b, e)
    ensures AdminBridge.Step(b, e).answers == b.answers && AdminBridge.Step(b, e).running == b.running
  {
  }

  lemma WebKeeps(s: Service, e: AdminBridge.Event)
    requires ServiceOk(s) && MayCome(s, Web(e))
    ensures ServiceOk(After(s, Web(e)))
  {
    hide SysInv;
    hide Owes;
    hide Accomplished;
    hide Owing;
    hide AskedOk;
    hide AdminBridge.Consistent;
    hide AdminBridge.Step;
    hide AdminBridge.Enabled;
    WebLeaves(s.b, e);
    AdminBridge.StepKeepsConsistent(s.b, e);
    forall id ensures Truthful(After(s, Web(e)), id) {
      assert Truthful(s, id);
    }
  }

  lemma NothingRunning(posted: multiset<nat>, running: multiset<nat>, id: nat)
    requires |posted + running| <= 1 && id in posted
    ensures running == multiset{}
  {
    AdminBridge.AtMostOne(posted + running, id);
    forall x: nat ensures running[x] == 0 {
      assert (posted + running)[x] == posted[x] + running[x];
    }
  }

  /** The bridge dispatches only when nothing is owed, and a request has no answer
      before it is dispatched. */
  lemma DispatchIsOrderly(s: Service, t: Step, id: nat)
    requires ServiceOk(s) && MayCome(s, Reactor(t, id))
    ensures Orderly(s.y, t, s.asked) && Agree(s.b, s.y.m, s.asked, id)
    ensures Asks(t) ==> id !in s.b.answers
  {
    hide SysInv;
    hide Possible;
    hide Do;
    hide NoHazard;
    hide Owes;
    hide Owing;
    hide Truthful;
    if Asks(t) {
      assert id in AdminBridge.Outstanding(s.b);
      NothingRunning(s.b.posted, s.b.running, id);
    }
  }

  // ---- the bridge's share of a step of the daemon ----

  /** What the bridge makes of a reply: only the request answered has a new answer. */
  lemma SeenKeeps(b: AdminBridge.Bridge, asks: bool, answer: Option<int>, unasked: bool, id: nat)
    requires AdminBridge.Consistent(b) && (asks ==> id in b.posted) && (unasked ==> !asks)
    requires answer.Some? && !unasked && !asks ==> id in b.running
    requires unasked ==> !b.slot.busy && !b.web.Reading?
    ensures var r := AdminBridge.Run(b, Trace(asks, answer, unasked, id));
            && r.Some? && AdminBridge.Consistent(r.value)
            && r.value.answers == (if answer.Some? && !unasked then b.answers[id := answer.value] else b.answers)
  {
    hide AdminBridge.Consistent;
    hide AdminBridge.Fulfilled;
    var es := Trace(asks, answer, unasked, id);
    if asks {
      var e := AdminBridge.Dispatch(id);
      var b1 := AdminBridge.Step(b, e);
      AdminBridge.StepKeepsConsistent(b, e);
      assert es[0] == e && es[1..] == Reply(answer, unasked, id);
      assert AdminBridge.Run(b, es) == AdminBridge.Run(b1, es[1..]);
      ReplyKeeps(b1, answer, unasked, id);
    } else {
      assert es == Reply(answer, unasked, id);
      ReplyKeeps(b, answer, unasked, id);
    }
  }

  lemma ReplyKeeps(b: AdminBridge.Bridge, answer: Option<int>, unasked: bool, id: nat)
    requires AdminBridge.Consistent(b) && (answer.Some? && !unasked ==> id in b.running)
    requires answer.Some? && unasked ==> !b.slot.busy && !b.web.Reading?
    ensures var r := AdminBridge.Run(b, Reply(answer, unasked, id));
            && r.Some? && AdminBridge.Consistent(r.value)
            && r.value.answers == (if answer.Some? && !unasked then b.answers[id := answer.value] else b.answers)
  {
    hide AdminBridge.Consistent;
    hide AdminBridge.Fulfilled;
    var es := Reply(answer, unasked, id);
    if answer.Some? {
      AdminBridge.StepKeepsConsistent(b, es[0]);
      assert es[1..] == [];
      assert AdminBridge.Run(b, es) == AdminBridge.Run(AdminBridge.Step(b, es[0]), []);
    }
  }

  // ---- a step of the daemon ----

  /** What a step makes of each part of the state. */
  lemma AfterReactor(s: Service, t: Step, id: nat)
    requires MayCome(s, Reactor(t, id))
    ensures var s' := After(s, Reactor(t, id));
            var answered := Answer(s.y, t).Some? && !Unasked(s.y, t, s.asked);
            var b' := AdminBridge.Run(s.b, Seen(s.y, t, s.asked, id));
            && s'.y == Do(s.y, t) && s'.asked == StopAskedAfter(s.y, t, s.asked) && s'.cur == id
            && (b'.Some? ==> s'.b == b'.value)
            && s'.reqs == (if Asks(t) then s.reqs[id := t] else s.reqs)
            && s'.from == (if Asks(t) then s.from[id := s.y] else s.from)
            && s'.told == (if answered then s.told[id := s'.y] else s.told)
  {
    hide Possible;
    hide Do;
    hide NoHazard;
    hide Answer;
    hide Seen;
    hide Unasked;
    hide AdminBridge.Run;
  }

  lemma ServiceParts(s: Service)
    requires ServiceOk(s)
    ensures SysInv(s.y) && AskedOk(s.y, s.asked) && AdminBridge.Consistent(s.b)
    ensures Owing(s.y.m, s.asked) <= 1 && AllTruthful(s)
  {
    hide SysInv;
    hide Owing;
    hide AskedOk;
    hide AllTruthful;
    hide AdminBridge.Consistent;
  }

  lemma MoveParts(s: Service, t: Step, id: nat)
    requires MayCome(s, Reactor(t, id))
    ensures Possible(s.y, t) && NoHazard(Do(s.y, t).f)
    ensures Asks(t) ==> id in s.b.posted
    ensures Unasked(s.y, t, s.asked) ==> !s.b.slot.busy && !s.b.web.Reading?
  {
    hide Possible;
    hide Do;
    hide NoHazard;
    hide Unasked;
    hide Asks;
  }

  lemma RunningIs(b: AdminBridge.Bridge, m: Daemon, asked: bool, id: nat)
    requires Agree(b, m, asked, id) && Owing(m, asked) > 0
    ensures id in b.running
  {
    hide Owing;
  }

  lemma ReactorDaemon(s: Service, t: Step, id: nat)
    requires ServiceOk(s) && MayCome(s, Reactor(t, id))
    ensures Possible(s.y, t) && KeepsBalance(s.y, t, s.asked) && Orderly(s.y, t, s.asked)
    ensures Agree(s.b, s.y.m, s.asked, id) && (Asks(t) ==> id !in s.b.answers)
    ensures var y', asked' := Do(s.y, t), StopAskedAfter(s.y, t, s.asked);
            SysInv(y') && AskedOk(y', asked') && Owing(y'.m, asked') <= 1
  {
    MoveParts(s, t, id);
    ServiceParts(s);
    hide ServiceOk;
    hide MayCome;
    hide SysInv;
    hide Possible;
    hide Do;
    hide NoHazard;
    hide Owing;
    hide Asks;
    hide Unasked;
    hide StopAskedAfter;
    hide Orderly;
    hide Answer;
    hide AskedOk;
    hide Agree;
    hide AllTruthful;
    hide AdminBridge.Consistent;
    DispatchIsOrderly(s, t, id);
    DoKeeps(s.y, t);
    StepBalances(s.y, t, s.asked);
  }

  lemma SeenKeepsBridge(y: Sys, t: Step, asked: bool, b: AdminBridge.Bridge, id: nat)
    requires Possible(y, t) && AdminBridge.Consistent(b) && (Asks(t) ==> id in b.posted)
    requires Unasked(y, t, asked) ==> !Asks(t) && !b.slot.busy && !b.web.Reading?
    requires Answer(y, t).Some? && !Unasked(y, t, asked) && !Asks(t) ==> id in b.running
    ensures var r := AdminBridge.Run(b, Seen(y, t, asked, id));
            && r.Some? && AdminBridge.Consistent(r.value)
            && r.value.answers == (if Answer(y, t).Some? && !Unasked(y, t, asked)
                                   then b.answers[id := Answer(y, t).value] else b.answers)
  {
    hide Possible;
    hide Asks;
    hide Unasked;
    hide Answer;
    hide Trace;
    hide AdminBridge.Consistent;
    hide AdminBridge.Run;
    SeenKeeps(b, Asks(t), Answer(y, t), Unasked(y, t, asked), id);
  }

  lemma ReactorSeen(s: Service, t: Step, id: nat)
    requires ServiceOk(s) && MayCome(s, Reactor(t, id))
    requires Possible(s.y, t) && KeepsBalance(s.y, t, s.asked) && Orderly(s.y, t, s.asked) && Agree(s.b, s.y.m, s.asked, id)
    ensures var r := AdminBridge.Run(s.b, Seen(s.y, t, s.asked, id));
            && r.Some? && AdminBridge.Consistent(r.value)
            && Agree(r.value, Do(s.y, t).m, StopAskedAfter(s.y, t, s.asked), id)
            && r.value.answers == (if Answer(s.y, t).Some? && !Unasked(s.y, t, s.asked)
                                   then s.b.answers[id := Answer(s.y, t).value] else s.b.answers)
  {
    MoveParts(s, t, id);
    ServiceParts(s);
    hide ServiceOk;
    hide MayCome;
    hide SysInv;
    hide Possible;
    hide Do;
    hide NoHazard;
    hide Owing;
    hide Asks;
    hide Unasked;
    hide StopAskedAfter;
    hide Orderly;
    hide Answer;
    hide AskedOk;
    hide Agree;
    hide AllTruthful;
    hide Seen;
    hide AdminBridge.Consistent;
    hide AdminBridge.Run;
    HandlersKeepTheBridge(s.y, t, s.asked, s.b, id);
    if Owing(s.y.m, s.asked) > 0 {
      RunningIs(s.b, s.y.m, s.asked, id);
    }
    SeenKeepsBridge(s.y, t, s.asked, s.b, id);
  }

  lemma ReactorBridge(s: Service, t: Step, id: nat)
    requires ServiceOk(s) && MayCome(s, Reactor(t, id))
    ensures Possible(s.y, t) && KeepsBalance(s.y, t, s.asked) && Orderly(s.y, t, s.asked)
    ensures Asks(t) ==> id !in s.b.answers
    ensures var s' := After(s, Reactor(t, id));
            && SysInv(s'.y) && AskedOk(s'.y, s'.asked) && AdminBridge.Consistent(s'.b)
            && Owing(s'.y.m, s'.asked) <= 1 && Agree(s'.b, s'.y.m, s'.asked, s'.cur)
            && s'.b.answers == (if Answer(s.y, t).Some? && !Unasked(s.y, t, s.asked)
                                then s.b.answers[id := Answer(s.y, t).value] else s.b.answers)
  {
    MoveParts(s, t, id);
    hide ServiceOk;
    hide MayCome;
    hide SysInv;
    hide Possible;
    hide Do;
    hide NoHazard;
    hide Owing;
    hide Asks;
    hide Unasked;
    hide StopAskedAfter;
    hide Orderly;
    hide Answer;
    hide AskedOk;
    hide Agree;
    hide After;
    hide Seen;
    hide KeepsBalance;
    hide AdminBridge.Consistent;
    hide AdminBridge.Run;
    AfterReactor(s, t, id);
    ReactorDaemon(s, t, id);
    ReactorSeen(s, t, id);
  }

  /** The request a step serves is the one on record, and it is answered exactly
      if nothing is owed afterwards. */
  lemma ReactorServes(s: Service, t: Step, id: nat)
    requires ServiceOk(s) && MayCome(s, Reactor(t, id)) && Possible(s.y, t) && KeepsBalance(s.y, t, s.asked)
    requires var s' := After(s, Reactor(t, id));
             Owing(s'.y.m, s'.asked) == 1 || (Answer(s.y, t).Some? && !Unasked(s.y, t, s.asked))
    ensures var s' := After(s, Reactor(t, id));
            id in s'.reqs && id in s'.from && Serves(s'.from[id], s.y, t, s.asked, s'.reqs[id])
    ensures var s' := After(s, Reactor(t, id));
            Owing(s'.y.m, s'.asked) == 1 <==> Answer(s.y, t).None? || Unasked(s.y, t, s.asked)
  {
    AfterReactor(s, t, id);
    hide SysInv;
    hide Possible;
    hide Do;
    hide NoHazard;
    hide Owes;
    hide Owing;
    hide Asks;
    hide Unasked;
    hide StopAskedAfter;
    hide Answer;
    hide AskedOk;
    hide AllTruthful;
    hide Seen;
    hide Agree;
    hide After;
    hide AdminBridge.Consistent;
    hide AdminBridge.Run;
  }

  lemma ReactorOwes(s: Service, t: Step, id: nat)
    requires ServiceOk(s) && MayCome(s, Reactor(t, id))
    requires Possible(s.y, t) && KeepsBalance(s.y, t, s.asked) && Orderly(s.y, t, s.asked)
    ensures var s' := After(s, Reactor(t, id));
            Owing(s'.y.m, s'.asked) == 1 ==>
              s'.cur in s'.reqs && s'.cur in s'.from && Owes(s'.from[s'.cur], s'.y, s'.asked, s'.reqs[s'.cur])
  {
    MoveParts(s, t, id);
    ServiceParts(s);
    hide ServiceOk;
    hide MayCome;
    AfterReactor(s, t, id);
    hide SysInv;
    hide Possible;
    hide Do;
    hide NoHazard;
    hide Owes;
    hide Owing;
    hide Asks;
    hide Unasked;
    hide StopAskedAfter;
    hide Orderly;
    hide Answer;
    hide AskedOk;
    hide Serves;
    hide Seen;
    hide Agree;
    hide After;
    hide AllTruthful;
    hide KeepsBalance;
    hide AdminBridge.Consistent;
    hide AdminBridge.Run;
    var s' := After(s, Reactor(t, id));
    if Owing(s'.y.m, s'.asked) == 1 {
      ReactorServes(s, t, id);
      StaysOwed(s'.from[id], s.y, t, s.asked, s'.reqs[id]);
    }
  }

  /** One request answered, and every other left as it was. */
  lemma StaysTruthful(s: Service, s': Service, t: Step, id: nat, i: nat, asks: bool, answered: bool, rc: int)
    requires Truthful(s, i) && (asks ==> id !in s.b.answers)
    requires s'.reqs == if asks then s.reqs[id := t] else s.reqs
    requires s'.from == if asks then s.from[id := s.y] else s.from
    requires s'.told == if answered then s.told[id := s'.y] else s.told
    requires s'.b.answers == if answered then s.b.answers[id := rc] else s.b.answers
    requires answered ==> id in s'.reqs && id in s'.from && (rc == 0 ==> Accomplished(s'.reqs[id], s'.from[id], s'.y))
    ensures Truthful(s', i)
  {
    hide Accomplished;
  }

  lemma ReactorAnswers(s: Service, t: Step, id: nat)
    requires ServiceOk(s) && MayCome(s, Reactor(t, id))
    requires Possible(s.y, t) && KeepsBalance(s.y, t, s.asked) && Orderly(s.y, t, s.asked)
    requires Answer(s.y, t).Some? && !Unasked(s.y, t, s.asked)
    ensures var s' := After(s, Reactor(t, id));
            id in s'.reqs && id in s'.from && s'.y == Do(s.y, t)
            && (Answer(s.y, t).value == 0 ==> Accomplished(s'.reqs[id], s'.from[id], s'.y))
  {
    MoveParts(s, t, id);
    ServiceParts(s);
    hide ServiceOk;
    hide MayCome;
    hide SysInv;
    hide Possible;
    hide Do;
    hide NoHazard;
    hide Owes;
    hide Owing;
    hide Asks;
    hide Unasked;
    hide StopAskedAfter;
    hide Orderly;
    hide Answer;
    hide AskedOk;
    hide Accomplished;
    hide Serves;
    hide Seen;
    hide After;
    hide AllTruthful;
    hide KeepsBalance;
    hide AdminBridge.Consistent;
    hide AdminBridge.Run;
    AfterReactor(s, t, id);
    ReactorServes(s, t, id);
    if Answer(s.y, t).value == 0 {
      var s' := After(s, Reactor(t, id));
      ZeroIsTrue(s'.from[id], s.y, t, s.asked, s'.reqs[id]);
    }
  }

  lemma ReactorTruthful(s: Service, t: Step, id: nat, i: nat)
    requires ServiceOk(s) && MayCome(s, Reactor(t, id))
    ensures Truthful(After(s, Reactor(t, id)), i)
  {
    MoveParts(s, t, id);
    ServiceParts(s);
    assert Truthful(s, i);
    hide ServiceOk;
    hide MayCome;
    hide SysInv;
    hide Possible;
    hide Do;
    hide NoHazard;
    hide Owes;
    hide Serves;
    hide Owing;
    hide Asks;
    hide Unasked;
    hide StopAskedAfter;
    hide Orderly;
    hide Answer;
    hide AskedOk;
    hide Accomplished;
    hide Seen;
    hide Agree;
    hide After;
    hide Truthful;
    hide AllTruthful;
    hide KeepsBalance;
    hide AdminBridge.Consistent;
    hide AdminBridge.Run;
    AfterReactor(s, t, id);
    ReactorBridge(s, t, id);
    var answer := Answer(s.y, t);
    var answered := answer.Some? && !Unasked(s.y, t, s.asked);
    if answered {
      ReactorAnswers(s, t, id);
    }
    StaysTruthful(s, After(s, Reactor(t, id)), t, id, i, Asks(t), answered, if answered then answer.value else 0);
  }

  lemma AllStayTruthful(s: Service, t: Step, id: nat)
    requires ServiceOk(s) && MayCome(s, Reactor(t, id))
    ensures AllTruthful(After(s, Reactor(t, id)))
  {
    hide ServiceOk;
    hide MayCome;
    hide After;
    hide Truthful;
    forall i ensures Truthful(After(s, Reactor(t, id)), i) {
      ReactorTruthful(s, t, id, i);
    }
  }

  lemma ReactorKeeps(s: Service, t: Step, id: nat)
    requires ServiceOk(s) && MayCome(s, Reactor(t, id))
    ensures ServiceOk(After(s, Reactor(t, id)))
  {
    hide MayCome;
    hide After;
    hide SysInv;
    hide Owes;
    hide Owing;
    hide AskedOk;
    hide Agree;
    hide Orderly;
    hide KeepsBalance;
    hide Possible;
    hide Do;
    hide Asks;
    hide Answer;
    hide Unasked;
    hide AllTruthful;
    hide AdminBridge.Consistent;
    ReactorBridge(s, t, id);
    ReactorOwes(s, t, id);
    AllStayTruthful(s, t, id);
  }

  lemma MoveKeeps(s: Service, v: Move)
    requires ServiceOk(s) && MayCome(s, v)
    ensures ServiceOk(After(s, v))
  {
    hide ServiceOk;
    hide MayCome;
    hide After;
    match v {
      case Web(e) => WebKeeps(s, e);
      case Reactor(t, id) => ReactorKeeps(s, t, id);
    }
  }

  // ---- whole runs of both ----

  ghost predicate MayRun(s: Service, vs: seq<Move>)
    decreases |vs|
  {
    vs == [] || (MayCome(s, vs[0]) && MayRun(After(s, vs[0]), vs[1..]))
  }

  ghost function End(s: Service, vs: seq<Move>): Service
    requires MayRun(s, vs)
    decreases |vs|
  {
    if vs == [] then s else End(After(s, vs[0]), vs[1..])
  }

  lemma {:induction false} RunKeepsService(s: Service, vs: seq<Move>)
    requires ServiceOk(s) && MayRun(s, vs)
    ensures ServiceOk(End(s, vs))
    decreases |vs|
  {
    hide ServiceOk;
    hide MayCome;
    hide After;
    if vs != [] {
      MoveKeeps(s, vs[0]);
      RunKeepsService(After(s, vs[0]), vs[1..]);
    }
  }

  function Idle(y: Sys): Service {
    Service(y, false, AdminBridge.START, 0, map[], map[], map[])
  }

  lemma IdleIsOk(y: Sys)
    requires SysInv(y) && AdminFree(y.m)
    ensures ServiceOk(Idle(y))
  {
    hide SysInv;
  }

  /** Every call that returns 0 was told the truth: in every interleaving of the web
      thread, timeouts included, with every run of the daemon, the request that the
      call posted is on record, and the daemon had done what it asks for when it
      answered. A late answer never passes for another request's. */
  lemma ZeroMeansDone(y: Sys, vs: seq<Move>, k: nat)
    requires SysInv(y) && AdminFree(y.m) && MayRun(Idle(y), vs)
    requires k < |End(Idle(y), vs).b.results|
    requires End(Idle(y), vs).b.results[k].1 == AdminBridge.Answer(0)
    ensures var s := End(Idle(y), vs);
            var id := s.b.results[k].0;
            && id in s.reqs && id in s.from && id in s.told
            && Accomplished(s.reqs[id], s.from[id], s.told[id])
  {
    IdleIsOk(y);
    RunKeepsService(Idle(y), vs);
    hide SysInv;
    hide MayRun;
    hide End;
    hide Accomplished;
    hide Owes;
    var s := End(Idle(y), vs);
    hide Idle;
    assert AdminBridge.Honest(s.b, s.b.results[k]);
    assert Truthful(s, s.b.results[k].0);
  }

  /** And the daemon answers every request it accepts: with nothing outstanding in
      the bridge it owes nothing. */
  lemma NothingIsOwed(y: Sys, vs: seq<Move>)
    requires SysInv(y) && AdminFree(y.m) && MayRun(Idle(y), vs)
    ensures var s := End(Idle(y), vs);
            AdminBridge.Outstanding(s.b) == multiset{} ==> Owing(s.y.m, s.asked) == 0
  {
    IdleIsOk(y);
    RunKeepsService(Idle(y), vs);
    hide SysInv;
    hide MayRun;
    hide End;
    hide Idle;
    hide Owing;
    hide Owes;
    hide Truthful;
    hide AdminBridge.Consistent;
    var s := End(Idle(y), vs);
    if AdminBridge.Outstanding(s.b) == multiset{} {
      assert s.cur !in AdminBridge.Outstanding(s.b);
    }
  }

  // ---- such runs exist ----

  lemma RunFirst(s: Service, v: Move, vs: seq<Move>)
    requires MayCome(s, v) && MayRun(After(s, v), vs)
    ensures MayRun(s, [v] + vs) && End(s, [v] + vs) == End(After(s, v), vs)
  {
    hide MayCome;
    hide After;
    assert ([v] + vs)[1..] == vs;
  }

  // The bridge's side of one undisturbed call.

  const CALLED := AdminBridge.START.(slot := AdminBridge.Accept(AdminBridge.EMPTY_SLOT),
                                     web := AdminBridge.Sending(0), next := 1)

  const POSTED := CALLED.(posted := multiset{0}, web := AdminBridge.Waiting(0))

  function Served(rc: int): AdminBridge.Bridge {
    POSTED.(posted := multiset{}, answers := map[0 := rc], slot := AdminBridge.Fulfilled(POSTED.slot, rc))
  }

  function Noticed(rc: int): AdminBridge.Bridge {
    Served(rc).(slot := AdminBridge.Settled(Served(rc).slot), web := AdminBridge.Reading(0))
  }

  function Returned(rc: int): AdminBridge.Bridge {
    Noticed(rc).(web := AdminBridge.Away, results := [(0, AdminBridge.Answer(rc))])
  }

  lemma CallIsServed(rc: int)
    ensures AdminBridge.Run(POSTED, Trace(true, Some(rc), false, 0)) == Some(Served(rc))
  {
    var es := Trace(true, Some(rc), false, 0);
    assert es == [AdminBridge.Dispatch(0), AdminBridge.Finish(0, rc)];
    assert es[1..] == [AdminBridge.Finish(0, rc)] && es[1..][1..] == [];
    var b := AdminBridge.Step(POSTED, es[0]);
    assert b.posted == multiset{} && b.running == multiset{} + multiset{0} == multiset{0};
    assert b.running - multiset{0} == multiset{};
    assert map[][0 := rc] == map[0 := rc];
    assert AdminBridge.Step(b, es[1]) == Served(rc);
    assert AdminBridge.Run(b, es[1..]) == AdminBridge.Run(Served(rc), []);
  }

  function CallMoves(on: bool): seq<Move> {
    [Web(AdminBridge.Call)] + ([Web(AdminBridge.Post)] + ([Reactor(SetWireSeq(on), 0)]
    + ([Web(AdminBridge.WaitEnds(false))] + [Web(AdminBridge.ReadRc)])))
  }

  lemma SettingStep(y: Sys, on: bool)
    requires SysInv(y) && AdminFree(y.m) && !y.m.cap.recording
    ensures Possible(y, SetWireSeq(on)) && NoHazard(y.f) ==> NoHazard(Do(y, SetWireSeq(on)).f)
    ensures Possible(y, SetWireSeq(on)) && Answer(y, SetWireSeq(on)) == Some(0)
  {
    InvIsPossible(y);
    assert DiskOk(y.d, y.m.cap.cfg) by { DiskIsOk(y); }
    assert !y.m.claiming;
    hide SysInv;
  }

  function Posted(y: Sys): Service {
    Idle(y).(b := POSTED)
  }

  lemma ServeStep(y: Sys, on: bool)
    requires Possible(y, SetWireSeq(on)) && NoHazard(Do(y, SetWireSeq(on)).f)
    requires Answer(y, SetWireSeq(on)) == Some(0)
    ensures MayCome(Posted(y), Reactor(SetWireSeq(on), 0))
    ensures After(Posted(y), Reactor(SetWireSeq(on), 0))
         == Service(Do(y, SetWireSeq(on)), false, Served(0), 0, map[0 := SetWireSeq(on)],
                    map[0 := y], map[0 := Do(y, SetWireSeq(on))])
  {
    hide Possible;
    hide Do;
    hide NoHazard;
    hide Answer;
    hide Trace;
    hide After;
    hide AdminBridge.Run;
    var t := SetWireSeq(on);
    CallIsServed(0);
    assert Posted(y).b == POSTED;
    AfterReactor(Posted(y), t, 0);
    assert map[][0 := t] == map[0 := t];
    assert map[][0 := y] == map[0 := y];
    assert map[][0 := Do(y, t)] == map[0 := Do(y, t)];
  }

  lemma WebMove(s: Service, e: AdminBridge.Event)
    requires WebMoves(e) && AdminBridge.Enabled(s.b, e)
    ensures MayCome(s, Web(e)) && After(s, Web(e)) == s.(b := AdminBridge.Step(s.b, e))
  {
    hide AdminBridge.Step;
    hide AdminBridge.Enabled;
  }

  lemma WebSteps()
    ensures var b := AdminBridge.START;
            AdminBridge.Enabled(b, AdminBridge.Call) && AdminBridge.Step(b, AdminBridge.Call) == CALLED
    ensures AdminBridge.Enabled(CALLED, AdminBridge.Post) && AdminBridge.Step(CALLED, AdminBridge.Post) == POSTED
    ensures var e := AdminBridge.WaitEnds(false);
            AdminBridge.Enabled(Served(0), e) && AdminBridge.Step(Served(0), e) == Noticed(0)
    ensures var e := AdminBridge.ReadRc;
            AdminBridge.Enabled(Noticed(0), e) && AdminBridge.Step(Noticed(0), e) == Returned(0)
  {
    assert multiset{} + multiset{0} == multiset{0};
  }

  /** One call, to change a setting: it is posted, accepted, answered and read. */
  lemma OneCall(y: Sys, on: bool)
    requires SysInv(y) && NoHazard(y.f) && AdminFree(y.m) && !y.m.cap.recording
    ensures MayRun(Idle(y), CallMoves(on))
    ensures End(Idle(y), CallMoves(on)).b.results == [(0, AdminBridge.Answer(0))]
  {
    SettingStep(y, on);
    hide SysInv;
    hide Possible;
    hide Do;
    hide Answer;
    hide NoHazard;
    hide Trace;
    hide AdminBridge.Run;
    hide Owing;
    hide Seen;
    hide MayCome;
    hide After;
    hide AdminBridge.Step;
    hide AdminBridge.Enabled;
    hide Served;
    hide Noticed;
    var s0 := Idle(y);
    var s1 := s0.(b := CALLED);
    var s2 := s0.(b := POSTED);
    var t := SetWireSeq(on);
    var s3 := Service(Do(y, t), false, Served(0), 0, map[0 := t], map[0 := y], map[0 := Do(y, t)]);
    var s4 := s3.(b := Noticed(0));
    var s5 := s3.(b := Returned(0));
    WebSteps();
    WebMove(s0, AdminBridge.Call);
    WebMove(s1, AdminBridge.Post);
    ServeStep(y, on);
    WebMove(s3, AdminBridge.WaitEnds(false));
    WebMove(s4, AdminBridge.ReadRc);
    RunFirst(s4, Web(AdminBridge.ReadRc), []);
    assert [Web(AdminBridge.ReadRc)] + [] == [Web(AdminBridge.ReadRc)];
    RunFirst(s3, Web(AdminBridge.WaitEnds(false)), [Web(AdminBridge.ReadRc)]);
    RunFirst(s2, Reactor(t, 0), [Web(AdminBridge.WaitEnds(false))] + [Web(AdminBridge.ReadRc)]);
    RunFirst(s1, Web(AdminBridge.Post),
             [Reactor(t, 0)] + ([Web(AdminBridge.WaitEnds(false))] + [Web(AdminBridge.ReadRc)]));
    RunFirst(s0, Web(AdminBridge.Call),
             [Web(AdminBridge.Post)] + ([Reactor(t, 0)]
             + ([Web(AdminBridge.WaitEnds(false))] + [Web(AdminBridge.ReadRc)])));
  }
}
