/** struct app_context_t of main.c: the handlers that update it in place, proved
    against the functions of Capture and Store. */
module Context {
  import opened Bytes
  import opened Record
  import opened Device
  import opened Readers
  import opened Capture
  import opened CaptureRuns
  import opened Tuning
  import opened Store
  import opened WriteBuffers
  import opened HandlerSteps

  /** The live counters (atomics of app_context_t). */
  datatype Counters = Counters(records: nat, dropped: nat, firstTsc: nat, lastTsc: nat, reason: StopReason)

  /** The changing fields of ctx->vol. */
  datatype Vol = Vol(nextSegmentId: nat, nextDataBlock: nat, initSec: nat)

  /** The segment being claimed or recorded. */
  datatype Segment = Segment(id: nat, current: Option<nat>, claiming: bool, startSec: nat, startNsec: nat)

  /** What a quick format works on. */
  datatype Format = Format(staged: Volume, cursor: nat)

  /** Bookkeeping for the proofs. */
  datatype Trace = Trace(finals: nat, out: multiset<Io>, h: History)

  class AppContext {
    const buffers: seq<WriteBuf>
    const writeUnitBytes: nat
    var cfg: Config

    var curBuf: nat
    var segmentStartBlock: nat
    var nextWriteBlock: nat
    var pendingWrites: int
    var recording: bool
    var stopping: bool
    var writeFailures: nat
    var retryBuf: Option<nat>
    var counters: Counters
    var vol: Vol

    var segment: Segment
    var format: Format
    var meta: Option<Meta>
    var deleteRead: Option<nat>

    ghost var trace: Trace

    ghost function Memory(): set<object> {
      {this} + Objects(buffers)
    }

    ghost predicate Valid() {
      |buffers| == MAX_WRITE_BUFFERS && Separate(buffers)
    }

    ghost function Capturing(): Cap
      reads Memory()
    {
      Cap(cfg, Views(buffers), curBuf, segmentStartBlock, nextWriteBlock, pendingWrites, recording, stopping,
          writeFailures, counters.records, counters.dropped, counters.firstTsc, counters.lastTsc, counters.reason,
          vol.nextDataBlock, trace.finals, trace.out, retryBuf, trace.h)
    }

    ghost function View(): Daemon
      reads Memory()
    {
      Daemon(Capturing(), writeUnitBytes, vol.nextSegmentId, vol.initSec, segment.id, segment.current,
             segment.claiming, segment.startSec, segment.startNsec, meta, deleteRead, format.staged, format.cursor)
    }

    /** Enough for any handler of the capture path to touch its buffers. */
    ghost predicate Ready()
      reads Memory()
    {
      Valid() && Shape(View().cap) && ENTRY_BYTES <= View().cap.cfg.bs
    }

    /** A daemon that has read block 0: every buffer allocated and empty, nothing
        claimed, nothing in flight. */
    constructor (c: Config, unit: nat, d: Disk)
      requires |d| > 0 && |d[0]| >= VOLUME_BYTES
      ensures Valid() && fresh(Memory())
      ensures View() == Reload(View(), d, c) && writeUnitBytes == unit
      ensures View().cap.bufs == seq(MAX_WRITE_BUFFERS, _ => Buf(Zeros(MAX_WRITE_CHUNK_BYTES), 0, false, 0, [], 0))
    {
      hide DecodeVolume;
      hide Zeros;
      var bs: seq<WriteBuf> := [];
      while |bs| < MAX_WRITE_BUFFERS
        invariant |bs| <= MAX_WRITE_BUFFERS && Separate(bs)
        invariant forall j :: 0 <= j < |bs| ==>
                    && fresh(bs[j]) && fresh(bs[j].data)
                    && bs[j].View() == Buf(Zeros(MAX_WRITE_CHUNK_BYTES), 0, false, 0, [], 0)
      {
        var b := new WriteBuf();
        bs := bs + [b];
      }
      var v := DecodeVolume(d[0]);
      buffers, writeUnitBytes, cfg := bs, unit, c;
      curBuf, segmentStartBlock, nextWriteBlock, pendingWrites, writeFailures := 0, 0, 0, 0, 0;
      recording, stopping, retryBuf := false, false, None;
      counters := Counters(0, 0, 0, 0, StopNone);
      vol := Vol(v.nextSegmentId, v.nextDataBlock, v.initSec);
      segment := Segment(0, None, false, 0, 0);
      format := Format(VolumeFor(c.bs, 0, DATA_START, 0), DATA_START);
      meta, deleteRead := None, None;
      trace := Trace(0, multiset{}, NO_HISTORY);
    }

    lemma Fields()
      requires Valid()
      ensures var s := View().cap;
              && s.cfg == cfg && s.stopping == stopping && s.pending == pendingWrites
              && s.cur == curBuf && s.next == nextWriteBlock && s.failures == writeFailures
              && s.waiter == retryBuf && s.recording == recording && |s.bufs| == MAX_WRITE_BUFFERS
              && s.recordCount == counters.records
    {
    }

    lemma BufferFields(i: nat)
      requires Valid() && i < MAX_WRITE_BUFFERS
      ensures var s := View().cap;
              && |s.bufs| == MAX_WRITE_BUFFERS
              && s.bufs[i].used == buffers[i].used && s.bufs[i].target == buffers[i].target
              && s.bufs[i].inFlight == buffers[i].inFlight && s.bufs[i].chunk == buffers[i].chunk
              && |s.bufs[i].data| == buffers[i].data.Length
    {
    }

    // ---- finalize ----

    /** daemon_finalize_segment. */
    method FinalizeSegment()
      requires ENTRY_BYTES <= cfg.bs
      modifies this
      ensures View() == AfterCapture(old(View()), Finalize(old(View().cap)))
    {
      hide VolumeBlock;
      hide Views;
      vol := vol.(nextDataBlock := nextWriteBlock);
      meta := HeaderWrite(FinHeader, VolumeFor(cfg.bs, vol.nextSegmentId, vol.nextDataBlock, vol.initSec), cfg.bs);
      trace := trace.(finals := trace.finals + 1);
    }

    method FinalizeIfDrainedNow()
      requires Valid() && ENTRY_BYTES <= cfg.bs
      modifies this
      ensures View() == AfterCapture(old(View()), FinalizeIfDrained(old(View().cap)))
    {
      Fields();
      hide View;
      hide Views;
      hide VolumeBlock;
      if stopping && pendingWrites == 0 {
        FinalizeSegment();
      }
    }

    // ---- the write path ----

    method Submitted(i: nat)
      requires Valid() && i < MAX_WRITE_BUFFERS
      modifies this
      ensures var s := old(View().cap);
              var b := s.bufs[i];
              View() == old(View()).(cap := s.(out := s.out + multiset{Io(i, b.target, b.chunk)}))
    {
      hide Views;
      trace := trace.(out := trace.out + multiset{Io(i, buffers[i].target, buffers[i].chunk)});
    }

    /** spdk_bdev_queue_io_wait on the one wait entry. */
    method QueueWait(i: nat)
      modifies this
      ensures var s := old(View().cap);
              View() == old(View()).(cap := s.(waiter := Some(i), h := s.h.(clashed := s.h.clashed || s.waiter.Some?)))
    {
      hide Views;
      trace := trace.(h := trace.h.(clashed := trace.h.clashed || retryBuf.Some?));
      retryBuf := Some(i);
    }

    method MarkRejected()
      modifies this
      ensures var s := old(View().cap);
              View() == old(View()).(cap := s.(h := s.h.(rejected := true)))
    {
      hide Views;
      trace := trace.(h := trace.h.(rejected := true));
    }

    /** retry_flush; `rcs` are the device's answers. */
    method RetryFlush(i: nat, rcs: seq<Rc>)
      requires Ready() && i < MAX_WRITE_BUFFERS
      modifies Memory()
      ensures View() == AfterCapture(old(View()), Capture.RetryFlush(old(View().cap), i, rcs))
      decreases if stopping then 0 else 1, 4
    {
      Fields();
      ghost var m, s := View(), View().cap;
      BufferFields(i);
      hide View;
      hide Views;
      hide Shape;
      hide Keeps;
      hide Capture.RetryFlush;
      hide Capture.DropWrite;
      hide AfterCapture;
      RetryIs(s, i, rcs);
      AfterIs(m, Capture.RetryFlush(s, i, rcs));
      if buffers[i].target + cfg.bufBlocks > cfg.numBlocks {
        DropWrite(i, rcs);
        return;
      }
      match FirstRc(rcs) {
        case Accepted => Submitted(i);
        case NoMem => QueueWait(i);
        case Rejected => Refused(i, LaterRcs(rcs));
      }
    }

    method Refused(i: nat, rcs: seq<Rc>)
      requires Ready() && i < MAX_WRITE_BUFFERS
      modifies Memory()
      ensures var s := old(View().cap);
              View() == AfterCapture(old(View()), Capture.DropWrite(s.(h := s.h.(rejected := true)), i, rcs))
      decreases if stopping then 0 else 1, 3
    {
      Fields();
      ghost var m := View();
      hide View;
      hide Views;
      hide Shape;
      hide Keeps;
      hide Capture.DropWrite;
      hide AfterCapture;
      MarkRejected();
      Fields();
      ghost var t := View().cap;
      ShapeSame(m.cap, t);
      DropWrite(i, rcs);
      AfterRebased(m, t, Capture.DropWrite(t, i, rcs));
    }

    /** in_flight = false and used = 0. */
    method ClearBuffer(i: nat)
      requires Valid() && i < MAX_WRITE_BUFFERS
      modifies buffers[i]
      ensures var s := old(View().cap);
              View() == old(View()).(cap := s.(bufs := s.bufs[i := s.bufs[i].(inFlight := false, used := 0, recs := [])]))
    {
      ghost var was := Views(buffers);
      buffers[i].inFlight := false;
      buffers[i].used := 0;
      buffers[i].recs := [];
      OneBuffer(was, Views(buffers), i);
    }

    method CountLost(ghost chunk: nat)
      modifies this
      ensures var s := old(View().cap);
              View() == old(View()).(cap := s.(pending := s.pending - 1, h := s.h.(lost := s.h.lost + {chunk})))
    {
      hide Views;
      pendingWrites := pendingWrites - 1;
      trace := trace.(h := trace.h.(lost := trace.h.lost + {chunk}));
    }

    /** What both error branches of retry_flush do first. */
    method Abandon(i: nat)
      requires Valid() && i < MAX_WRITE_BUFFERS
      modifies Memory()
      ensures View() == old(View()).(cap := Abandoned(old(View().cap), i))
    {
      Fields();
      hide View;
      InObjects(buffers, i);
      BufferFields(i);
      hide Views;
      ghost var chunk := buffers[i].chunk;
      ClearBuffer(i);
      CountLost(chunk);
    }

    /** The error branches of retry_flush. */
    method DropWrite(i: nat, rcs: seq<Rc>)
      requires Ready() && i < MAX_WRITE_BUFFERS
      modifies Memory()
      ensures View() == AfterCapture(old(View()), Capture.DropWrite(old(View().cap), i, rcs))
      decreases if stopping then 0 else 1, 2
    {
      Fields();
      hide View;
      hide Views;
      hide Capture.NoteWriteFailure;
      hide AfterCapture;
      hide Capture.DropWrite;
      hide Abandoned;
      ghost var m := View();
      DropWriteIs(m.cap, i, rcs);
      Abandon(i);
      Fields();
      ghost var t := View().cap;
      NoteWriteFailure(rcs);
      ghost var u := Capture.NoteWriteFailure(t, rcs);
      AfterIs(m.(cap := t), u);
      Fields();
      FinalizeIfDrainedNow();
      AfterTwice(m, t, u, FinalizeIfDrained(u));
    }

    method CountFailure()
      modifies this
      ensures var s := old(View().cap);
              View() == old(View()).(cap := s.(failures := s.failures + 1))
    {
      hide Views;
      writeFailures := writeFailures + 1;
    }

    method SetReason(reason: StopReason)
      modifies this
      ensures var s := old(View().cap);
              View() == old(View()).(cap := s.(reason := reason))
    {
      hide Views;
      counters := counters.(reason := reason);
    }

    /** chrono_note_write_failure. */
    method NoteWriteFailure(rcs: seq<Rc>)
      requires Ready()
      modifies Memory()
      ensures View() == AfterCapture(old(View()), Capture.NoteWriteFailure(old(View().cap), rcs))
      decreases if stopping then 0 else 1, 1
    {
      Fields();
      hide View;
      hide Views;
      hide Capture.StopRecording;
      hide Shape;
      hide Keeps;
      ghost var s := View().cap;
      CountFailure();
      Fields();
      if writeFailures < WRITE_FAILURE_THRESHOLD {
        return;
      }
      SetReason(StopWriteFailures);
      Fields();
      ShapeSame(s, View().cap);
      StopRecording(rcs);
    }

    /** daemon_stop_recording. */
    method StopRecording(rcs: seq<Rc>)
      requires Ready()
      modifies Memory()
      ensures View() == AfterCapture(old(View()), Capture.StopRecording(old(View().cap), rcs))
      decreases if stopping then 0 else 1, 0
    {
      hide Views;
      hide Capture.FlushBuffer;
      if stopping {
        return;
      }
      ghost var m := View();
      stopping := true;
      ghost var s := View().cap;
      FlushBuffer(rcs);
      ghost var t := Capture.FlushBuffer(s, rcs);
      if pendingWrites == 0 {
        FinalizeSegment();
        AfterTwice(m, s, t, Finalize(t));
      }
    }

    /** flush_buffer of the current buffer. */
    method FlushBuffer(rcs: seq<Rc>)
      requires Ready()
      modifies Memory()
      ensures View() == AfterCapture(old(View()), Capture.FlushBuffer(old(View().cap), rcs))
      decreases if stopping then 0 else 1, 5
    {
      Fields();
      ghost var m, s := View(), View().cap;
      BufferFields(curBuf);
      hide View;
      hide Views;
      hide Capture.FlushBuffer;
      hide Capture.RetryFlush;
      hide HandOff;
      hide AfterCapture;
      FlushIs(s, rcs);
      AfterIs(m, Capture.FlushBuffer(s, rcs));
      if buffers[curBuf].used == 0 {
        return;
      }
      if nextWriteBlock + cfg.bufBlocks > cfg.numBlocks {
        DropFinal();
        return;
      }
      HandOffCurrent();
      Fields();
      ghost var t := View().cap;
      RetryFlush(curBuf, rcs);
      ghost var u := Capture.RetryFlush(t, s.cur, rcs);
      AfterIs(m.(cap := t), u);
      Advance();
      AfterTwice(m, t, u, Advanced(u));
      AfterIs(AfterCapture(m.(cap := t), u), Advanced(u));
    }

    method Advance()
      modifies this
      ensures var s := old(View().cap);
              View() == old(View()).(cap := Advanced(s))
    {
      hide Views;
      nextWriteBlock := nextWriteBlock + cfg.bufBlocks;
    }

    /** The zero-padding and marking of a hand-off. */
    method MarkInFlight(i: nat, ghost chunk: nat)
      requires Valid() && i < MAX_WRITE_BUFFERS
      requires buffers[i].used <= cfg.bufSize <= buffers[i].data.Length
      modifies buffers[i], buffers[i].data
      ensures var s := old(View().cap);
              var b := s.bufs[i];
              View() == old(View()).(cap := s.(bufs := s.bufs[i := Marked(b, s.cfg.bufSize, s.next, chunk)]))
    {
      hide Pad;
      ghost var was := Views(buffers);
      buffers[i].PadTo(cfg.bufSize);
      buffers[i].inFlight := true;
      buffers[i].target := nextWriteBlock;
      buffers[i].chunk := chunk;
      OneBuffer(was, Views(buffers), i);
    }

    method CountHandOff(ghost i: nat, ghost b: Buf)
      modifies this
      ensures View() == old(View()).(cap := Counted(old(View().cap), i, b))
    {
      hide Views;
      pendingWrites := pendingWrites + 1;
      ghost var h := trace.h;
      trace := trace.(h := h.(placed := h.placed + [b.recs], carrier := h.carrier + [i],
                              own := if b.inFlight then h.own else |h.placed| + 1,
                              retargeted := h.retargeted || retryBuf == Some(i)));
    }

    /** flush_buffer up to its call of retry_flush. */
    method HandOffCurrent()
      requires Ready()
      modifies Memory()
      ensures View() == old(View()).(cap := HandOff(old(View().cap)))
    {
      Fields();
      BufferFields(curBuf);
      hide View;
      hide Views;
      hide Pad;
      InObjects(buffers, curBuf);
      ghost var s := View().cap;
      var i := curBuf;
      MarkInFlight(i, |s.h.placed|);
      CountHandOff(i, s.bufs[i]);
      HandOffIs(s);
    }

    /** used = 0. */
    method EmptyBuffer(i: nat)
      requires Valid() && i < MAX_WRITE_BUFFERS
      modifies buffers[i]
      ensures var s := old(View().cap);
              View() == old(View()).(cap := s.(bufs := s.bufs[i := s.bufs[i].(used := 0, recs := [])]))
    {
      ghost var was := Views(buffers);
      buffers[i].used := 0;
      buffers[i].recs := [];
      OneBuffer(was, Views(buffers), i);
    }

    method SetTail(ghost tail: seq<Record>)
      modifies this
      ensures var s := old(View().cap);
              View() == old(View()).(cap := s.(h := s.h.(tail := tail)))
    {
      hide Views;
      trace := trace.(h := trace.h.(tail := tail));
    }

    /** The final buffer has no room and is dropped. */
    method DropFinal()
      requires Valid() && curBuf < MAX_WRITE_BUFFERS
      modifies Memory()
      ensures View() == old(View()).(cap := TailDropped(old(View().cap)))
    {
      Fields();
      hide View;
      InObjects(buffers, curBuf);
      hide Views;
      ghost var s := View().cap;
      ghost var b := s.bufs[s.cur];
      EmptyBuffer(curBuf);
      SetTail(if b.inFlight then s.h.tail else b.recs);
    }

    // ---- completions, retries and stop requests ----

    method TakeOut(ghost io: Io)
      modifies this
      ensures var s := old(View().cap);
              View() == old(View()).(cap := s.(out := s.out - multiset{io}))
    {
      hide Views;
      trace := trace.(out := trace.out - multiset{io});
    }

    method NoteSuccess(ghost chunk: nat)
      modifies this
      ensures var s := old(View().cap);
              View() == old(View()).(cap := s.(failures := 0, h := s.h.(done := s.h.done + {chunk})))
    {
      hide Views;
      writeFailures := 0;
      trace := trace.(h := trace.h.(done := trace.h.done + {chunk}));
    }

    method MarkLost(ghost chunk: nat)
      modifies this
      ensures var s := old(View().cap);
              View() == old(View()).(cap := s.(h := s.h.(lost := s.h.lost + {chunk})))
    {
      hide Views;
      trace := trace.(h := trace.h.(lost := trace.h.lost + {chunk}));
    }

    method OneLessPending()
      modifies this
      ensures var s := old(View().cap);
              View() == old(View()).(cap := s.(pending := s.pending - 1))
    {
      hide Views;
      pendingWrites := pendingWrites - 1;
    }

    /** write_complete for buffer i. */
    method WriteComplete(i: nat, ghost io: Io, ok: bool, rcs: seq<Rc>)
      requires Ready() && i < MAX_WRITE_BUFFERS && io in View().cap.out && io.buf == i
      modifies Memory()
      ensures View() == AfterCapture(old(View()), Capture.WriteComplete(old(View().cap), io, ok, rcs))
    {
      ghost var m, s := View(), View().cap;
      hide View;
      hide Views;
      hide Shape;
      hide Keeps;
      hide Capture.WriteComplete;
      hide AfterCapture;
      hide Noted;
      hide Finished;
      CompleteIs(s, io, ok, rcs);
      TakeOff(i, io, ok, rcs);
      ghost var u := Noted(s, io, ok, rcs);
      AfterIs(m, u);
      Fields();
      FinishWrite();
      FinishedProgress(u);
      AfterThen(m, u, Finished(u));
    }

    /** The end of write_complete. */
    method FinishWrite()
      requires Valid() && ENTRY_BYTES <= cfg.bs
      modifies this
      ensures View() == AfterCapture(old(View()), Finished(old(View().cap)))
    {
      Fields();
      ghost var m := View();
      hide View;
      hide Views;
      hide AfterCapture;
      OneLessPending();
      Fields();
      ghost var t := View().cap;
      FinalizeIfDrainedNow();
      AfterRebased(m, t, FinalizeIfDrained(t));
    }

    /** write_complete up to its decrement of pending_writes. */
    method TakeOff(i: nat, ghost io: Io, ok: bool, rcs: seq<Rc>)
      requires Ready() && i < MAX_WRITE_BUFFERS && io in View().cap.out && io.buf == i
      modifies Memory()
      ensures View() == AfterCapture(old(View()), Noted(old(View().cap), io, ok, rcs))
    {
      Fields();
      ghost var m, s := View(), View().cap;
      hide View;
      hide Views;
      hide Shape;
      hide Noted;
      hide AfterCapture;
      TakenIs(s, io);
      InObjects(buffers, i);
      ClearBuffer(i);
      TakeOut(io);
      ghost var t := View().cap;
      SettleWrite(io, ok, rcs, s);
      ghost var u := Noted(s, io, ok, rcs);
      AfterRebased(m, t, u);
    }

    method StopWaiting()
      modifies this
      ensures View() == old(View()).(cap := old(View().cap).(waiter := None))
    {
      hide Views;
      retryBuf := None;
    }

    /** The device calls the one wait entry back. */
    method RetryFires(rcs: seq<Rc>)
      requires Ready() && retryBuf.Some?
      modifies Memory()
      ensures View() == AfterCapture(old(View()), Capture.RetryFires(old(View().cap), rcs))
    {
      Fields();
      ghost var m := View();
      hide View;
      hide Views;
      hide Capture.RetryFlush;
      hide AfterCapture;
      var i := retryBuf.value;
      StopWaiting();
      Fields();
      ghost var t := View().cap;
      RetryFlush(i, rcs);
      AfterRebased(m, t, Capture.RetryFlush(t, i, rcs));
    }

    /** admin_do_recording_stop for a user, daemon_shutdown_cb for a signal. */
    method StopRequest(user: bool, rcs: seq<Rc>)
      requires Ready()
      modifies Memory()
      ensures View() == AfterCapture(old(View()), Capture.StopRequest(old(View().cap), user, rcs))
    {
      Fields();
      ghost var m := View();
      hide View;
      hide Views;
      hide Shape;
      hide Capture.StopRecording;
      hide AfterCapture;
      AfterIs(m, m.cap);
      if !recording {
        return;
      }
      if user {
        SetReason(StopUser);
        Fields();
      }
      ghost var t := View().cap;
      ShapeSame(m.cap, t);
      StopRecording(rcs);
      AfterRebased(m, t, Capture.StopRecording(t, rcs));
    }

    // ---- packets ----

    /** The record goes into the current buffer. */
    method StoreRecord(i: nat, seqNo: nat, tsc: nat, payload: seq<byte>)
      requires Valid() && i < MAX_WRITE_BUFFERS
      requires buffers[i].used + RECORD_HDR + |payload| <= buffers[i].data.Length
      modifies buffers[i], buffers[i].data
      ensures var s := old(View().cap);
              View() == old(View()).(cap := s.(bufs := s.bufs[i := Extended(s.bufs[i], Record(seqNo, tsc, payload))]))
    {
      hide Encode;
      hide Stored;
      ghost var was := Views(buffers);
      buffers[i].AppendRecord(seqNo, tsc, payload);
      OneBuffer(was, Views(buffers), i);
    }

    method CountRecord(tsc: nat, ghost rec: Record)
      modifies this
      ensures View() == old(View()).(cap := Recorded(old(View().cap), tsc, rec))
    {
      hide Views;
      counters := counters.(records := counters.records + 1,
                            firstTsc := if counters.firstTsc == 0 then tsc else counters.firstTsc, lastTsc := tsc);
      trace := trace.(h := trace.h.(log := trace.h.log + [rec]));
    }

    /** The tail of capture_poll's loop body up to the count limit. */
    method Append(tsc: nat, payload: seq<byte>)
      requires Ready()
      requires View().cap.bufs[curBuf].used + RECORD_HDR + |payload| <= cfg.bufSize
      modifies Memory()
      ensures View() == old(View()).(cap := Capture.Append(old(View().cap), tsc, payload))
    {
      Fields();
      BufferFields(curBuf);
      ghost var s := View().cap;
      assert s.cfg.bufSize <= buffers[curBuf].data.Length;
      AppendIs(s, tsc, payload);
      InObjects(buffers, curBuf);
      hide View;
      hide Views;
      hide Shape;
      hide Capture.Append;
      hide Extended;
      StoreRecord(curBuf, counters.records, tsc, payload);
      CountRecord(tsc, Record(s.recordCount, tsc, payload));
    }

    method AppendAndCheckLimit(tsc: nat, payload: seq<byte>, rcs: seq<Rc>) returns (stop: bool)
      requires Ready()
      requires View().cap.bufs[curBuf].used + RECORD_HDR + |payload| <= cfg.bufSize
      modifies Memory()
      ensures var p := Capture.AppendAndCheckLimit(old(View().cap), tsc, payload, rcs);
              View() == AfterCapture(old(View()), p.s) && stop == p.stop
    {
      Fields();
      ghost var m := View();
      hide View;
      hide Views;
      hide Shape;
      hide Keeps;
      hide Capture.Append;
      hide Capture.StopRecording;
      hide AfterCapture;
      Append(tsc, payload);
      AppendKeepsConfig(m.cap, tsc, payload);
      Fields();
      ghost var t := View().cap;
      AfterIs(m, t);
      if cfg.countLimit != 0 && counters.records >= cfg.countLimit {
        SetReason(StopCountLimit);
        Fields();
        ghost var u := View().cap;
        ShapeSame(t, u);
        StopRecording(rcs);
        AfterRebased(m, u, Capture.StopRecording(u, rcs));
        return true;
      }
      return false;
    }

    method Drop()
      modifies this
      ensures View() == old(View()).(cap := Capture.Drop(old(View().cap)))
    {
      hide Views;
      counters := counters.(dropped := counters.dropped + 1);
    }

    method NextBuffer()
      requires Ready() && Idle(View().cap.bufs[curBuf])
      modifies this
      ensures View() == old(View()).(cap := Capture.NextBuffer(old(View().cap)))
    {
      hide Views;
      curBuf := (curBuf + 1) % cfg.bufCount;
    }

    /** Device full: the packet is dropped and the recording stops. */
    method StopFull(rcs: seq<Rc>)
      requires Ready()
      modifies Memory()
      ensures var s := old(View().cap);
              View() == AfterCapture(old(View()), Capture.StopRecording(Capture.Drop(s).(reason := StopDiskFull), rcs))
    {
      Fields();
      ghost var m := View();
      hide View;
      hide Views;
      hide Shape;
      hide Keeps;
      hide Capture.StopRecording;
      hide AfterCapture;
      Drop();
      SetReason(StopDiskFull);
      Fields();
      ghost var t := View().cap;
      ShapeSame(m.cap, t);
      StopRecording(rcs);
      AfterRebased(m, t, Capture.StopRecording(t, rcs));
    }

    /** flush_buffer, then the next buffer round-robin. */
    method FlushAndAdvance(rcs: seq<Rc>)
      requires Ready()
      modifies Memory()
      ensures View() == AfterCapture(old(View()), Capture.NextBuffer(Capture.FlushBuffer(old(View().cap), rcs)))
    {
      Fields();
      ghost var m := View();
      hide View;
      hide Views;
      hide Shape;
      hide Capture.FlushBuffer;
      hide AfterCapture;
      FlushBuffer(rcs);
      ghost var t := Capture.FlushBuffer(m.cap, rcs);
      AfterIs(m, t);
      Fields();
      NextBuffer();
      NextProgress(t);
      AfterIs(AfterCapture(m, t), Capture.NextBuffer(t));
      AfterThen(m, t, Capture.NextBuffer(t));
    }

    /** A packet for the capture port. */
    method CaptureOurs(tsc: nat, payload: seq<byte>, rx: Rx) returns (stop: bool)
      requires Ready()
      modifies Memory()
      ensures var p := Capture.CaptureOurs(old(View().cap), tsc, payload, rx);
              View() == AfterCapture(old(View()), p.s) && stop == p.stop
    {
      Fields();
      ghost var m, s := View(), View().cap;
      BufferFields(curBuf);
      hide View;
      hide Views;
      hide Shape;
      hide Keeps;
      hide Capture.FlushBuffer;
      hide Capture.StopRecording;
      hide Capture.AppendAndCheckLimit;
      hide AfterCapture;
      var size := RECORD_HDR + |payload|;
      AfterIs(m, Capture.Drop(s));
      if buffers[curBuf].inFlight {
        Drop();
        return false;
      }
      if buffers[curBuf].used + size <= cfg.bufSize {
        stop := AppendAndCheckLimit(tsc, payload, rx.stopRcs);
        return;
      }
      if nextWriteBlock + cfg.bufBlocks > cfg.numBlocks {
        StopFull(rx.stopRcs);
        return true;
      }
      stop := CaptureAfterFlush(tsc, payload, rx);
    }

    method CaptureAfterFlush(tsc: nat, payload: seq<byte>, rx: Rx) returns (stop: bool)
      requires Ready()
      modifies Memory()
      ensures var t := Capture.NextBuffer(Capture.FlushBuffer(old(View().cap), rx.flushRcs));
              var p := AfterFlushing(t, tsc, payload, rx);
              View() == AfterCapture(old(View()), p.s) && stop == p.stop
    {
      Fields();
      ghost var m := View();
      hide View;
      hide Views;
      hide Shape;
      hide Keeps;
      hide Capture.FlushBuffer;
      hide Capture.AppendAndCheckLimit;
      hide AfterCapture;
      hide AfterFlushing;
      FlushAndAdvance(rx.flushRcs);
      ghost var t := Capture.NextBuffer(Capture.FlushBuffer(m.cap, rx.flushRcs));
      AfterIs(m, t);
      Fields();
      FlushProgress(m.cap, rx.flushRcs);
      stop := CaptureIntoNext(tsc, payload, rx);
      AppendProgress(t, tsc, payload, rx);
      AfterThen(m, t, AfterFlushing(t, tsc, payload, rx).s);
    }

    method CaptureIntoNext(tsc: nat, payload: seq<byte>, rx: Rx) returns (stop: bool)
      requires Ready() && (View().cap.bufs[curBuf].inFlight || View().cap.bufs[curBuf].used == 0)
      modifies Memory()
      ensures var p := AfterFlushing(old(View().cap), tsc, payload, rx);
              View() == AfterCapture(old(View()), p.s) && stop == p.stop
    {
      Fields();
      BufferFields(curBuf);
      hide View;
      hide Views;
      hide Shape;
      hide Capture.AppendAndCheckLimit;
      hide AfterCapture;
      AfterIs(View(), Capture.Drop(View().cap));
      if buffers[curBuf].inFlight || RECORD_HDR + |payload| > cfg.bufSize {
        Drop();
        return false;
      }
      stop := AppendAndCheckLimit(tsc, payload, rx.stopRcs);
    }

    /** One turn of capture_poll's loop. */
    method CaptureFrame(tsc: nat, rx: Rx) returns (stop: bool)
      requires Ready()
      modifies Memory()
      ensures var p := Capture.CaptureFrame(old(View().cap), tsc, rx);
              View() == AfterCapture(old(View()), p.s) && stop == p.stop
    {
      Fields();
      hide View;
      hide Views;
      hide Shape;
      hide Capture.CaptureOurs;
      hide AfterCapture;
      AfterIs(View(), View().cap);
      if stopping || !recording {
        return false;
      }
      match OursIn(cfg, rx) {
        case None => stop := false;
        case Some(payload) => stop := CaptureOurs(tsc, payload, rx);
      }
    }

    /** capture_poll: the burst is left early when a frame stops the recording. */
    method CapturePoll(tsc: nat, burst: seq<Rx>)
      requires Ready()
      modifies Memory()
      ensures View() == AfterCapture(old(View()), Capture.CapturePoll(old(View().cap), tsc, burst))
    {
      ghost var m := View();
      Fields();
      hide View;
      hide Views;
      hide Shape;
      hide Capture.CaptureFrame;
      hide AfterCapture;
      AfterIs(m, m.cap);
      assert burst[0..] == burst;
      var i := 0;
      while i < |burst|
        invariant i <= |burst| && Ready()
        invariant View() == AfterCapture(m, View().cap)
        invariant View().cap.cfg == m.cap.cfg && m.cap.finals <= View().cap.finals
        invariant View().cap.finals == m.cap.finals ==> View().cap.hwm == m.cap.hwm
        invariant Capture.CapturePoll(View().cap, tsc, burst[i..]) == Capture.CapturePoll(m.cap, tsc, burst)
      {
        ghost var s := View().cap;
        var stop := CaptureFrame(tsc, burst[i]);
        ghost var p := Capture.CaptureFrame(s, tsc, burst[i]);
        AfterIs(AfterCapture(m, s), p.s);
        FrameProgress(s, tsc, burst[i]);
        AfterThen(m, s, p.s);
        assert burst[i..][1..] == burst[i + 1..];
        if stop {
          return;
        }
        Fields();
        i := i + 1;
      }
    }

    /** The middle of write_complete: the outcome is noted. */
    method SettleWrite(ghost io: Io, ok: bool, rcs: seq<Rc>, ghost s: Cap)
      requires Valid() && Shape(s) && io.buf < MAX_WRITE_BUFFERS && ENTRY_BYTES <= s.cfg.bs
      requires View().cap == Release(s, io.buf).(out := s.out - multiset{io})
      modifies Memory()
      ensures View() == AfterCapture(old(View()), Noted(s, io, ok, rcs))
    {
      Fields();
      ghost var m := View();
      hide View;
      hide Views;
      hide Keeps;
      hide Capture.NoteWriteFailure;
      hide AfterCapture;
      if ok {
        NoteSuccess(io.chunk);
        AfterIs(m, View().cap);
      } else {
        MarkLost(io.chunk);
        Fields();
        ghost var t := View().cap;
        ShapeSame(m.cap, t);
        NoteWriteFailure(rcs);
        AfterRebased(m, t, Capture.NoteWriteFailure(t, rcs));
      }
    }

    // ---- claim ----

    /** admin_do_recording_start. */
    method RecordingStart(port: u16, limit: Option<u64>, now: Clock)
      requires Valid() && ENTRY_BYTES <= cfg.bs
      modifies this
      ensures View() == Store.RecordingStart(old(View()), port, limit, now)
    {
      Fields();
      hide View;
      hide Views;
      hide EntryBlock;
      if recording {
        return;
      }
      ApplyOptions(port, limit);
      Fields();
      if cfg.port == 0 {
        return;
      }
      ClaimSegmentStart(now);
    }

    method ApplyOptions(port: u16, limit: Option<u64>)
      modifies this
      ensures View() == old(View()).(cap := WithOptions(old(View().cap), port, limit))
    {
      hide Views;
      if port != 0 {
        cfg := cfg.(port := port);
      }
      if limit.Some? {
        cfg := cfg.(countLimit := limit.value);
      }
    }

    /** daemon_claim_segment_start. */
    method ClaimSegmentStart(now: Clock)
      requires ENTRY_BYTES <= cfg.bs
      modifies this
      ensures View() == ClaimStart(old(View()), now)
    {
      hide Views;
      hide EntryBlock;
      if vol.nextSegmentId >= TOC_SLOT_COUNT {
        return;
      }
      segment := Segment(vol.nextSegmentId, segment.current, true, now.sec, now.nsec);
      segmentStartBlock := vol.nextDataBlock;
      var e := Entry(SEGMENT_MAGIC, segment.id, STATE_OPEN, segmentStartBlock, 0, cfg.bufSize,
                     0, 0, 0, 0, 0, segment.startSec, segment.startNsec, 0, 0);
      meta := EntryWrite(ClaimToc, segment.id, e, cfg.bs);
    }

    /** daemon_claim_toc_write_complete. */
    method ClaimTocWriteComplete(ok: bool)
      requires ENTRY_BYTES <= cfg.bs
      modifies this
      ensures View() == ClaimTocDone(old(View()), ok)
    {
      hide Views;
      hide VolumeBlock;
      if !ok {
        segment := segment.(claiming := false);
        meta := None;
        return;
      }
      vol := vol.(nextSegmentId := vol.nextSegmentId + 1);
      meta := HeaderWrite(ClaimHeader, VolumeFor(cfg.bs, vol.nextSegmentId, vol.nextDataBlock, vol.initSec), cfg.bs);
    }

    /** The loop that empties all buffers, in use or not. */
    method ResetBuffers()
      requires Valid()
      modifies buffers
      ensures |Views(buffers)| == MAX_WRITE_BUFFERS
      ensures forall j :: 0 <= j < MAX_WRITE_BUFFERS ==>
                Views(buffers)[j] == old(Views(buffers)[j]).(used := 0, inFlight := false, recs := [])
    {
      for i := 0 to MAX_WRITE_BUFFERS
        invariant forall j :: 0 <= j < i ==>
                    buffers[j].View() == old(buffers[j].View()).(used := 0, inFlight := false, recs := [])
        invariant forall j :: i <= j < MAX_WRITE_BUFFERS ==> buffers[j].View() == old(buffers[j].View())
      {
        buffers[i].used := 0;
        buffers[i].inFlight := false;
        buffers[i].recs := [];
      }
    }

    /** daemon_claim_header_write_complete. */
    method ClaimHeaderWriteComplete(ok: bool)
      requires Valid() && Allocated(View().cap)
      modifies Memory()
      ensures View() == ClaimHeaderDone(old(View()), ok)
    {
      if !ok {
        GiveUpClaim();
        return;
      }
      ghost var s := View().cap;
      AllInObjects(buffers);
      ResetBuffers();
      assert Views(buffers) == BeginSegment(s).bufs;
      hide Views;
      ResetCounts();
      BeginRecording();
    }

    method ResetCounts()
      modifies this
      ensures var s := old(View().cap);
              View() == old(View()).(cap := s.(recordCount := 0, dropped := 0, firstTsc := 0, lastTsc := 0,
                                               reason := StopNone, failures := 0, finals := 0, h := NO_HISTORY))
    {
      hide Views;
      counters := Counters(0, 0, 0, 0, StopNone);
      writeFailures := 0;
      trace := trace.(finals := 0, h := NO_HISTORY);
    }

    method GiveUpClaim()
      modifies this
      ensures View() == old(View()).(claiming := false, meta := None)
    {
      hide Views;
      segment := segment.(claiming := false);
      meta := None;
    }

    method BeginRecording()
      modifies this
      ensures var m := old(View());
              var s := m.cap;
              View() == m.(cap := s.(cur := 0, next := s.start, stopping := false, recording := true),
                           currentSeg := Some(m.segId), claiming := false, meta := None)
    {
      hide Views;
      nextWriteBlock := segmentStartBlock;
      curBuf := 0;
      stopping := false;
      segment := segment.(current := Some(segment.id), claiming := false);
      recording := true;
      meta := None;
    }

    // ---- finalize ----

    /** daemon_finalize_header_write_complete: the TOC entry is rebuilt from scratch. */
    method FinalizeHeaderWriteComplete(now: Clock)
      requires ENTRY_BYTES <= cfg.bs && segmentStartBlock <= nextWriteBlock
      modifies this
      ensures View() == FinHeaderDone(old(View()), now)
    {
      hide Views;
      hide EntryBlock;
      var e := Entry(SEGMENT_MAGIC, segment.id, STATE_FINALIZED, segmentStartBlock, nextWriteBlock - segmentStartBlock,
                     cfg.bufSize, U64(counters.records), U64(counters.dropped), U64(counters.firstTsc),
                     U64(counters.lastTsc), now.hz, segment.startSec, segment.startNsec, now.sec, now.nsec);
      meta := EntryWrite(FinToc, segment.id, e, cfg.bs);
    }

    /** daemon_finalize_toc_write_complete. */
    method FinalizeTocWriteComplete()
      modifies this
      ensures View() == FinTocDone(old(View()))
    {
      hide Views;
      recording := false;
      segment := segment.(current := None);
      meta := None;
    }

    // ---- quick format ----

    /** daemon_quick_format_zero_toc_chunk. */
    method ZeroTocChunk()
      requires ENTRY_BYTES <= cfg.bs && format.cursor <= format.staged.dataStartBlock
      modifies this
      ensures View() == FormatNext(old(View()))
    {
      hide Views;
      hide VolumeBlock;
      hide ZeroBlocks;
      if format.cursor >= format.staged.dataStartBlock {
        meta := HeaderWrite(FmtHeader, format.staged, cfg.bs);
        return;
      }
      var left := format.staged.dataStartBlock - format.cursor;
      var piece := if left < cfg.bufBlocks then left else cfg.bufBlocks;
      meta := Some(Meta(FmtZero, format.cursor, ZeroBlocks(piece, cfg.bs)));
    }

    /** admin_do_quick_format, then daemon_quick_format_start. */
    method QuickFormat(sec: u64)
      requires ENTRY_BYTES <= cfg.bs
      modifies this
      ensures View() == Store.QuickFormat(old(View()), sec)
    {
      hide Views;
      hide FormatNext;
      if recording {
        return;
      }
      ghost var m := View();
      format := Format(VolumeFor(cfg.bs, 0, DATA_START, sec), TOC_START);
      assert View() == m.(staged := format.staged, cursor := format.cursor);
      ZeroTocChunk();
    }

    /** daemon_quick_format_zero_toc_chunk_write_complete. */
    method ZeroTocChunkWriteComplete(ok: bool)
      requires ENTRY_BYTES <= cfg.bs && format.cursor <= format.staged.dataStartBlock
      modifies this
      ensures View() == FmtZeroDone(old(View()), ok)
    {
      hide Views;
      hide FormatNext;
      if !ok {
        meta := None;
        return;
      }
      ghost var m := View();
      var left := format.staged.dataStartBlock - format.cursor;
      format := format.(cursor := format.cursor + (if left < cfg.bufBlocks then left else cfg.bufBlocks));
      assert View() == m.(cursor := m.cursor + ZeroPiece(m));
      ZeroTocChunk();
    }

    /** daemon_quick_format_write_header_complete. */
    method FormatHeaderWriteComplete(ok: bool)
      modifies this
      ensures View() == FmtHeaderDone(old(View()), ok)
    {
      hide Views;
      meta := None;
      if !ok {
        return;
      }
      vol := Vol(format.staged.nextSegmentId, format.staged.nextDataBlock, format.staged.initSec);
      nextWriteBlock := format.staged.dataStartBlock;
      counters := counters.(records := 0, dropped := 0, firstTsc := 0, lastTsc := 0);
    }

    // ---- delete ----

    /** admin_do_segment_delete. */
    method SegmentDelete(slot: nat)
      modifies this
      ensures View() == Store.SegmentDelete(old(View()), slot)
    {
      hide Views;
      if recording && segment.current == Some(slot) {
        return;
      }
      deleteRead := Some(slot);
    }

    /** admin_delete_read_complete: io_buf holds the slot's TOC block, and its state
        field is overwritten in place. */
    method DeleteReadComplete(ok: bool, ioBuf: array<byte>, ghost d: Disk)
      requires Valid() && deleteRead.Some? && Readable(d, deleteRead.value)
      requires ioBuf[..] == d[TOC_START + deleteRead.value] && ioBuf !in Memory()
      modifies this, ioBuf
      ensures View() == DeleteReadDone(old(View()), d, ok)
    {
      hide Views;
      hide DecodeEntry;
      hide MarkDeleted;
      var slot := deleteRead.value;
      deleteRead := None;
      if !ok {
        return;
      }
      var view := Classify(DecodeEntry(ioBuf[..]));
      if view == NotFound || view == Deleted {
        return;
      }
      OverwriteState(ioBuf, STATE_DELETED);
      meta := Some(Meta(DeleteWrite, TOC_START + slot, [ioBuf[..]]));
    }

    // ---- live tuning ----

    /** admin_do_write_chunk, then daemon_set_write_chunk_bytes. */
    method SetWriteChunk(bytes: nat)
      requires 0 < writeUnitBytes <= 0x8000_0000 && cfg.bs > 0
      modifies this
      ensures View() == SetConfig(old(View()), WithChunk(old(cfg), writeUnitBytes, bytes))
    {
      hide Views;
      if recording || segment.claiming {
        return;
      }
      if bytes < MIN_WRITE_CHUNK_BYTES || bytes > MAX_WRITE_CHUNK_BYTES {
        return;
      }
      var size := RoundUp(writeUnitBytes, bytes);
      cfg := cfg.(bufSize := size, bufBlocks := size / cfg.bs);
    }

    /** admin_do_write_buffers, then daemon_set_write_buf_count. */
    method SetWriteBuffers(count: nat)
      modifies this
      ensures View() == SetConfig(old(View()), WithBuffers(old(cfg), count))
    {
      hide Views;
      if recording || segment.claiming {
        return;
      }
      if count < 1 || count > MAX_WRITE_BUFFERS {
        return;
      }
      cfg := cfg.(bufCount := count);
    }

    /** admin_do_wire_has_seq, then daemon_set_wire_has_seq. */
    method SetWireHasSeq(on: bool)
      modifies this
      ensures View() == SetConfig(old(View()), Some(old(cfg).(withSeq := on)))
    {
      hide Views;
      if recording || segment.claiming {
        return;
      }
      cfg := cfg.(withSeq := on);
    }

    // ---- the handlers are the state machine ----

    /** Whatever the capture path is told, it does what the state machine does. */
    method Handle(e: Event)
      requires Ready() && Enabled(View().cap, e)
      modifies Memory()
      ensures View() == AfterCapture(old(View()), Next(old(View().cap), e))
    {
      Fields();
      hide View;
      hide Views;
      hide Shape;
      hide AfterCapture;
      hide Capture.CapturePoll;
      hide Capture.WriteComplete;
      hide Capture.RetryFires;
      hide Capture.StopRequest;
      match e {
        case Poll(tsc, burst) => CapturePoll(tsc, burst);
        case Complete(io, ok, rcs) => WriteComplete(io.buf, io, ok, rcs);
        case Retry(rcs) => RetryFires(rcs);
        case Stop(user, rcs) => StopRequest(user, rcs);
      }
    }

    /** And so does the completion of any metadata write. */
    method MetaWriteComplete(ok: bool, now: Clock)
      requires Valid() && MemoryOk(View()) && meta.Some?
      modifies Memory()
      ensures View() == Completed(old(View()), ok, now)
    {
      MetaFields();
      hide View;
      hide Views;
      hide ClaimTocDone;
      hide ClaimHeaderDone;
      hide FinHeaderDone;
      hide FinTocDone;
      hide FmtZeroDone;
      hide FmtHeaderDone;
      match meta.value.cb {
        case ClaimToc => ClaimTocWriteComplete(ok);
        case ClaimHeader => ClaimHeaderWriteComplete(ok);
        case FinHeader => FinalizeHeaderWriteComplete(now);
        case FinToc => FinalizeTocWriteComplete();
        case FmtZero => ZeroTocChunkWriteComplete(ok);
        case FmtHeader => FormatHeaderWriteComplete(ok);
        case DeleteWrite => DeleteWriteComplete();
      }
    }

    lemma MetaFields()
      ensures var m := View();
              && m.meta == meta && m.cap.cfg == cfg && m.cursor == format.cursor && m.staged == format.staged
              && m.cap.start == segmentStartBlock && m.cap.next == nextWriteBlock
    {
    }

    /** admin_delete_write_complete. */
    method DeleteWriteComplete()
      modifies this
      ensures View() == old(View()).(meta := None)
    {
      hide Views;
      meta := None;
    }
  }

  /** chrono_round_write_chunk. */
  method RoundUp(unit: nat, requested: nat) returns (size: nat)
    requires 0 < unit <= 0x8000_0000
    ensures size == RoundWriteChunk(unit, requested)
  {
    var clamped := requested;
    if clamped < MIN_WRITE_CHUNK_BYTES {
      clamped := MIN_WRITE_CHUNK_BYTES;
    }
    if clamped > MAX_WRITE_CHUNK_BYTES {
      clamped := MAX_WRITE_CHUNK_BYTES;
    }
    assert clamped == Clamp(requested);
    size := RoundToUnit(unit, clamped);
  }

  /** The 32-bit state field of a TOC entry, in place. */
  method OverwriteState(block: array<byte>, state: nat)
    requires block.Length >= ENTRY_BYTES && state == STATE_DELETED
    modifies block
    ensures block[..] == MarkDeleted(old(block[..]))
  {
    var field := LE(state, 4);
    forall k | 0 <= k < 4 {
      block[STATE_OFFSET + k] := field[k];
    }
    assert block[..STATE_OFFSET] == old(block[..])[..STATE_OFFSET];
    assert block[STATE_OFFSET..STATE_OFFSET + 4] == field;
    assert block[STATE_OFFSET + 4..] == old(block[..])[STATE_OFFSET + 4..];
  }
}
