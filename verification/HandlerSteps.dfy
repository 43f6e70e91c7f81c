/** The functions of Capture and Store cut into the pieces in which the handlers
    of AppContext carry them out. */
module HandlerSteps {
  import opened Bytes
  import opened Record
  import opened Capture
  import opened CaptureRuns
  import opened Store

  /** The end of write_complete. */
  function Finished(s: Cap): Cap {
    FinalizeIfDrained(s.(pending := s.pending - 1))
  }

  /** write_complete up to its decrement of pending_writes. */
  function Noted(s: Cap, io: Io, ok: bool, rcs: seq<Rc>): (r: Cap)
    requires Shape(s) && io.buf < MAX_WRITE_BUFFERS
    ensures r.cfg == s.cfg && s.finals <= r.finals && (r.finals == s.finals ==> r.hwm == s.hwm)
  {
    var t := Release(s, io.buf).(out := s.out - multiset{io});
    if ok then t.(failures := 0, h := t.h.(done := t.h.done + {io.chunk}))
    else Capture.NoteWriteFailure(t.(h := t.h.(lost := t.h.lost + {io.chunk})), rcs)
  }

  lemma CompleteIs(s: Cap, io: Io, ok: bool, rcs: seq<Rc>)
    requires Shape(s) && io.buf < MAX_WRITE_BUFFERS && io in s.out
    ensures Capture.WriteComplete(s, io, ok, rcs) == Finished(Noted(s, io, ok, rcs))
  {
    hide Capture.NoteWriteFailure;
    hide Keeps;
    hide Shape;
  }

  lemma TakenIs(s: Cap, io: Io)
    requires Shape(s) && io.buf < MAX_WRITE_BUFFERS
    ensures Release(s, io.buf).(out := s.out - multiset{io})
         == s.(bufs := s.bufs[io.buf := s.bufs[io.buf].(inFlight := false, used := 0, recs := [])],
               out := s.out - multiset{io})
  {
    hide Keeps;
    hide Shape;
  }

  lemma FinishedProgress(s: Cap)
    ensures var r := Finished(s);
            r.cfg == s.cfg && s.finals <= r.finals && (r.finals == s.finals ==> r.hwm == s.hwm)
  {
  }

  /** A write given up, before the breaker looks at it. */
  function Abandoned(s: Cap, i: nat): Cap
    requires i < |s.bufs|
  {
    s.(bufs := s.bufs[i := s.bufs[i].(inFlight := false, used := 0, recs := [])],
       pending := s.pending - 1, h := s.h.(lost := s.h.lost + {s.bufs[i].chunk}))
  }

  function WithOptions(s: Cap, port: u16, limit: Option<u64>): Cap {
    s.(cfg := s.cfg.(port := if port != 0 then port else s.cfg.port,
                     countLimit := if limit.Some? then limit.value else s.cfg.countLimit))
  }

  function ClaimStart(m: Daemon, now: Clock): Daemon
    requires ENTRY_BYTES <= m.cap.cfg.bs
  {
    if m.nextSeg >= TOC_SLOT_COUNT then m
    else
      var m1 := m.(claiming := true, segId := m.nextSeg, cap := m.cap.(start := m.cap.hwm),
                   startSec := now.sec, startNsec := now.nsec);
      m1.(meta := EntryWrite(ClaimToc, m1.segId, OpenEntry(m1), m1.cap.cfg.bs))
  }

  lemma NextProgress(s: Cap)
    requires Shape(s) && Idle(s.bufs[s.cur])
    ensures var r := Capture.NextBuffer(s);
            r.cfg == s.cfg && r.finals == s.finals && r.hwm == s.hwm
  {
  }

  lemma FlushProgress(s: Cap, rcs: seq<Rc>)
    requires Shape(s)
    ensures var r := Capture.NextBuffer(Capture.FlushBuffer(s, rcs));
            r.cfg == s.cfg && s.finals <= r.finals && (r.finals == s.finals ==> r.hwm == s.hwm)
  {
    hide Capture.FlushBuffer;
  }

  /** capture_poll once the full buffer has been handed off. */
  function AfterFlushing(t: Cap, tsc: nat, payload: seq<byte>, rx: Rx): (r: PollStep)
    requires Shape(t) && (t.bufs[t.cur].inFlight || t.bufs[t.cur].used == 0)
    ensures r.s.cfg == t.cfg
  {
    if t.bufs[t.cur].inFlight || RECORD_HDR + |payload| > t.cfg.bufSize then PollStep(Capture.Drop(t), false)
    else Capture.AppendAndCheckLimit(t, tsc, payload, rx.stopRcs)
  }

  lemma AppendProgress(t: Cap, tsc: nat, payload: seq<byte>, rx: Rx)
    requires Shape(t) && (t.bufs[t.cur].inFlight || t.bufs[t.cur].used == 0)
    ensures var r := AfterFlushing(t, tsc, payload, rx).s;
            r.cfg == t.cfg && t.finals <= r.finals && (r.finals == t.finals ==> r.hwm == t.hwm)
  {
    hide Capture.AppendAndCheckLimit;
    if !t.bufs[t.cur].inFlight && RECORD_HDR + |payload| <= t.cfg.bufSize {
      AppendLimitCounts(t, tsc, payload, rx.stopRcs);
    }
  }

  lemma FrameProgress(s: Cap, tsc: nat, rx: Rx)
    requires Shape(s)
    ensures var r := Capture.CaptureFrame(s, tsc, rx).s;
            r.cfg == s.cfg && s.finals <= r.finals && (r.finals == s.finals ==> r.hwm == s.hwm)
  {
    hide Capture.CaptureOurs;
    if OursIn(s.cfg, rx).Some? {
      OursCounts(s, tsc, OursIn(s.cfg, rx).value, rx);
    }
  }

  function Extended(b: Buf, rec: Record): Buf
    requires b.used + RECORD_HDR + |rec.payload| <= |b.data|
  {
    b.(data := Stored(b.data, b.used, Encode(rec)), used := b.used + RECORD_HDR + |rec.payload|, recs := b.recs + [rec])
  }

  function Recorded(s: Cap, tsc: nat, rec: Record): Cap {
    s.(recordCount := s.recordCount + 1, firstTsc := if s.firstTsc == 0 then tsc else s.firstTsc, lastTsc := tsc,
       h := s.h.(log := s.h.log + [rec]))
  }

  lemma AppendKeepsConfig(s: Cap, tsc: nat, payload: seq<byte>)
    requires Shape(s) && s.bufs[s.cur].used + RECORD_HDR + |payload| <= s.cfg.bufSize
    ensures var r := Capture.Append(s, tsc, payload);
            r.cfg == s.cfg && r.finals == s.finals && r.hwm == s.hwm && Shape(r)
  {
    hide Stored;
    hide Encode;
    hide Shape;
  }

  lemma AppendIs(s: Cap, tsc: nat, payload: seq<byte>)
    requires Shape(s) && s.bufs[s.cur].used + RECORD_HDR + |payload| <= s.cfg.bufSize
    ensures var rec := Record(s.recordCount, tsc, payload);
            Capture.Append(s, tsc, payload)
            == Recorded(s.(bufs := s.bufs[s.cur := Extended(s.bufs[s.cur], rec)]), tsc, rec)
  {
    hide Stored;
    hide Encode;
  }

  function Marked(b: Buf, size: nat, target: nat, chunk: nat): Buf
    requires b.used <= size <= |b.data|
  {
    b.(data := Pad(b.data, b.used, size), inFlight := true, target := target, chunk := chunk)
  }

  function Counted(s: Cap, i: nat, b: Buf): Cap {
    s.(pending := s.pending + 1,
       h := s.h.(placed := s.h.placed + [b.recs], carrier := s.h.carrier + [i],
                 own := if b.inFlight then s.h.own else |s.h.placed| + 1,
                 retargeted := s.h.retargeted || s.waiter == Some(i)))
  }

  lemma HandOffIs(s: Cap)
    requires Shape(s)
    ensures var b := s.bufs[s.cur];
            HandOff(s) == Counted(s.(bufs := s.bufs[s.cur := Marked(b, s.cfg.bufSize, s.next, |s.h.placed|)]), s.cur, b)
  {
    hide Pad;
  }

  /** The end of flush_buffer: the next chunk goes behind this one. */
  function Advanced(s: Cap): Cap {
    s.(next := s.next + s.cfg.bufBlocks)
  }

  lemma ShapeSame(s: Cap, t: Cap)
    requires Shape(s) && t.bufs == s.bufs && t.cfg == s.cfg && t.cur == s.cur && t.waiter == s.waiter
    ensures Shape(t)
  {
  }

  lemma RetryIs(s: Cap, i: nat, rcs: seq<Rc>)
    requires Shape(s) && i < MAX_WRITE_BUFFERS
    ensures Capture.RetryFlush(s, i, rcs)
         == if !RoomFor(s.cfg, s.bufs[i].target) then Capture.DropWrite(s, i, rcs)
            else match FirstRc(rcs)
                 case Accepted => s.(out := s.out + multiset{Io(i, s.bufs[i].target, s.bufs[i].chunk)})
                 case NoMem => s.(waiter := Some(i), h := s.h.(clashed := s.h.clashed || s.waiter.Some?))
                 case Rejected => Capture.DropWrite(s.(h := s.h.(rejected := true)), i, LaterRcs(rcs))
  {
    hide Keeps;
    hide Capture.DropWrite;
  }

  lemma FlushIs(s: Cap, rcs: seq<Rc>)
    requires Shape(s)
    ensures Capture.FlushBuffer(s, rcs)
         == if s.bufs[s.cur].used == 0 then s
            else if !RoomFor(s.cfg, s.next) then TailDropped(s)
            else Advanced(Capture.RetryFlush(HandOff(s), s.cur, rcs))
  {
    hide Keeps;
    hide Pad;
    hide Capture.RetryFlush;
  }

  lemma DropWriteIs(s: Cap, i: nat, rcs: seq<Rc>)
    requires Shape(s) && i < MAX_WRITE_BUFFERS
    ensures Shape(Abandoned(s, i))
    ensures Capture.DropWrite(s, i, rcs) == FinalizeIfDrained(Capture.NoteWriteFailure(Abandoned(s, i), rcs))
  {
    hide Capture.NoteWriteFailure;
    hide Keeps;
    assert Abandoned(s, i) == Release(s, i).(pending := s.pending - 1, h := s.h.(lost := s.h.lost + {s.bufs[i].chunk}));
  }

  lemma AfterIs(m: Daemon, s: Cap)
    requires ENTRY_BYTES <= s.cfg.bs
    ensures AfterCapture(m, s).cap == s
    ensures s.finals == m.cap.finals ==> AfterCapture(m, s) == m.(cap := s)
  {
    hide VolumeBlock;
  }

  /** The finalize chain looks only at how often it was asked to start. */
  lemma AfterRebased(m: Daemon, s: Cap, t: Cap)
    requires ENTRY_BYTES <= t.cfg.bs && s.finals == m.cap.finals
    ensures AfterCapture(m.(cap := s), t) == AfterCapture(m, t)
  {
    hide VolumeBlock;
  }

  lemma AfterThen(m: Daemon, t: Cap, u: Cap)
    requires ENTRY_BYTES <= t.cfg.bs && u.cfg == t.cfg && m.cap.finals <= t.finals <= u.finals
    requires u.finals == t.finals ==> u.hwm == t.hwm
    ensures AfterCapture(AfterCapture(m, t), u) == AfterCapture(m, u)
  {
    hide VolumeBlock;
  }

  /** Two capture steps in a row, seen by the finalize chain. */
  lemma AfterTwice(m: Daemon, s: Cap, t: Cap, u: Cap)
    requires ENTRY_BYTES <= s.cfg.bs && s.finals == m.cap.finals
    requires t.cfg == s.cfg && u.cfg == s.cfg && s.finals <= t.finals <= u.finals
    requires u.finals == t.finals ==> u.hwm == t.hwm
    ensures AfterCapture(AfterCapture(m.(cap := s), t), u) == AfterCapture(m, u)
  {
    hide VolumeBlock;
  }
}
