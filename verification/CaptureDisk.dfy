/** What a recording leaves on the device: chunk by chunk while it runs, and as
    a readable segment once it is stopped and drained. */
module CaptureDisk {
  import opened Bytes
  import opened Record
  import opened Readers
  import opened Capture
  import opened CaptureInvariant
  import opened CaptureRuns

  // ---- every chunk is done, lost or outstanding ----

  ghost predicate Outstanding(s: Cap, c: nat) {
    && c < |s.h.carrier|
    && (IoOf(s, c) in s.out || Waiting(s, c))
  }

  ghost predicate Waiting(s: Cap, c: nat)
    requires c < |s.h.carrier|
  {
    var i := s.h.carrier[c];
    i < |s.bufs| && s.waiter == Some(i) && s.bufs[i].chunk == c
  }

  ghost predicate CoverOk(s: Cap) {
    && (forall c :: 0 <= c < |s.h.placed| ==> c in s.h.done || c in s.h.lost || Outstanding(s, c))
    && (forall c :: c in s.h.done ==> c < |s.h.placed| && !Outstanding(s, c))
  }

  /** A step that submits nothing and completes nothing. */
  lemma CoverSame(s: Cap, r: Cap)
    requires CoverOk(s)
    requires r.cfg == s.cfg && r.start == s.start && r.out == s.out && r.waiter == s.waiter
    requires r.h.placed == s.h.placed && r.h.carrier == s.h.carrier
    requires r.h.done == s.h.done && s.h.lost <= r.h.lost
    requires |r.bufs| == |s.bufs| && forall i :: 0 <= i < |s.bufs| ==> r.bufs[i].chunk == s.bufs[i].chunk
    ensures CoverOk(r)
  {
    hide ChunkBlock;
    forall c ensures Outstanding(r, c) <==> Outstanding(s, c) {
    }
  }

  lemma FlushCover(s: Cap, final: bool, rc: Rc)
    requires CanFlush(s, final, rc) && CoverOk(s)
    ensures CoverOk(AfterFlush(s, final, rc))
  {
    hide ChunkBlock;
    hide Body;
    hide Flushed;
    assert Shape(s) by { BodyShape(s); }
    FlushDevice(s, final, rc);
    FlushFacts(s, final, rc);
    FlushHistory(s, final, rc);
    hide Shape;
    hide CanFlush;
    var r := AfterFlush(s, final, rc);
    forall c: nat | c < |s.h.placed| ensures Outstanding(r, c) <==> Outstanding(s, c) {
      FlushOutstanding(s, final, rc, c);
    }
  }

  lemma FlushHistory(s: Cap, final: bool, rc: Rc)
    requires CanFlush(s, final, rc)
    ensures var r := AfterFlush(s, final, rc);
            && r.h.done == s.h.done && r.h.lost == s.h.lost
            && |s.h.carrier| == |s.h.placed|
            && TargetOf(s, |s.h.placed|) == s.next
            && (s.waiter.Some? ==> s.waiter.value < |s.bufs| && s.bufs[s.waiter.value].chunk < |s.h.placed|)
  {
    hide BufsOk;
    hide ChunkBlock;
    hide OutOk;
    hide FlightOk;
    hide LogOk;
    hide BoundOk;
    hide Holds;
    hide ChunkFits;
    hide Pad;
    assert Shape(s) by { BodyShape(s); }
    if s.waiter.Some? {
      WaiterChunkKnown(s);
    }
  }

  lemma FlushOutstanding(s: Cap, final: bool, rc: Rc, c: nat)
    requires CanFlush(s, final, rc) && c < |s.h.placed|
    ensures Outstanding(AfterFlush(s, final, rc), c) <==> Outstanding(s, c)
  {
    hide ChunkBlock;
    hide BufsOk;
    hide OutOk;
    hide FlightOk;
    hide LogOk;
    hide BoundOk;
    assert Shape(s) by { BodyShape(s); }
    FlushDevice(s, final, rc);
    FlushFacts(s, final, rc);
    FlushHistory(s, final, rc);
    hide Flushed;
  }

  lemma StopCover(s: Cap, rcs: seq<Rc>)
    requires Body(s) && CoverOk(s) && !s.stopping
    requires !Hazard(StopRecording(s, rcs).h)
    ensures CoverOk(StopRecording(s, rcs))
  {
    hide Body;
    hide Flushed;
    assert Shape(s) by { BodyShape(s); }
    var r := StopFlush(s, rcs);
    if s.bufs[s.cur].used == 0 || !RoomFor(s.cfg, s.next) {
      CoverSame(s, r);
    } else {
      FlushCases(Stopped(s), rcs);
      FlushCover(s, true, FirstRc(rcs));
    }
    CoverSame(r, StopRecording(s, rcs));
  }

  lemma StopAnyCover(s: Cap, rcs: seq<Rc>)
    requires Body(s) && CoverOk(s)
    requires !Hazard(StopRecording(s, rcs).h)
    ensures CoverOk(StopRecording(s, rcs))
  {
    hide Body;
    assert Shape(s) by { BodyShape(s); }
    if s.stopping {
      StopTwice(s, rcs);
    } else {
      StopCover(s, rcs);
    }
  }

  lemma NoteCover(s: Cap, rcs: seq<Rc>)
    requires Body(s) && CoverOk(s)
    requires !Hazard(NoteWriteFailure(s, rcs).h)
    ensures CoverOk(NoteWriteFailure(s, rcs))
  {
    hide Body;
    hide StopRecording;
    hide CoverOk;
    assert Shape(s) by { BodyShape(s); }
    var t := s.(failures := s.failures + 1);
    CoreKeepsBody(s, t);
    CoverSame(s, t);
    var u := t.(reason := StopWriteFailures);
    CoreKeepsBody(s, u);
    CoverSame(s, u);
    if t.failures >= WRITE_FAILURE_THRESHOLD {
      StopAnyCover(u, rcs);
    }
  }

  /** The completed write's chunk is settled; every other chunk is as before. */
  lemma TakenCover(s: Cap, io: Io, ok: bool)
    requires Body(s) && CoverOk(s) && io in s.out && io.buf < MAX_WRITE_BUFFERS
    ensures var t := Taken(s, io);
            CoverOk(t.(h := if ok then t.h.(done := t.h.done + {io.chunk})
                            else t.h.(lost := t.h.lost + {io.chunk})))
  {
    assert Shape(s) by { BodyShape(s); }
    TakenNotOutstanding(s, io);
    TakenDevice(s, io);
    hide Body;
    hide Taken;
    hide CoverOk;
    hide Outstanding;
    var t := Taken(s, io);
    CoverSettled(s, t, io, ok);
  }

  lemma CoverSettled(s: Cap, t: Cap, io: Io, ok: bool)
    requires CoverOk(s) && !Outstanding(t, io.chunk) && io.chunk < |s.h.placed|
    requires t.waiter == s.waiter && t.h == s.h && t.cfg == s.cfg && t.start == s.start
    requires |t.bufs| == |s.bufs| && (forall i :: 0 <= i < |s.bufs| ==> t.bufs[i].chunk == s.bufs[i].chunk)
    requires forall io' :: io' != io ==> (io' in t.out <==> io' in s.out)
    ensures CoverOk(t.(h := if ok then t.h.(done := t.h.done + {io.chunk})
                            else t.h.(lost := t.h.lost + {io.chunk})))
  {
    hide TargetOf;
    var r := t.(h := if ok then t.h.(done := t.h.done + {io.chunk}) else t.h.(lost := t.h.lost + {io.chunk}));
    forall c: nat ensures Outstanding(r, c) <==> Outstanding(t, c) {
      SamePlace(t, r, c);
    }
    forall c: nat | c != io.chunk ensures Outstanding(t, c) <==> Outstanding(s, c) {
      SamePlace(s, t, c);
    }
    hide Outstanding;
  }

  lemma SamePlace(s: Cap, t: Cap, c: nat)
    requires t.start == s.start && t.cfg == s.cfg
    ensures TargetOf(t, c) == TargetOf(s, c)
  {
  }

  lemma TakenDevice(s: Cap, io: Io)
    requires Body(s) && io in s.out && io.buf < MAX_WRITE_BUFFERS
    ensures Shape(s)
    ensures var t := Taken(s, io);
            && t.waiter == s.waiter && t.h == s.h && t.cfg == s.cfg && t.start == s.start
            && |t.bufs| == |s.bufs| && (forall i :: 0 <= i < |s.bufs| ==> t.bufs[i].chunk == s.bufs[i].chunk)
            && (forall io' :: io' != io ==> (io' in t.out <==> io' in s.out))
    ensures io.chunk < |s.h.placed| == |s.h.carrier|
  {
    hide BufsOk;
    hide IoOk;
    hide ChunkBlock;
    hide FlightOk;
    hide LogOk;
    hide BoundOk;
    hide TscOk;
    hide WaiterOk;
    assert Shape(s) by { BodyShape(s); }
    IoChunkKnown(s, io);
  }

  lemma TakenNotOutstanding(s: Cap, io: Io)
    requires Body(s) && io in s.out && io.buf < MAX_WRITE_BUFFERS
    ensures !Outstanding(Taken(s, io), io.chunk)
  {
    hide BufsOk;
    hide IoOk;
    hide ChunkBlock;
    hide FlightOk;
    hide LogOk;
    hide BoundOk;
    assert Shape(s) by { BodyShape(s); }
    OutOnce(s, io);
    IoChunkKnown(s, io);
    if s.waiter.Some? {
      WaiterChunkKnown(s);
    }
  }

  lemma CompleteCover(s: Cap, io: Io, ok: bool, rcs: seq<Rc>)
    requires Inv(s) && CoverOk(s) && io in s.out && io.buf < MAX_WRITE_BUFFERS
    requires !Hazard(WriteComplete(s, io, ok, rcs).h)
    ensures CoverOk(WriteComplete(s, io, ok, rcs))
  {
    hide Body;
    hide CoverOk;
    assert Shape(s) by { BodyShape(s); }
    TakenCover(s, io, ok);
    TakenKeepsBody(s, io);
    hide Release;
    hide NoteWriteFailure;
    var t := Taken(s, io);
    if ok {
      CoverSame(t.(h := t.h.(done := t.h.done + {io.chunk})), WriteComplete(s, io, ok, rcs));
    } else {
      var v := t.(h := t.h.(lost := t.h.lost + {io.chunk}));
      CoreKeepsBody(t, v);
      NoteCover(v, rcs);
      CoverSame(NoteWriteFailure(v, rcs), WriteComplete(s, io, ok, rcs));
    }
  }

  lemma RetryCover(s: Cap, rcs: seq<Rc>)
    requires Inv(s) && CoverOk(s) && s.waiter.Some?
    requires !Hazard(RetryFires(s, rcs).h)
    ensures CoverOk(RetryFires(s, rcs))
  {
    RetryHasRoom(s);
    if FirstRc(rcs) == Accepted {
      ResubmittedCover(s);
    }
  }

  lemma ResubmittedCover(s: Cap)
    requires Inv(s) && CoverOk(s) && s.waiter.Some?
    ensures CoverOk(Resubmitted(s))
  {
    hide BufsOk;
    hide OutOk;
    hide ChunkBlock;
    hide Holds;
    hide FlightOk;
    hide LogOk;
    hide BoundOk;
    WaiterChunkKnown(s);
    var r := Resubmitted(s);
    var w := s.waiter.value;
    assert Io(w, s.bufs[w].target, s.bufs[w].chunk) == IoOf(s, s.bufs[w].chunk);
    forall c: nat ensures Outstanding(r, c) <==> Outstanding(s, c) {
    }
  }

  lemma AppendLimitCover(s: Cap, tsc: nat, payload: seq<byte>, rcs: seq<Rc>)
    requires Inv(s) && CoverOk(s) && CanAppend(s, tsc, payload)
    requires !Hazard(AppendAndCheckLimit(s, tsc, payload, rcs).s.h)
    ensures CoverOk(AppendAndCheckLimit(s, tsc, payload, rcs).s)
  {
    hide Body;
    hide CoverOk;
    hide StopRecording;
    hide Encode;
    hide Stored;
    assert Shape(s) by { BodyShape(s); }
    AppendKeeps(s, tsc, payload);
    var t := Append(s, tsc, payload);
    CoverSame(s, t);
    var u := t.(reason := StopCountLimit);
    CoreKeepsBody(t, u);
    CoverSame(t, u);
    if t.cfg.countLimit != 0 && t.recordCount >= t.cfg.countLimit {
      StopAnyCover(u, rcs);
    }
  }

  lemma FullFlushCover(s: Cap, rcs: seq<Rc>)
    requires Inv(s) && CoverOk(s) && !s.stopping && !s.bufs[s.cur].inFlight && RoomFor(s.cfg, s.next)
    requires !Hazard(FlushBuffer(s, rcs).h)
    ensures CoverOk(NextBuffer(FlushBuffer(s, rcs)))
  {
    hide Body;
    hide CoverOk;
    hide Flushed;
    assert Shape(s) by { BodyShape(s); }
    assert s.(stopping := false) == s;
    if s.bufs[s.cur].used > 0 {
      FlushCases(s, rcs);
      FlushCover(s, false, FirstRc(rcs));
    }
    CoverSame(FlushBuffer(s, rcs), NextBuffer(FlushBuffer(s, rcs)));
  }

  lemma OursCover(s: Cap, tsc: nat, payload: seq<byte>, rx: Rx)
    requires Inv(s) && CoverOk(s) && !s.stopping && Sized(tsc, payload)
    requires !Hazard(CaptureOurs(s, tsc, payload, rx).s.h)
    ensures CoverOk(CaptureOurs(s, tsc, payload, rx).s)
  {
    hide Body;
    hide CoverOk;
    hide FlushBuffer;
    hide StopRecording;
    hide AppendAndCheckLimit;
    assert Shape(s) by { BodyShape(s); }
    var b := s.bufs[s.cur];
    var size := RECORD_HDR + |payload|;
    if b.inFlight {
      CoverSame(s, Drop(s));
    } else if b.used + size <= s.cfg.bufSize {
      AppendLimitCover(s, tsc, payload, rx.stopRcs);
    } else if !RoomFor(s.cfg, s.next) {
      var t := Drop(s).(reason := StopDiskFull);
      CoreKeepsBody(s, t);
      CoverSame(s, t);
      StopAnyCover(t, rx.stopRcs);
    } else {
      OursCoverAfterFlush(s, tsc, payload, rx);
    }
  }

  lemma OursCoverAfterFlush(s: Cap, tsc: nat, payload: seq<byte>, rx: Rx)
    requires Inv(s) && CoverOk(s) && !s.stopping && Sized(tsc, payload)
    requires !s.bufs[s.cur].inFlight && RoomFor(s.cfg, s.next)
    requires s.bufs[s.cur].used + RECORD_HDR + |payload| > s.cfg.bufSize
    requires !Hazard(CaptureOurs(s, tsc, payload, rx).s.h)
    ensures CoverOk(CaptureOurs(s, tsc, payload, rx).s)
  {
    hide Body;
    hide CoverOk;
    hide FlushBuffer;
    hide StopRecording;
    hide AppendAndCheckLimit;
    assert Shape(s) by { BodyShape(s); }
    var t := NextBuffer(FlushBuffer(s, rx.flushRcs));
    if t.bufs[t.cur].inFlight || RECORD_HDR + |payload| > t.cfg.bufSize {
      FullFlushCover(s, rx.flushRcs);
      CoverSame(t, Drop(t));
    } else {
      AppendLimitCounts(t, tsc, payload, rx.stopRcs);
      FullFlushKeeps(s, rx.flushRcs);
      FullFlushCover(s, rx.flushRcs);
      AppendLimitCover(t, tsc, payload, rx.stopRcs);
    }
  }

  lemma {:induction false} PollCover(s: Cap, tsc: nat, burst: seq<Rx>)
    requires Inv(s) && CoverOk(s) && tsc < 0x1_0000_0000_0000_0000
    requires !Hazard(CapturePoll(s, tsc, burst).h)
    ensures CoverOk(CapturePoll(s, tsc, burst))
    decreases |burst|
  {
    hide Body;
    hide CoverOk;
    hide CaptureOurs;
    assert Shape(s) by { BodyShape(s); }
    if burst != [] {
      var p := CaptureFrame(s, tsc, burst[0]);
      if !p.stop {
        PollCounts(p.s, tsc, burst[1..]);
      }
      FrameKeeps(s, tsc, burst[0]);
      if !s.stopping && s.recording && OursIn(s.cfg, burst[0]).Some? {
        OursCover(s, tsc, OursIn(s.cfg, burst[0]).value, burst[0]);
      }
      if !p.stop {
        PollCover(p.s, tsc, burst[1..]);
      }
    }
  }

  lemma NextCover(s: Cap, e: Event)
    requires Inv(s) && CoverOk(s) && Enabled(s, e)
    requires !Hazard(Next(s, e).h)
    ensures CoverOk(Next(s, e))
  {
    hide Body;
    hide CoverOk;
    hide CapturePoll;
    hide WriteComplete;
    hide RetryFires;
    hide StopRecording;
    match e {
      case Poll(tsc, burst) => PollCover(s, tsc, burst);
      case Complete(io, ok, rcs) => CompleteCover(s, io, ok, rcs);
      case Retry(rcs) => RetryCover(s, rcs);
      case Stop(user, rcs) =>
        assert Shape(s) by { BodyShape(s); }
        var t := if user then s.(reason := StopUser) else s;
        CoreKeepsBody(s, t);
        CoverSame(s, t);
        if s.recording {
          StopAnyCover(t, rcs);
        }
    }
  }
}
