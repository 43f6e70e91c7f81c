/** Whole runs of a recording: bursts of packets, completions in any order, late
    retries and stops. */
module CaptureRuns {
  import opened Bytes
  import opened Record
  import opened Readers
  import opened Capture
  import opened CaptureInvariant

  // ---- the remaining events keep the invariant ----

  /** Every chunk handed off lies below next_write_block. */
  lemma TargetBelowNext(s: Cap, c: nat)
    requires PlaceOk(s) && c < |s.h.placed|
    ensures TargetOf(s, c) + s.cfg.bufBlocks <= s.next <= s.cfg.numBlocks
    ensures s.start <= TargetOf(s, c)
  {
    ChunkOrder(s.start, c, |s.h.placed|, s.cfg.bufBlocks);
  }

  /** Chunk ranges of a segment follow one another. */
  lemma ChunkOrder(start: nat, c: nat, c': nat, n: nat)
    requires c < c'
    ensures start <= ChunkBlock(start, c, n)
    ensures ChunkBlock(start, c, n) + n <= ChunkBlock(start, c', n)
  {
    NextChunk(start, c, n);
    BelowDevice(c + 1, c', n);
  }

  /** A late retry is never abandoned: its target was inside the device when it
      was fixed, and the device does not shrink. */
  lemma RetryHasRoom(s: Cap)
    requires Body(s) && s.waiter.Some?
    ensures RoomFor(s.cfg, s.bufs[s.waiter.value].target)
  {
    hide BufsOk;
    hide OutOk;
    hide LogOk;
    WaiterChunkKnown(s);
    TargetBelowNext(s, s.bufs[s.waiter.value].chunk);
  }

  lemma RetryKeeps(s: Cap, rcs: seq<Rc>)
    requires Inv(s) && s.waiter.Some?
    requires !Hazard(RetryFires(s, rcs).h)
    ensures Inv(RetryFires(s, rcs))
    ensures FirstRc(rcs) == NoMem ==> RetryFires(s, rcs) == s
  {
    RetryHasRoom(s);
    if FirstRc(rcs) == Accepted {
      RetryAccepted(s);
    }
  }

  function Resubmitted(s: Cap): Cap
    requires s.waiter.Some? && s.waiter.value < |s.bufs|
  {
    var w := s.waiter.value;
    s.(waiter := None, out := s.out + multiset{Io(w, s.bufs[w].target, s.bufs[w].chunk)})
  }

  lemma RetryAccepted(s: Cap)
    requires Inv(s) && s.waiter.Some?
    ensures Inv(Resubmitted(s))
  {
    WaiterChunkKnown(s);
    hide BufsOk;
    hide PlacedOk;
    hide PlaceOk;
    hide OutOk;
    hide FlightOk;
    hide LogOk;
    hide BoundOk;
    hide TscOk;
    ResubmittedRest(s);
    ResubmittedOut(s);
    ResubmittedDevice(s);
    hide WaiterOk;
    hide Resubmitted;
    hide Debt;
  }

  lemma ResubmittedDevice(s: Cap)
    requires s.waiter.Some? && s.waiter.value < |s.bufs|
    ensures var r := Resubmitted(s);
            && WaiterOk(r) && Debt(r) == Debt(s) && r.pending == s.pending && r.next == s.next
            && r.stopping == s.stopping && r.finals == s.finals && r.hwm == s.hwm && r.failures == s.failures
            && r.cfg == s.cfg && r.recordCount == s.recordCount
  {
  }

  /** The clauses that do not look at the device. */
  lemma ResubmittedRest(s: Cap)
    requires BufsOk(s) && PlacedOk(s) && PlaceOk(s) && FlightOk(s) && LogOk(s) && BoundOk(s) && TscOk(s)
    requires s.waiter.Some? && s.waiter.value < |s.bufs|
    ensures var r := Resubmitted(s);
            BufsOk(r) && PlacedOk(r) && PlaceOk(r) && FlightOk(r) && LogOk(r) && BoundOk(r) && TscOk(r)
  {
    hide BufOk;
    hide ConfigOk;
    hide ChunkFits;
    hide Image;
    hide ChunkBlock;
    hide BytesOf;
    hide FirstTsc;
  }

  lemma ResubmittedOut(s: Cap)
    requires OutOk(s) && WaiterOk(s) && s.waiter.Some? && s.waiter.value < |s.bufs|
    ensures OutOk(Resubmitted(s))
  {
    hide IoOk;
    hide Holds;
    hide ChunkBlock;
    WaiterChunkKnown(s);
    var r := Resubmitted(s);
    forall io | io in r.out ensures IoOk(r, io) {
      if io in s.out {
        IoChunkKnown(s, io);
        IoUnaffected(s, r, io);
      } else {
        ResubmittedIo(s);
      }
    }
  }

  lemma ResubmittedIo(s: Cap)
    requires WaiterOk(s) && s.waiter.Some?
    ensures var io := Io(s.waiter.value, s.bufs[s.waiter.value].target, s.bufs[s.waiter.value].chunk);
            IoOk(Resubmitted(s), io)
  {
    hide Image;
    hide ChunkBlock;
    SameImage(s.cfg, s.bufs[s.waiter.value], Resubmitted(s).bufs[s.waiter.value],
              s.h.placed[s.bufs[s.waiter.value].chunk]);
  }

  lemma StopRequestKeeps(s: Cap, user: bool, rcs: seq<Rc>)
    requires Inv(s)
    requires !Hazard(StopRequest(s, user, rcs).h)
    ensures Inv(StopRequest(s, user, rcs))
  {
    hide Body;
    hide StopRecording;
    assert Shape(s) by { BodyShape(s); }
    var t := if user then s.(reason := StopUser) else s;
    CoreKeepsBody(s, t);
    if s.recording {
      StopKeepsInv(t, rcs);
    }
  }

  lemma StopKeepsInv(s: Cap, rcs: seq<Rc>)
    requires Body(s) && Debt(s) == 0 && FinalOk(s) && BreakerOk(s)
    requires s.cfg.countLimit != 0 ==> s.recordCount <= s.cfg.countLimit
    requires !Hazard(StopRecording(s, rcs).h)
    ensures Inv(StopRecording(s, rcs))
  {
    hide Body;
    assert Shape(s) by { BodyShape(s); }
    if s.stopping {
      StopTwice(s, rcs);
    } else {
      StopKeeps(s, rcs);
    }
  }

  // ---- packets ----

  ghost predicate Sized(tsc: nat, payload: seq<byte>) {
    tsc < 0x1_0000_0000_0000_0000 && |payload| < 0x1_0000_0000
  }

  lemma AppendAndLimitKeeps(s: Cap, tsc: nat, payload: seq<byte>, rcs: seq<Rc>)
    requires Inv(s) && CanAppend(s, tsc, payload)
    requires !Hazard(AppendAndCheckLimit(s, tsc, payload, rcs).s.h)
    ensures Inv(AppendAndCheckLimit(s, tsc, payload, rcs).s)
  {
    hide Body;
    hide StopRecording;
    assert Shape(s) by { BodyShape(s); }
    AppendKeeps(s, tsc, payload);
    var t := Append(s, tsc, payload);
    var u := t.(reason := StopCountLimit);
    CoreKeepsBody(t, u);
    if t.cfg.countLimit != 0 && t.recordCount >= t.cfg.countLimit {
      StopKeepsInv(u, rcs);
    }
  }

  lemma DropKeeps(s: Cap)
    requires Inv(s)
    ensures Inv(Drop(s))
  {
    hide Body;
    CoreKeepsBody(s, Drop(s));
  }

  /** The flush of a full buffer inside capture_poll. */
  lemma FullFlushKeeps(s: Cap, rcs: seq<Rc>)
    requires Inv(s) && !s.stopping && !s.bufs[s.cur].inFlight && RoomFor(s.cfg, s.next)
    requires !Hazard(FlushBuffer(s, rcs).h)
    ensures Inv(NextBuffer(FlushBuffer(s, rcs)))
    ensures !FlushBuffer(s, rcs).stopping
  {
    hide Body;
    hide Flushed;
    assert Shape(s) by { BodyShape(s); }
    assert s.(stopping := false) == s;
    if s.bufs[s.cur].used > 0 {
      FlushCases(s, rcs);
      FlushKeepsBody(s, false, FirstRc(rcs));
      FlushDebt(s, false, FirstRc(rcs));
      FlushDevice(s, false, FirstRc(rcs));
      FlushFacts(s, false, FirstRc(rcs));
    }
    NextBufferKeeps(FlushBuffer(s, rcs));
  }

  lemma OursKeeps(s: Cap, tsc: nat, payload: seq<byte>, rx: Rx)
    requires Inv(s) && !s.stopping && Sized(tsc, payload)
    requires !Hazard(CaptureOurs(s, tsc, payload, rx).s.h)
    ensures Inv(CaptureOurs(s, tsc, payload, rx).s)
  {
    hide Body;
    hide FlushBuffer;
    hide StopRecording;
    hide AppendAndCheckLimit;
    assert Shape(s) by { BodyShape(s); }
    var b := s.bufs[s.cur];
    var size := RECORD_HDR + |payload|;
    if b.inFlight {
      DropKeeps(s);
    } else if b.used + size <= s.cfg.bufSize {
      AppendAndLimitKeeps(s, tsc, payload, rx.stopRcs);
    } else if !RoomFor(s.cfg, s.next) {
      var t := Drop(s).(reason := StopDiskFull);
      CoreKeepsBody(s, t);
      StopKeepsInv(t, rx.stopRcs);
    } else {
      OursAfterFlush(s, tsc, payload, rx);
    }
  }

  lemma OursAfterFlush(s: Cap, tsc: nat, payload: seq<byte>, rx: Rx)
    requires Inv(s) && !s.stopping && Sized(tsc, payload)
    requires !s.bufs[s.cur].inFlight && RoomFor(s.cfg, s.next)
    requires s.bufs[s.cur].used + RECORD_HDR + |payload| > s.cfg.bufSize
    requires !Hazard(CaptureOurs(s, tsc, payload, rx).s.h)
    ensures Inv(CaptureOurs(s, tsc, payload, rx).s)
  {
    hide Body;
    hide FlushBuffer;
    hide StopRecording;
    assert Shape(s) by { BodyShape(s); }
    var t := NextBuffer(FlushBuffer(s, rx.flushRcs));
    if t.bufs[t.cur].inFlight || RECORD_HDR + |payload| > t.cfg.bufSize {
      FullFlushKeeps(s, rx.flushRcs);
      DropKeeps(t);
    } else {
      AppendLimitCounts(t, tsc, payload, rx.stopRcs);
      FullFlushKeeps(s, rx.flushRcs);
      AppendAndLimitKeeps(t, tsc, payload, rx.stopRcs);
    }
  }

  /** What one packet may do: it grows the segment and is counted exactly once. */
  ghost predicate Counts(s: Cap, r: Cap) {
    && Grows(s, r) && r.h.done == s.h.done
    && s.recordCount <= r.recordCount && s.dropped <= r.dropped
    && r.recordCount + r.dropped == s.recordCount + s.dropped + 1
  }

  /** The packet is in the log, next in line, exactly if it was counted as a record. */
  ghost predicate Logged(s: Cap, r: Cap, tsc: nat, payload: seq<byte>) {
    r.h.log == if r.recordCount > s.recordCount then s.h.log + [Record(s.recordCount, tsc, payload)]
               else s.h.log
  }

  lemma AppendLimitCounts(s: Cap, tsc: nat, payload: seq<byte>, rcs: seq<Rc>)
    requires Shape(s) && s.bufs[s.cur].used + RECORD_HDR + |payload| <= s.cfg.bufSize
    ensures Counts(s, AppendAndCheckLimit(s, tsc, payload, rcs).s)
    ensures Logged(s, AppendAndCheckLimit(s, tsc, payload, rcs).s, tsc, payload)
  {
    hide StopRecording;
    hide Encode;
    hide Stored;
  }

  /** Conservation, packet by packet: a packet for the capture port raises
      exactly one of record_count and dropped_count, whatever the device does. */
  lemma OursCounts(s: Cap, tsc: nat, payload: seq<byte>, rx: Rx)
    requires Shape(s)
    ensures Counts(s, CaptureOurs(s, tsc, payload, rx).s)
    ensures Logged(s, CaptureOurs(s, tsc, payload, rx).s, tsc, payload)
  {
    hide FlushBuffer;
    hide StopRecording;
    hide AppendAndCheckLimit;
    var b := s.bufs[s.cur];
    var size := RECORD_HDR + |payload|;
    if !b.inFlight && b.used + size <= s.cfg.bufSize {
      AppendLimitCounts(s, tsc, payload, rx.stopRcs);
    } else if !b.inFlight && RoomFor(s.cfg, s.next) {
      var t := NextBuffer(FlushBuffer(s, rx.flushRcs));
      if !t.bufs[t.cur].inFlight && size <= t.cfg.bufSize {
        AppendLimitCounts(t, tsc, payload, rx.stopRcs);
      }
    }
  }

  lemma FrameKeeps(s: Cap, tsc: nat, rx: Rx)
    requires Inv(s) && tsc < 0x1_0000_0000_0000_0000
    requires !Hazard(CaptureFrame(s, tsc, rx).s.h)
    ensures Inv(CaptureFrame(s, tsc, rx).s)
  {
    hide Body;
    hide CaptureOurs;
    assert Shape(s) by { BodyShape(s); }
    if !s.stopping && s.recording && OursIn(s.cfg, rx).Some? {
      OursKeeps(s, tsc, OursIn(s.cfg, rx).value, rx);
    }
  }

  /** Packets for the capture port that a burst takes in before it ends or
      stops the recording. */
  function OursTaken(s: Cap, tsc: nat, burst: seq<Rx>): nat
    requires Shape(s)
    decreases |burst|
  {
    if burst == [] || s.stopping || !s.recording then 0
    else
      var p := CaptureFrame(s, tsc, burst[0]);
      (if OursIn(s.cfg, burst[0]).Some? then 1 else 0)
      + (if p.stop then 0 else OursTaken(p.s, tsc, burst[1..]))
  }

  /** Conservation, burst by burst. */
  lemma {:induction false} PollCounts(s: Cap, tsc: nat, burst: seq<Rx>)
    requires Shape(s)
    ensures var r := CapturePoll(s, tsc, burst);
            && Grows(s, r) && r.h.done == s.h.done
            && s.recordCount <= r.recordCount && s.dropped <= r.dropped
            && r.recordCount + r.dropped == s.recordCount + s.dropped + OursTaken(s, tsc, burst)
    decreases |burst|
  {
    hide CaptureOurs;
    if burst != [] {
      var p := CaptureFrame(s, tsc, burst[0]);
      if OursIn(s.cfg, burst[0]).Some? {
        OursCounts(s, tsc, OursIn(s.cfg, burst[0]).value, burst[0]);
      }
      if !p.stop {
        PollCounts(p.s, tsc, burst[1..]);
      }
    }
  }

  lemma {:induction false} PollKeeps(s: Cap, tsc: nat, burst: seq<Rx>)
    requires Inv(s) && tsc < 0x1_0000_0000_0000_0000
    requires !Hazard(CapturePoll(s, tsc, burst).h)
    ensures Inv(CapturePoll(s, tsc, burst))
    decreases |burst|
  {
    hide Body;
    hide CaptureFrame;
    assert Shape(s) by { BodyShape(s); }
    if burst != [] {
      var p := CaptureFrame(s, tsc, burst[0]);
      if !p.stop {
        PollCounts(p.s, tsc, burst[1..]);
        FrameKeeps(s, tsc, burst[0]);
        PollKeeps(p.s, tsc, burst[1..]);
      } else {
        FrameKeeps(s, tsc, burst[0]);
      }
    }
  }

  // ---- runs ----

  datatype Event =
    | Poll(tsc: u64, burst: seq<Rx>)
    | Complete(io: Io, ok: bool, rcs: seq<Rc>)
    | Retry(rcs: seq<Rc>)
    | Stop(user: bool, rcs: seq<Rc>)

  predicate Enabled(s: Cap, e: Event) {
    match e
    case Complete(io, _, _) => io in s.out && io.buf < MAX_WRITE_BUFFERS
    case Retry(_) => s.waiter.Some?
    case _ => true
  }

  function Next(s: Cap, e: Event): (r: Cap)
    requires Shape(s) && Enabled(s, e)
    ensures Shape(r)
  {
    match e
    case Poll(tsc, burst) => CapturePoll(s, tsc, burst)
    case Complete(io, ok, rcs) => WriteComplete(s, io, ok, rcs)
    case Retry(rcs) => RetryFires(s, rcs)
    case Stop(user, rcs) => StopRequest(s, user, rcs)
  }

  /** A run: any events in any order, as long as each is possible. */
  function Run(s: Cap, es: seq<Event>): (r: Option<Cap>)
    requires Shape(s)
    ensures r.Some? ==> Shape(r.value)
    decreases |es|
  {
    if es == [] then Some(s)
    else if Enabled(s, es[0]) then Run(Next(s, es[0]), es[1..]) else None
  }

  lemma NextGrows(s: Cap, e: Event)
    requires Shape(s) && Enabled(s, e)
    ensures Grows(s, Next(s, e))
  {
    hide Grows;
    hide Shape;
    hide CapturePoll;
    hide WriteComplete;
    hide RetryFires;
    hide StopRequest;
    match e {
      case Poll(tsc, burst) => PollCounts(s, tsc, burst);
      case Complete(io, ok, rcs) => CompleteGrows(s, io, ok, rcs);
      case Retry(rcs) => RetryGrows(s, rcs);
      case Stop(user, rcs) => StopGrows(s, user, rcs);
    }
  }

  lemma CompleteGrows(s: Cap, io: Io, ok: bool, rcs: seq<Rc>)
    requires Shape(s) && io in s.out && io.buf < MAX_WRITE_BUFFERS
    ensures Grows(s, WriteComplete(s, io, ok, rcs))
  {
    hide NoteWriteFailure;
  }

  lemma RetryGrows(s: Cap, rcs: seq<Rc>)
    requires Shape(s) && s.waiter.Some?
    ensures Grows(s, RetryFires(s, rcs))
  {
    hide RetryFlush;
  }

  lemma StopGrows(s: Cap, user: bool, rcs: seq<Rc>)
    requires Shape(s)
    ensures Grows(s, StopRequest(s, user, rcs))
  {
    hide StopRecording;
  }

  lemma NextKeeps(s: Cap, e: Event)
    requires Inv(s) && Enabled(s, e)
    requires !Hazard(Next(s, e).h)
    ensures Inv(Next(s, e))
  {
    hide Body;
    hide CapturePoll;
    hide WriteComplete;
    hide RetryFires;
    hide StopRequest;
    match e {
      case Poll(tsc, burst) => PollKeeps(s, tsc, burst);
      case Complete(io, ok, rcs) => CompleteKeeps(s, io, ok, rcs);
      case Retry(rcs) => RetryKeeps(s, rcs);
      case Stop(user, rcs) => StopRequestKeeps(s, user, rcs);
    }
  }

  lemma {:induction false} RunGrows(s: Cap, es: seq<Event>)
    requires Shape(s) && Run(s, es).Some?
    ensures Grows(s, Run(s, es).value)
    decreases |es|
  {
    hide Next;
    if es != [] {
      NextGrows(s, es[0]);
      RunGrows(Next(s, es[0]), es[1..]);
    }
  }

  /** The invariant holds after every hazard-free run. */
  lemma {:induction false} RunKeeps(s: Cap, es: seq<Event>)
    requires Inv(s) && Run(s, es).Some? && !Hazard(Run(s, es).value.h)
    ensures Inv(Run(s, es).value)
    decreases |es|
  {
    hide Inv;
    hide Next;
    InvShape(s);
    if es != [] {
      var t := Next(s, es[0]);
      RunGrows(t, es[1..]);
      NextKeeps(s, es[0]);
      RunKeeps(t, es[1..]);
    }
  }

  lemma InvShape(s: Cap)
    requires Inv(s)
    ensures Shape(s)
  {
  }

  /** A claim starts a segment in a state that satisfies the invariant. */
  lemma BeginIsSound(s: Cap)
    requires Allocated(s) && ConfigOk(s.cfg) && s.start <= s.cfg.numBlocks
    requires s.pending == 0 && s.out == multiset{} && s.waiter.None?
    ensures Inv(BeginSegment(s))
  {
    hide Image;
    hide ChunkFits;
    hide IoOk;
    hide Holds;
    hide ConfigOk;
    BeginBufs(s);
    BeginPlace(s);
    hide BufsOk;
    hide PlaceOk;
  }

  lemma BeginBufs(s: Cap)
    requires Allocated(s) && ConfigOk(s.cfg)
    ensures BufsOk(BeginSegment(s))
  {
    var r := BeginSegment(s);
    assert EncodeAll([]) == [];
    forall i | 0 <= i < MAX_WRITE_BUFFERS ensures BufOk(r.cfg, r.bufs[i]) {
      assert r.bufs[i].recs == [] && r.bufs[i].used == 0;
    }
    hide BufOk;
  }

  lemma BeginPlace(s: Cap)
    requires Allocated(s) && s.start <= s.cfg.numBlocks
    ensures PlaceOk(BeginSegment(s))
  {
    assert ChunkBlock(s.start, 0, s.cfg.bufBlocks) == s.start;
  }

  // ---- after a stop ----

  /** Nothing is recorded or handed off any more: the counts, the place of the
      next chunk and every byte of every buffer stay as they are. */
  ghost predicate Frozen(s: Cap, r: Cap) {
    && r.next == s.next && r.h.log == s.h.log && r.h.placed == s.h.placed && r.h.own == s.h.own
    && r.h.tail == s.h.tail
    && r.recordCount == s.recordCount && r.dropped == s.dropped
    && r.firstTsc == s.firstTsc && r.lastTsc == s.lastTsc
    && |r.bufs| == |s.bufs|
    && forall i :: 0 <= i < |s.bufs| ==> r.bufs[i].data == s.bufs[i].data && r.bufs[i].target == s.bufs[i].target
  }

  lemma NoteFrozen(s: Cap, rcs: seq<Rc>)
    requires Shape(s) && s.stopping
    ensures Frozen(s, NoteWriteFailure(s, rcs))
  {
    StopTwice(s.(failures := s.failures + 1, reason := StopWriteFailures), rcs);
  }

  lemma RetryFrozen(s: Cap, i: nat, rcs: seq<Rc>)
    requires Shape(s) && i < MAX_WRITE_BUFFERS && s.stopping
    ensures Frozen(s, RetryFlush(s, i, rcs))
  {
    hide NoteWriteFailure;
    if !RoomFor(s.cfg, s.bufs[i].target) {
      DropFrozen(s, i, rcs);
    } else if FirstRc(rcs) == Rejected {
      DropFrozen(s.(h := s.h.(rejected := true)), i, LaterRcs(rcs));
    }
  }

  lemma DropFrozen(s: Cap, i: nat, rcs: seq<Rc>)
    requires Shape(s) && i < MAX_WRITE_BUFFERS && s.stopping
    ensures Frozen(s, DropWrite(s, i, rcs))
  {
    hide NoteWriteFailure;
    NoteFrozen(Release(s, i).(pending := s.pending - 1,
                              h := s.h.(lost := s.h.lost + {s.bufs[i].chunk})), rcs);
  }

  lemma CompleteFrozen(s: Cap, io: Io, ok: bool, rcs: seq<Rc>)
    requires Shape(s) && io in s.out && io.buf < MAX_WRITE_BUFFERS && s.stopping
    ensures Frozen(s, WriteComplete(s, io, ok, rcs))
  {
    hide NoteWriteFailure;
    if !ok {
      var t := Release(s, io.buf).(out := s.out - multiset{io});
      NoteFrozen(t.(h := t.h.(lost := t.h.lost + {io.chunk})), rcs);
    }
  }

  lemma {:induction false} PollFrozen(s: Cap, tsc: nat, burst: seq<Rx>)
    requires Shape(s) && s.stopping
    ensures CapturePoll(s, tsc, burst) == s
    decreases |burst|
  {
    if burst != [] {
      PollFrozen(s, tsc, burst[1..]);
    }
  }

  /** Once a recording is stopping, no event hands anything off, whatever the
      device answers. */
  lemma NextFrozen(s: Cap, e: Event)
    requires Shape(s) && Enabled(s, e) && s.stopping
    ensures Frozen(s, Next(s, e))
  {
    hide CapturePoll;
    hide WriteComplete;
    hide RetryFlush;
    match e {
      case Poll(tsc, burst) => PollFrozen(s, tsc, burst);
      case Complete(io, ok, rcs) => CompleteFrozen(s, io, ok, rcs);
      case Retry(rcs) => RetryFrozen(s.(waiter := None), s.waiter.value, rcs);
      case Stop(user, rcs) => StopTwice(s.(reason := StopUser), rcs);
    }
  }
}
