/** Where the write path's promises stop, for every answer of the device: writes
    refused outright, which can start the finalize chain more than once, and a
    stop that hands a waiting buffer off again. */
module CaptureLimits {
  import opened Bytes
  import opened Record
  import opened Capture
  import opened CaptureInvariant
  import opened CaptureRuns
  import opened CaptureDisk
  import opened CaptureTheorems
  import opened HandlerSteps

  /** The final flush of a stop has nothing to submit. */
  predicate NothingToFlush(s: Cap)
    requires s.cur < |s.bufs|
  {
    s.bufs[s.cur].used == 0 || !RoomFor(s.cfg, s.next)
  }

  // ---- one hand-off, for every answer ----

  lemma NothingFlushed(s: Cap, rcs: seq<Rc>)
    requires Shape(s) && NothingToFlush(s)
    ensures FlushBuffer(s, rcs) == if s.bufs[s.cur].used == 0 then s else TailDropped(s)
  {
    hide Keeps;
    hide RetryFlush;
    FlushIs(s, rcs);
  }

  lemma HandOffFacts(s: Cap)
    requires Shape(s)
    ensures var a := HandOff(s);
            && a.bufs[s.cur].target == s.next && a.bufs[s.cur].chunk == |s.h.placed|
            && a.pending == s.pending + 1 && a.finals == s.finals && a.stopping == s.stopping
            && a.failures == s.failures && a.next == s.next && a.cfg == s.cfg && a.start == s.start
            && a.out == s.out && a.waiter == s.waiter && |a.bufs| == |s.bufs| && a.cur == s.cur
            && a.hwm == s.hwm && a.recording == s.recording && a.h.done == s.h.done && a.h.lost == s.h.lost
            && a.h.clashed == s.h.clashed && a.h.rejected == s.h.rejected
            && a.h.retargeted == (s.h.retargeted || s.waiter == Some(s.cur))
            && (forall i :: 0 <= i < |s.bufs| && i != s.cur ==> a.bufs[i] == s.bufs[i])
  {
    hide Pad;
  }

  /** The device takes the write or asks to retry it. */
  lemma FlushSubmits(s: Cap, rcs: seq<Rc>)
    requires Shape(s) && !NothingToFlush(s) && FirstRc(rcs) != Rejected
    ensures FlushBuffer(s, rcs) == Flushed(s, FirstRc(rcs))
  {
    hide Keeps;
    hide FlushBuffer;
    hide RetryFlush;
    hide DropWrite;
    FlushIs(s, rcs);
    HandOffFacts(s);
    RetryIs(HandOff(s), s.cur, rcs);
    hide HandOff;
  }

  lemma FlushedFacts(s: Cap, rc: Rc)
    requires Shape(s)
    ensures var r := Flushed(s, rc);
            && r.pending == s.pending + 1 && r.finals == s.finals && r.stopping == s.stopping
            && r.waiter == (if rc == NoMem then Some(s.cur) else s.waiter)
            && r.bufs[s.cur].target == s.next && r.bufs[s.cur].chunk == |s.h.placed|
            && (forall i :: 0 <= i < |s.bufs| && i != s.cur ==> r.bufs[i] == s.bufs[i])
            && |r.bufs| == |s.bufs|
            && (Hazard(r.h) <==> Hazard(s.h) || s.waiter == Some(s.cur) || (rc == NoMem && s.waiter.Some?))
  {
    HandOffFacts(s);
    hide HandOff;
  }

  /** A hand-off whose write is refused, before the breaker looks at it. */
  function RefusedHandOff(s: Cap): Cap
    requires Shape(s)
  {
    Abandoned(HandOff(s).(h := HandOff(s).h.(rejected := true)), s.cur)
  }

  lemma FlushRefused(s: Cap, rcs: seq<Rc>)
    requires Shape(s) && !NothingToFlush(s) && FirstRc(rcs) == Rejected
    ensures Shape(RefusedHandOff(s))
    ensures FlushBuffer(s, rcs)
         == Advanced(FinalizeIfDrained(NoteWriteFailure(RefusedHandOff(s), LaterRcs(rcs))))
  {
    hide Keeps;
    hide FlushBuffer;
    hide RetryFlush;
    hide DropWrite;
    hide NoteWriteFailure;
    FlushIs(s, rcs);
    HandOffFacts(s);
    RetryIs(HandOff(s), s.cur, rcs);
    var t := HandOff(s).(h := HandOff(s).h.(rejected := true));
    ShapeSame(HandOff(s), t);
    DropWriteIs(t, s.cur, LaterRcs(rcs));
    hide HandOff;
  }

  lemma RefusedHandOffFacts(s: Cap)
    requires Shape(s)
    ensures var t := RefusedHandOff(s);
            && t.pending == s.pending && t.finals == s.finals && t.stopping == s.stopping
            && t.failures == s.failures && t.cur == s.cur && |t.bufs| == |s.bufs|
            && t.bufs[s.cur].used == 0 && !t.bufs[s.cur].inFlight && t.bufs[s.cur].target == s.next
            && t.next == s.next && t.cfg == s.cfg && t.out == s.out && t.waiter == s.waiter
            && t.recording == s.recording && t.start == s.start && t.h.rejected
            && (forall i :: 0 <= i < |s.bufs| && i != s.cur ==> t.bufs[i] == s.bufs[i])
  {
    HandOffFacts(s);
    hide HandOff;
  }

  // ---- one failure noted, and one stop, for every answer ----

  /** A failure before the fifth is only counted. */
  lemma EarlyFailure(s: Cap, rcs: seq<Rc>)
    requires Shape(s) && s.failures + 1 < WRITE_FAILURE_THRESHOLD
    ensures NoteWriteFailure(s, rcs) == s.(failures := s.failures + 1)
  {
    hide StopRecording;
    hide Keeps;
    hide Shape;
  }

  /** The fifth failure stops the recording. */
  lemma FifthFailure(s: Cap, rcs: seq<Rc>)
    requires Shape(s) && s.failures + 1 >= WRITE_FAILURE_THRESHOLD
    ensures NoteWriteFailure(s, rcs) == StopRecording(FifthNoted(s), rcs)
  {
    hide StopRecording;
    hide Keeps;
    hide Shape;
  }

  function FifthNoted(s: Cap): Cap {
    s.(failures := s.failures + 1).(reason := StopWriteFailures)
  }

  lemma NoteWhileStopping(s: Cap, rcs: seq<Rc>)
    requires Shape(s) && s.stopping
    ensures var r := NoteWriteFailure(s, rcs);
            && r.stopping && r.pending == s.pending && r.finals == s.finals && r.bufs == s.bufs
            && r.waiter == s.waiter && r.h == s.h && r.out == s.out && r.next == s.next && r.cfg == s.cfg
  {
    StopTwice(s.(failures := s.failures + 1, reason := StopWriteFailures), rcs);
  }

  /** The final flush of a stop. */
  lemma FinalFlushCounts(s: Cap, rcs: seq<Rc>)
    requires Shape(s) && s.stopping
    ensures var r := FlushBuffer(s, rcs);
            var submits := !NothingToFlush(s) && FirstRc(rcs) != Rejected;
            var refused := !NothingToFlush(s) && FirstRc(rcs) == Rejected;
            && r.stopping && r.pending == s.pending + (if submits then 1 else 0)
            && r.finals == s.finals + (if refused && s.pending == 0 then 1 else 0)
  {
    hide Keeps;
    hide FlushBuffer;
    hide NoteWriteFailure;
    hide Flushed;
    hide RefusedHandOff;
    if NothingToFlush(s) {
      NothingFlushed(s, rcs);
    } else if FirstRc(rcs) == Rejected {
      FlushRefused(s, rcs);
      RefusedHandOffFacts(s);
      NoteWhileStopping(RefusedHandOff(s), LaterRcs(rcs));
    } else {
      FlushSubmits(s, rcs);
      FlushedFacts(s, FirstRc(rcs));
    }
  }

  /** How often a stop starts the finalize chain. */
  function StopFinals(s: Cap, rcs: seq<Rc>): nat
    requires s.cur < |s.bufs|
  {
    if s.pending > 0 then 0
    else if NothingToFlush(s) then 1
    else if FirstRc(rcs) == Rejected then 2 else 0
  }

  lemma StopCounts(s: Cap, rcs: seq<Rc>)
    requires Shape(s) && !s.stopping && s.finals == 0 && s.pending >= 0
    ensures var r := StopRecording(s, rcs);
            && r.stopping && r.finals == StopFinals(s, rcs)
            && r.pending == (if NothingToFlush(s) || FirstRc(rcs) == Rejected then s.pending else s.pending + 1)
  {
    hide Keeps;
    hide FlushBuffer;
    FinalFlushCounts(Stopped(s), rcs);
  }

  /** A stop starts the finalize chain twice exactly if there was something to
      flush, nothing else was pending, and the final write is refused: the refusal
      finds nothing pending any more, and so does the stop after it. The count
      limit, a full device, a user and the breaker all stop this way. */
  lemma RefusedFinalFlushFinalizesTwiceIff(s: Cap, rcs: seq<Rc>)
    requires Shape(s) && !s.stopping && s.finals == 0 && s.pending >= 0
    ensures StopRecording(s, rcs).finals >= 2
       <==> s.pending == 0 && !NothingToFlush(s) && FirstRc(rcs) == Rejected
  {
    hide StopRecording;
    hide NothingToFlush;
    StopCounts(s, rcs);
  }

  /** In particular for the record that reaches the count limit. */
  lemma RefusedLimitStopFinalizesTwiceIff(s: Cap, tsc: nat, payload: seq<byte>, rcs: seq<Rc>)
    requires Inv(s) && !s.stopping
    requires s.bufs[s.cur].used + RECORD_HDR + |payload| <= s.cfg.bufSize
    requires s.cfg.countLimit != 0 && s.recordCount + 1 >= s.cfg.countLimit
    ensures AppendAndCheckLimit(s, tsc, payload, rcs).s.finals >= 2
       <==> s.pending == 0 && RoomFor(s.cfg, s.next) && FirstRc(rcs) == Rejected
  {
    InvShape(s);
    assert s.finals == 0 && s.pending >= 0 by { Accounting(s); }
    hide Inv;
    hide StopRecording;
    hide Keeps;
    AppendFacts(s, tsc, payload);
    hide Append;
    var t := Append(s, tsc, payload).(reason := StopCountLimit);
    ShapeSame(Append(s, tsc, payload), t);
    hide Shape;
    RefusedFinalFlushFinalizesTwiceIff(t, rcs);
  }

  lemma AppendFacts(s: Cap, tsc: nat, payload: seq<byte>)
    requires Shape(s) && s.bufs[s.cur].used + RECORD_HDR + |payload| <= s.cfg.bufSize
    ensures var t := Append(s, tsc, payload);
            && t.cfg == s.cfg && t.pending == s.pending && t.finals == s.finals && t.stopping == s.stopping
            && t.cur == s.cur && t.cur < |t.bufs| && t.bufs[t.cur].used > 0 && t.next == s.next
            && t.recordCount == s.recordCount + 1
  {
    hide Encode;
    hide Stored;
  }

  // ---- a refused retry ----

  /** What a refused retry leaves before the breaker looks at it. */
  function Refused(s: Cap): Cap
    requires s.waiter.Some? && s.waiter.value < |s.bufs|
  {
    Abandoned(s.(waiter := None, h := s.h.(rejected := true)), s.waiter.value)
  }

  lemma RetryRefused(s: Cap, rcs: seq<Rc>)
    requires Shape(s) && s.waiter.Some? && RoomFor(s.cfg, s.bufs[s.waiter.value].target)
    requires FirstRc(rcs) == Rejected
    ensures Shape(Refused(s))
    ensures RetryFires(s, rcs) == FinalizeIfDrained(NoteWriteFailure(Refused(s), LaterRcs(rcs)))
  {
    hide Keeps;
    hide RetryFlush;
    hide DropWrite;
    hide NoteWriteFailure;
    var w := s.waiter.value;
    var t := s.(waiter := None, h := s.h.(rejected := true));
    RetryIs(s.(waiter := None), w, rcs);
    DropWriteIs(t, w, LaterRcs(rcs));
    assert s.(waiter := None).(h := s.(waiter := None).h.(rejected := true)) == t;
  }

  lemma RefusedFacts(s: Cap)
    requires Shape(s) && s.waiter.Some?
    ensures var t := Refused(s);
            && t.pending == s.pending - 1 && t.finals == s.finals && t.stopping == s.stopping
            && t.failures == s.failures && t.cur == s.cur && t.cur < |t.bufs|
  {
  }

  /** A failure noted after its write was given up, then the caller's own check. */
  lemma BreakerCounts(s: Cap, rcs: seq<Rc>)
    requires Shape(s) && !s.stopping && s.finals == 0 && s.pending >= 0
    ensures FinalizeIfDrained(NoteWriteFailure(s, rcs)).finals
         == if s.failures + 1 < WRITE_FAILURE_THRESHOLD || s.pending > 0 then 0
            else if NothingToFlush(s) then 2
            else if FirstRc(rcs) == Rejected then 3 else 0
  {
    hide Keeps;
    hide NoteWriteFailure;
    hide StopRecording;
    if s.failures + 1 < WRITE_FAILURE_THRESHOLD {
      EarlyFailure(s, rcs);
    } else {
      FifthFailure(s, rcs);
      FifthIsAlike(s);
      hide FifthNoted;
      StopCounts(FifthNoted(s), rcs);
    }
  }

  lemma FifthIsAlike(s: Cap)
    requires Shape(s)
    ensures var t := FifthNoted(s);
            && Shape(t) && t.stopping == s.stopping && t.finals == s.finals && t.pending == s.pending
            && t.cur == s.cur && t.bufs == s.bufs && t.cfg == s.cfg && t.next == s.next && t.waiter == s.waiter
            && t.h == s.h && t.out == s.out && t.start == s.start
  {
  }

  /** "The finalize chain starts once" fails for a retry that is refused with an
      error other than -ENOMEM, whatever the device answers afterwards, exactly
      when it is the fifth failure, its write was the only one pending, and the
      stop it causes either has nothing to flush or has its final flush refused
      too. In the first case the chain starts twice, in the second three times. */
  lemma RefusedRetryFinalizesTwiceIff(s: Cap, rest: seq<Rc>)
    requires Shape(s) && s.waiter.Some? && RoomFor(s.cfg, s.bufs[s.waiter.value].target)
    requires s.finals == 0 && s.pending >= 1
    ensures RetryFires(s, [Rejected] + rest).finals >= 2
       <==> && !s.stopping && s.failures + 1 >= WRITE_FAILURE_THRESHOLD && s.pending == 1
            && (NothingToFlush(Refused(s)) || FirstRc(rest) == Rejected)
    ensures RetryFires(s, [Rejected] + rest).finals >= 3
       <==> && !s.stopping && s.failures + 1 >= WRITE_FAILURE_THRESHOLD && s.pending == 1
            && !NothingToFlush(Refused(s)) && FirstRc(rest) == Rejected
  {
    RetryRefusedCounts(s, [Rejected] + rest);
    assert LaterRcs([Rejected] + rest) == rest;
    hide Shape;
    hide RetryFires;
    hide Refused;
    hide NothingToFlush;
  }

  /** Every state in which the invariant holds and a buffer waits is one of these. */
  lemma WaitingIsPending(s: Cap)
    requires Inv(s) && s.waiter.Some?
    ensures Shape(s) && RoomFor(s.cfg, s.bufs[s.waiter.value].target) && s.finals == 0 && s.pending >= 1
  {
    InvShape(s);
    RetryHasRoom(s);
    hide Body;
    Accounting(s);
  }

  lemma RetryRefusedCounts(s: Cap, rcs: seq<Rc>)
    requires Shape(s) && s.waiter.Some? && RoomFor(s.cfg, s.bufs[s.waiter.value].target)
    requires FirstRc(rcs) == Rejected && s.finals == 0 && s.pending >= 1
    ensures RetryFires(s, rcs).finals
         == if s.stopping then (if s.pending == 1 then 1 else 0)
            else if s.failures + 1 < WRITE_FAILURE_THRESHOLD || s.pending > 1 then 0
            else if NothingToFlush(Refused(s)) then 2
            else if FirstRc(LaterRcs(rcs)) == Rejected then 3 else 0
  {
    hide Keeps;
    hide RetryFires;
    hide NoteWriteFailure;
    RetryRefused(s, rcs);
    RefusedFacts(s);
    hide Refused;
    if s.stopping {
      NoteWhileStopping(Refused(s), LaterRcs(rcs));
    } else {
      BreakerCounts(Refused(s), LaterRcs(rcs));
    }
  }

  // ---- a refused hand-off ----

  /** A hand-off whose write is refused starts the finalize chain from inside
      flush_buffer, whatever the device answers afterwards, exactly when the
      refusal is the fifth failure and nothing else is pending. Then it starts
      twice, and with a high-water mark that does not cover the blocks the buffer
      was given. */
  lemma RefusedHandOffFinalizesIff(s: Cap, rest: seq<Rc>)
    requires Shape(s) && !s.stopping && s.finals == 0 && s.pending >= 0
    requires s.bufs[s.cur].used > 0 && RoomFor(s.cfg, s.next)
    ensures var r := FlushBuffer(s, [Rejected] + rest);
            && r.finals == (if s.failures + 1 >= WRITE_FAILURE_THRESHOLD && s.pending == 0 then 2 else 0)
            && r.next == s.next + s.cfg.bufBlocks && (r.finals > 0 ==> r.hwm == s.next && r.stopping)
  {
    hide Keeps;
    hide FlushBuffer;
    hide NoteWriteFailure;
    var rcs := [Rejected] + rest;
    FlushRefused(s, rcs);
    RefusedHandOffFacts(s);
    hide RefusedHandOff;
    BreakerOnEmpty(RefusedHandOff(s), LaterRcs(rcs));
  }

  /** A stop with an empty current buffer finalizes at once if nothing is pending. */
  lemma EmptyStop(s: Cap, rcs: seq<Rc>)
    requires Shape(s) && !s.stopping && s.bufs[s.cur].used == 0
    ensures StopRecording(s, rcs) == if s.pending == 0 then Finalize(Stopped(s)) else Stopped(s)
  {
    hide Keeps;
    hide FlushBuffer;
    NothingFlushed(Stopped(s), rcs);
  }

  lemma BreakerOnEmpty(s: Cap, rcs: seq<Rc>)
    requires Shape(s) && !s.stopping && s.finals == 0 && s.pending >= 0 && s.bufs[s.cur].used == 0
    ensures var r := FinalizeIfDrained(NoteWriteFailure(s, rcs));
            && r.finals == (if s.failures + 1 >= WRITE_FAILURE_THRESHOLD && s.pending == 0 then 2 else 0)
            && (r.finals > 0 ==> r.hwm == s.next && r.stopping) && r.next == s.next && r.cfg == s.cfg
  {
    hide NoteWriteFailure;
    hide StopRecording;
    hide Keeps;
    if s.failures + 1 < WRITE_FAILURE_THRESHOLD {
      EarlyFailure(s, rcs);
    } else {
      FifthFailure(s, rcs);
      FifthIsAlike(s);
      EmptyStop(FifthNoted(s), rcs);
    }
  }

  // ---- completions are safe ----

  /** A completion never starts the finalize chain twice, however the device
      answers the final flush it may cause: its own write is still pending then. */
  lemma CompletionFinalizesOnce(s: Cap, io: Io, ok: bool, rcs: seq<Rc>)
    requires Inv(s) && io in s.out && io.buf < MAX_WRITE_BUFFERS && Shape(s)
    ensures var r := WriteComplete(s, io, ok, rcs);
            r.finals == if r.stopping && r.pending == 0 then 1 else 0
  {
    OutIsPending(s, io);
    hide Inv;
    hide Keeps;
    hide WriteComplete;
    CompleteIs(s, io, ok, rcs);
    NotedCounts(s, io, ok, rcs);
    hide Noted;
  }

  lemma OutIsPending(s: Cap, io: Io)
    requires Inv(s) && io in s.out
    ensures s.pending >= 1 && s.finals == 0
  {
    hide Body;
    Accounting(s);
    OutHasSome(s, io);
  }

  lemma NotedCounts(s: Cap, io: Io, ok: bool, rcs: seq<Rc>)
    requires Shape(s) && io.buf < MAX_WRITE_BUFFERS && s.finals == 0 && s.pending >= 1
    ensures Noted(s, io, ok, rcs).finals == 0
  {
    hide Keeps;
    hide NoteWriteFailure;
    if !ok {
      var t := Release(s, io.buf).(out := s.out - multiset{io});
      NoteBeforeLast(t.(h := t.h.(lost := t.h.lost + {io.chunk})), rcs);
    }
  }

  lemma NoteBeforeLast(s: Cap, rcs: seq<Rc>)
    requires Shape(s) && s.finals == 0 && s.pending >= 1
    ensures NoteWriteFailure(s, rcs).finals == 0
  {
    hide Keeps;
    hide NoteWriteFailure;
    hide StopRecording;
    if s.stopping {
      NoteWhileStopping(s, rcs);
    } else if s.failures + 1 < WRITE_FAILURE_THRESHOLD {
      EarlyFailure(s, rcs);
    } else {
      FifthFailure(s, rcs);
      FifthIsAlike(s);
      hide FifthNoted;
      StopCounts(FifthNoted(s), rcs);
    }
  }

  // ---- a waiting buffer handed off again ----

  /** What a stop meets, by what its caller can see beforehand. */
  lemma StopHazardIff(s: Cap, rcs: seq<Rc>)
    requires Shape(s) && !s.stopping
    ensures Hazard(StopRecording(s, rcs).h)
       <==> || Hazard(s.h)
            || (!NothingToFlush(s)
                && (FirstRc(rcs) == Rejected || s.waiter == Some(s.cur)
                    || (FirstRc(rcs) == NoMem && s.waiter.Some?)))
  {
    hide Keeps;
    hide FlushBuffer;
    hide NoteWriteFailure;
    hide Flushed;
    hide RefusedHandOff;
    var t := Stopped(s);
    if NothingToFlush(s) {
      NothingFlushed(t, rcs);
    } else if FirstRc(rcs) == Rejected {
      FlushRefused(t, rcs);
      RefusedHandOffFacts(t);
      NoteWhileStopping(RefusedHandOff(t), LaterRcs(rcs));
    } else {
      FlushSubmits(t, rcs);
      FlushedFacts(t, FirstRc(rcs));
    }
  }

  /** The buffer a stop touches is the current one, and it moves that buffer's
      target exactly if it has something to flush. */
  lemma StopTargets(s: Cap, rcs: seq<Rc>, w: nat)
    requires Shape(s) && !s.stopping && w < MAX_WRITE_BUFFERS
    ensures var r := StopRecording(s, rcs);
            && w < |r.bufs|
            && r.bufs[w].target == (if w == s.cur && !NothingToFlush(s) then s.next else s.bufs[w].target)
  {
    hide Keeps;
    hide FlushBuffer;
    hide NoteWriteFailure;
    hide Flushed;
    hide RefusedHandOff;
    var t := Stopped(s);
    if NothingToFlush(s) {
      NothingFlushed(t, rcs);
    } else if FirstRc(rcs) == Rejected {
      FlushRefused(t, rcs);
      RefusedHandOffFacts(t);
      NoteWhileStopping(RefusedHandOff(t), LaterRcs(rcs));
    } else {
      FlushSubmits(t, rcs);
      FlushedFacts(t, FirstRc(rcs));
    }
  }

  /** "A waiting buffer's target is fixed at its hand-off" survives a stop, the one
      the breaker makes inside a failing completion included, whatever the device
      answers, exactly unless the waiting buffer is the current one and
      the stop flushes it: its target then moves. */
  lemma WaitingTargetIsFixedIff(s: Cap, rcs: seq<Rc>)
    requires Body(s) && !s.stopping && s.waiter.Some?
    ensures s.waiter.value < |s.bufs| && s.cur < |s.bufs|
    ensures var r := StopRecording(s, rcs);
            && s.waiter.value < |r.bufs|
            && (r.bufs[s.waiter.value].target == s.bufs[s.waiter.value].target
                <==> !(s.waiter == Some(s.cur) && !NothingToFlush(s)))
  {
    assert Shape(s) by { BodyShape(s); }
    WaitingBelowNext(s);
    hide Body;
    hide StopRecording;
    StopTargets(s, rcs, s.waiter.value);
  }

  lemma WaitingBelowNext(s: Cap)
    requires Body(s) && s.waiter.Some?
    ensures s.waiter.value < |s.bufs| && s.bufs[s.waiter.value].target < s.next
  {
    hide TscOk;
    hide LogOk;
    hide BoundOk;
    hide OutOk;
    hide FlightOk;
    assert WaiterOk(s) && PlaceOk(s) && ConfigOk(s.cfg);
    WaiterChunkKnown(s);
    TargetBelowNext(s, s.bufs[s.waiter.value].chunk);
    hide Inv;
  }

  /** The same for the whole invariant: a stop whose final write the device takes,
      or queues while nothing else waits, keeps it exactly unless it hands the
      waiting buffer off again. */
  lemma StopKeepsInvIff(s: Cap, rcs: seq<Rc>)
    requires Inv(s) && !s.stopping && !Hazard(s.h)
    requires FirstRc(rcs) == Accepted || (FirstRc(rcs) == NoMem && s.waiter.None?)
    ensures s.cur < |s.bufs|
    ensures Inv(StopRecording(s, rcs)) <==> !(s.waiter == Some(s.cur) && !NothingToFlush(s))
  {
    InvShape(s);
    hide Body;
    hide Hazard;
    hide StopRecording;
    StopHazardIff(s, rcs);
    if s.waiter == Some(s.cur) && !NothingToFlush(s) {
      HandedOffTwice(s, rcs);
    } else {
      StopKeepsInv(s, rcs);
    }
  }

  /** The waiting buffer's new write is outstanding while it waits. */
  lemma HandedOffTwice(s: Cap, rcs: seq<Rc>)
    requires Shape(s) && !s.stopping && s.waiter == Some(s.cur) && !NothingToFlush(s)
    requires FirstRc(rcs) == Accepted
    ensures !Inv(StopRecording(s, rcs))
  {
    hide Body;
    hide NothingToFlush;
    hide FirstRc;
    RetargetFacts(s, rcs);
    SubmittedTwice(s, rcs);
    hide StopRecording;
    if Body(StopRecording(s, rcs)) {
      WaitingIsNotOut(StopRecording(s, rcs), Io(s.cur, s.next, |s.h.placed|));
    }
  }

  lemma SubmittedTwice(s: Cap, rcs: seq<Rc>)
    requires Shape(s) && !s.stopping && !NothingToFlush(s) && FirstRc(rcs) == Accepted
    ensures Io(s.cur, s.next, |s.h.placed|) in StopRecording(s, rcs).out
  {
    hide Keeps;
    hide FlushBuffer;
    hide FirstRc;
    FlushSubmits(Stopped(s), rcs);
    HandOffFacts(Stopped(s));
    hide HandOff;
  }

  // ---- what becomes of the chunk it carried ----

  predicate RangesApart(a: nat, b: nat, n: nat) {
    a + n <= b || b + n <= a
  }

  /** Chunk `c` has not been written, and no write, outstanding or waiting, is for
      it or touches its place `at`. */
  ghost predicate Abandons(s: Cap, c: nat, at: nat) {
    && s.stopping && c !in s.h.done
    && (forall io :: io in s.out ==> io.chunk != c && RangesApart(io.target, at, s.cfg.bufBlocks))
    && (s.waiter.Some? ==>
          var w := s.waiter.value;
          w < |s.bufs| && s.bufs[w].chunk != c && RangesApart(s.bufs[w].target, at, s.cfg.bufBlocks))
  }

  /** A stop that hands the waiting buffer off again abandons the chunk it carried:
      whatever the device answers then and later, no run to the end of the segment
      writes that chunk or anything else to its place. */
  lemma RetargetedChunkIsAbandoned(s: Cap, rcs: seq<Rc>, es: seq<Event>)
    requires Body(s) && CoverOk(s) && !s.stopping && s.waiter == Some(s.cur) && !NothingToFlush(s)
    requires Run(StopRecording(s, rcs), es).Some?
    ensures var c := s.bufs[s.cur].chunk;
            var r := StopRecording(s, rcs);
            && c < |s.h.placed| && c !in s.h.done && TargetOf(s, c) + s.cfg.bufBlocks <= s.next
            && r.h.retargeted && r.waiter == Some(s.cur) && s.cur < |r.bufs| && r.bufs[s.cur].target == s.next
            && Abandons(Run(r, es).value, c, TargetOf(s, c))
  {
    assert Shape(s) by { BodyShape(s); }
    StopAbandons(s, rcs);
    hide Body;
    hide CoverOk;
    hide TargetOf;
    hide StopRecording;
    hide NothingToFlush;
    hide Abandons;
    StaysAbandoned(StopRecording(s, rcs), es, s.bufs[s.cur].chunk, TargetOf(s, s.bufs[s.cur].chunk));
    hide Run;
  }

  lemma StopAbandons(s: Cap, rcs: seq<Rc>)
    requires Body(s) && CoverOk(s) && !s.stopping && s.waiter == Some(s.cur) && !NothingToFlush(s) && Shape(s)
    ensures var c := s.bufs[s.cur].chunk;
            var r := StopRecording(s, rcs);
            && c < |s.h.placed| && c !in s.h.done && TargetOf(s, c) + s.cfg.bufBlocks <= s.next
            && r.h.retargeted && r.waiter == Some(s.cur) && s.cur < |r.bufs| && r.bufs[s.cur].target == s.next
            && Abandons(r, c, TargetOf(s, c))
  {
    WaitingChunk(s);
    hide Body;
    hide CoverOk;
    hide TargetOf;
    hide StopRecording;
    hide NothingToFlush;
    RetargetFacts(s, rcs);
    hide Shape;
    hide RangesApart;
    MovedAway(s, StopRecording(s, rcs), s.bufs[s.cur].chunk, TargetOf(s, s.bufs[s.cur].chunk));
  }

  lemma MovedAway(s: Cap, r: Cap, c: nat, at: nat)
    requires c < |s.h.placed| && c !in s.h.done && at + s.cfg.bufBlocks <= s.next
    requires forall io :: io in s.out ==> io.chunk != c && RangesApart(io.target, at, s.cfg.bufBlocks)
    requires r.stopping && r.cfg == s.cfg && r.h.done == s.h.done && r.waiter == Some(s.cur)
    requires s.cur < |r.bufs| && r.bufs[s.cur].chunk == |s.h.placed| && r.bufs[s.cur].target == s.next
    requires forall io :: io in r.out ==> io in s.out || io == Io(s.cur, s.next, |s.h.placed|)
    ensures Abandons(r, c, at)
  {
    assert RangesApart(s.next, at, s.cfg.bufBlocks);
    hide RangesApart;
  }

  lemma WaitingIsNotOut(s: Cap, io: Io)
    requires Body(s) && s.waiter.Some? && io in s.out
    ensures s.waiter.value < |s.bufs| && io.chunk != s.bufs[s.waiter.value].chunk
    ensures io.chunk < |s.h.placed| && io.target == TargetOf(s, io.chunk)
  {
    hide TscOk;
    hide LogOk;
    hide BoundOk;
    assert WaiterOk(s) && OutOk(s) && PlaceOk(s);
    WaiterChunkKnown(s);
    IoChunkKnown(s, io);
  }

  /** The chunk a waiting buffer carries has not reached the device in any way. */
  lemma WaitingChunk(s: Cap)
    requires Body(s) && CoverOk(s) && s.waiter.Some?
    ensures s.waiter.value < |s.bufs|
    ensures var c := s.bufs[s.waiter.value].chunk;
            && c < |s.h.placed| && c !in s.h.done && TargetOf(s, c) + s.cfg.bufBlocks <= s.next
            && forall io :: io in s.out ==> io.chunk != c && RangesApart(io.target, TargetOf(s, c), s.cfg.bufBlocks)
  {
    hide TscOk;
    hide LogOk;
    hide BoundOk;
    assert WaiterOk(s) && PlaceOk(s);
    WaiterChunkKnown(s);
    var c := s.bufs[s.waiter.value].chunk;
    assert Outstanding(s, c);
    TargetBelowNext(s, c);
    hide Body;
    hide WaiterOk;
    hide CoverOk;
    hide Outstanding;
    forall io | io in s.out ensures io.chunk != c && RangesApart(io.target, TargetOf(s, c), s.cfg.bufBlocks) {
      WaitingIsNotOut(s, io);
      ChunksApart(s, io.chunk, c);
    }
  }

  lemma ChunksApart(s: Cap, c: nat, c': nat)
    requires c != c'
    ensures RangesApart(TargetOf(s, c), TargetOf(s, c'), s.cfg.bufBlocks)
  {
    if c < c' {
      ChunkOrder(s.start, c, c', s.cfg.bufBlocks);
    } else {
      ChunkOrder(s.start, c', c, s.cfg.bufBlocks);
    }
  }

  /** What such a stop leaves, for every answer: the buffer has a new chunk and a
      new target, and it still waits. */
  lemma RetargetFacts(s: Cap, rcs: seq<Rc>)
    requires Shape(s) && !s.stopping && s.waiter == Some(s.cur) && !NothingToFlush(s)
    ensures var r := StopRecording(s, rcs);
            && Shape(r) && r.stopping && r.cfg == s.cfg && r.waiter == Some(s.cur) && r.h.done == s.h.done
            && s.cur < |r.bufs| && r.bufs[s.cur].chunk == |s.h.placed| && r.bufs[s.cur].target == s.next
            && r.h.retargeted
            && (forall io :: io in r.out ==> io in s.out || io == Io(s.cur, s.next, |s.h.placed|))
  {
    hide Keeps;
    hide FlushBuffer;
    hide NoteWriteFailure;
    hide Flushed;
    hide RefusedHandOff;
    var t := Stopped(s);
    if FirstRc(rcs) == Rejected {
      FlushRefused(t, rcs);
      RefusedHandOffFacts(t);
      RefusedHandOffChunk(t);
      NoteWhileStopping(RefusedHandOff(t), LaterRcs(rcs));
    } else {
      FlushSubmits(t, rcs);
      FlushedFacts(t, FirstRc(rcs));
      FlushedOut(t, FirstRc(rcs));
    }
    StopShape(s, rcs);
  }

  lemma StopShape(s: Cap, rcs: seq<Rc>)
    requires Shape(s)
    ensures var r := StopRecording(s, rcs); Shape(r) && r.stopping && r.cfg == s.cfg && r.h.done == s.h.done
  {
    hide StopRecording;
  }

  lemma RefusedHandOffChunk(s: Cap)
    requires Shape(s)
    ensures var t := RefusedHandOff(s);
            && s.cur < |t.bufs| && t.bufs[s.cur].chunk == |s.h.placed|
            && (s.waiter == Some(s.cur) ==> t.h.retargeted)
  {
    HandOffFacts(s);
    hide HandOff;
  }

  lemma FlushedOut(s: Cap, rc: Rc)
    requires Shape(s)
    ensures var r := Flushed(s, rc);
            && (s.waiter == Some(s.cur) ==> r.h.retargeted)
            && forall io :: io in r.out ==> io in s.out || io == Io(s.cur, s.next, |s.h.placed|)
  {
    HandOffFacts(s);
    hide HandOff;
  }

  lemma RetryAbandons(s: Cap, i: nat, rcs: seq<Rc>, c: nat, at: nat)
    requires Shape(s) && s.waiter.None? && Abandons(s, c, at) && i < MAX_WRITE_BUFFERS
    requires s.bufs[i].chunk != c && RangesApart(s.bufs[i].target, at, s.cfg.bufBlocks)
    ensures Abandons(RetryFlush(s, i, rcs), c, at)
  {
    hide Keeps;
    hide RetryFlush;
    hide DropWrite;
    hide RangesApart;
    hide FirstRc;
    RetryIs(s, i, rcs);
    DropAbandons(s, i, rcs, c, at);
    var t := s.(h := s.h.(rejected := true));
    DropAbandons(t, i, LaterRcs(rcs), c, at);
  }

  lemma DropAbandons(s: Cap, i: nat, rcs: seq<Rc>, c: nat, at: nat)
    requires Shape(s) && s.waiter.None? && Abandons(s, c, at) && i < MAX_WRITE_BUFFERS
    ensures Abandons(DropWrite(s, i, rcs), c, at)
  {
    hide Keeps;
    hide NoteWriteFailure;
    hide DropWrite;
    hide RangesApart;
    DropWriteIs(s, i, rcs);
    NoteWhileStopping(Abandoned(s, i), rcs);
  }

  lemma CompleteAbandons(s: Cap, io: Io, ok: bool, rcs: seq<Rc>, c: nat, at: nat)
    requires Shape(s) && Abandons(s, c, at) && io in s.out && io.buf < MAX_WRITE_BUFFERS
    ensures Abandons(WriteComplete(s, io, ok, rcs), c, at)
  {
    hide Keeps;
    hide Noted;
    hide RangesApart;
    CompleteIs(s, io, ok, rcs);
    NotedAbandons(s, io, ok, rcs, c, at);
    hide WriteComplete;
    hide Shape;
  }

  lemma NotedAbandons(s: Cap, io: Io, ok: bool, rcs: seq<Rc>, c: nat, at: nat)
    requires Shape(s) && Abandons(s, c, at) && io in s.out && io.buf < MAX_WRITE_BUFFERS
    ensures Abandons(Noted(s, io, ok, rcs), c, at)
  {
    hide Keeps;
    hide NoteWriteFailure;
    hide RangesApart;
    var t := Release(s, io.buf).(out := s.out - multiset{io});
    TakenIs(s, io);
    hide Release;
    assert forall io' :: io' in t.out ==> io' in s.out;
    assert Abandons(t, c, at);
    if !ok {
      NoteWhileStopping(t.(h := t.h.(lost := t.h.lost + {io.chunk})), rcs);
    }
  }

  lemma NextAbandons(s: Cap, e: Event, c: nat, at: nat)
    requires Shape(s) && Abandons(s, c, at) && Enabled(s, e)
    ensures Abandons(Next(s, e), c, at)
  {
    hide Keeps;
    hide RetryFlush;
    hide WriteComplete;
    hide CapturePoll;
    hide RangesApart;
    match e {
      case Poll(tsc, burst) => PollFrozen(s, tsc, burst);
      case Complete(io, ok, rcs) => CompleteAbandons(s, io, ok, rcs, c, at);
      case Retry(rcs) =>
        var t := s.(waiter := None);
        assert Abandons(t, c, at);
        RetryAbandons(t, s.waiter.value, rcs, c, at);
      case Stop(user, rcs) => StopTwice(if user then s.(reason := StopUser) else s, rcs);
    }
  }

  lemma {:induction false} StaysAbandoned(s: Cap, es: seq<Event>, c: nat, at: nat)
    requires Shape(s) && Abandons(s, c, at) && Run(s, es).Some?
    ensures Abandons(Run(s, es).value, c, at)
    decreases |es|
  {
    hide Next;
    hide Abandons;
    if es != [] {
      NextAbandons(s, es[0], c, at);
      StaysAbandoned(Next(s, es[0]), es[1..], c, at);
    }
  }
}
