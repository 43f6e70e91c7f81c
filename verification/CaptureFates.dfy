/** What becomes of each chunk, of the last buffer and of the stop reason, read off
    the events alone. */
module CaptureFates {
  import opened Bytes
  import opened Record
  import opened Capture
  import opened CaptureInvariant
  import opened CaptureRuns
  import opened CaptureTheorems
  import opened CaptureLimits
  import opened SegmentData

  /** The chunks whose write a run completes with this outcome. */
  function ChunksDone(es: seq<Event>, ok: bool): set<nat> {
    if es == [] then {}
    else (if es[0].Complete? && es[0].ok == ok then {es[0].io.chunk} else {}) + ChunksDone(es[1..], ok)
  }

  /** No write is given up; the final buffer is dropped only by a device without room
      for another chunk; and a recording that goes on has no stop reason. */
  ghost predicate Settles(s: Cap, r: Cap) {
    && r.h.lost == s.h.lost && (s.stopping ==> r.stopping) && r.cfg == s.cfg
    && (r.h.tail == s.h.tail || (r.stopping && r.next + r.cfg.bufBlocks > r.cfg.numBlocks))
    && (r.stopping || (r.h.tail == s.h.tail && r.reason == s.reason))
  }

  lemma SettlesThen(s: Cap, t: Cap, r: Cap)
    requires Settles(s, t) && Settles(t, r) && !t.stopping
    ensures Settles(s, r)
  {
  }

  lemma FlushSettles(s: Cap, rcs: seq<Rc>)
    requires Shape(s) && !Hazard(FlushBuffer(s, rcs).h)
    ensures var r := FlushBuffer(s, rcs);
            && r.h.lost == s.h.lost && r.stopping == s.stopping && r.reason == s.reason && r.cfg == s.cfg
            && (r.h.tail == s.h.tail || r.next + r.cfg.bufBlocks > r.cfg.numBlocks)
            && (RoomFor(s.cfg, s.next) ==> r.h.tail == s.h.tail)
  {
    FlushCases(s, rcs);
  }

  lemma StopSettles(s: Cap, rcs: seq<Rc>)
    requires Shape(s) && !Hazard(StopRecording(s, rcs).h)
    ensures Settles(s, StopRecording(s, rcs))
  {
    hide FlushBuffer;
    hide Keeps;
    if !s.stopping {
      FlushSettles(s.(stopping := true), rcs);
    }
  }

  lemma NoteSettles(s: Cap, rcs: seq<Rc>)
    requires Shape(s) && !Hazard(NoteWriteFailure(s, rcs).h)
    ensures Settles(s, NoteWriteFailure(s, rcs))
  {
    hide StopRecording;
    hide Keeps;
    var t := s.(failures := s.failures + 1);
    if t.failures >= WRITE_FAILURE_THRESHOLD {
      StopSettles(t.(reason := StopWriteFailures), rcs);
    }
  }

  lemma AppendLimitSettles(s: Cap, tsc: nat, payload: seq<byte>, rcs: seq<Rc>)
    requires Shape(s) && s.bufs[s.cur].used + RECORD_HDR + |payload| <= s.cfg.bufSize
    requires !Hazard(AppendAndCheckLimit(s, tsc, payload, rcs).s.h)
    ensures Settles(s, AppendAndCheckLimit(s, tsc, payload, rcs).s)
  {
    hide StopRecording;
    hide Encode;
    hide Stored;
    var t := Append(s, tsc, payload);
    if t.cfg.countLimit != 0 && t.recordCount >= t.cfg.countLimit {
      StopSettles(t.(reason := StopCountLimit), rcs);
    }
  }

  lemma OursSettles(s: Cap, tsc: nat, payload: seq<byte>, rx: Rx)
    requires Shape(s) && !s.stopping && !Hazard(CaptureOurs(s, tsc, payload, rx).s.h)
    ensures Settles(s, CaptureOurs(s, tsc, payload, rx).s)
  {
    hide FlushBuffer;
    hide StopRecording;
    hide AppendAndCheckLimit;
    hide Keeps;
    hide Grows;
    var b := s.bufs[s.cur];
    var size := RECORD_HDR + |payload|;
    if !b.inFlight {
      if b.used + size <= s.cfg.bufSize {
        AppendLimitSettles(s, tsc, payload, rx.stopRcs);
      } else if !RoomFor(s.cfg, s.next) {
        StopSettles(Drop(s).(reason := StopDiskFull), rx.stopRcs);
      } else {
        FlushedSettles(s, tsc, payload, rx);
      }
    }
  }

  lemma FlushedSettles(s: Cap, tsc: nat, payload: seq<byte>, rx: Rx)
    requires Shape(s) && !s.stopping && !s.bufs[s.cur].inFlight && RoomFor(s.cfg, s.next)
    requires s.bufs[s.cur].used + RECORD_HDR + |payload| > s.cfg.bufSize
    requires !Hazard(CaptureOurs(s, tsc, payload, rx).s.h)
    ensures Settles(s, CaptureOurs(s, tsc, payload, rx).s)
  {
    hide FlushBuffer;
    hide AppendAndCheckLimit;
    var t := NextBuffer(FlushBuffer(s, rx.flushRcs));
    if !t.bufs[t.cur].inFlight && RECORD_HDR + |payload| <= t.cfg.bufSize {
      AppendLimitCounts(t, tsc, payload, rx.stopRcs);
      FlushSettles(s, rx.flushRcs);
      AppendLimitSettles(t, tsc, payload, rx.stopRcs);
    } else {
      FlushSettles(s, rx.flushRcs);
    }
  }

  lemma FrameSettles(s: Cap, tsc: nat, rx: Rx)
    requires Shape(s) && !Hazard(CaptureFrame(s, tsc, rx).s.h)
    ensures Settles(s, CaptureFrame(s, tsc, rx).s)
  {
    hide CaptureOurs;
    hide OursIn;
    if OursIn(s.cfg, rx).Some? && !s.stopping && s.recording {
      OursSettles(s, tsc, OursIn(s.cfg, rx).value, rx);
    }
  }

  lemma {:induction false} PollSettles(s: Cap, tsc: nat, burst: seq<Rx>)
    requires Shape(s) && !Hazard(CapturePoll(s, tsc, burst).h)
    ensures Settles(s, CapturePoll(s, tsc, burst))
    decreases |burst|
  {
    hide CaptureFrame;
    hide Settles;
    if burst == [] {
      SettlesSame(s);
    } else {
      var p := CaptureFrame(s, tsc, burst[0]);
      if p.stop {
        FrameSettles(s, tsc, burst[0]);
      } else {
        PollCounts(p.s, tsc, burst[1..]);
        FrameSettles(s, tsc, burst[0]);
        if p.s.stopping {
          PollFrozen(p.s, tsc, burst[1..]);
        } else {
          PollSettles(p.s, tsc, burst[1..]);
          SettlesThen(s, p.s, CapturePoll(p.s, tsc, burst[1..]));
        }
      }
    }
  }

  lemma SettlesSame(s: Cap)
    ensures Settles(s, s)
  {
  }

  /** What one event settles: a completion its chunk, every other event none. */
  ghost predicate EventSettles(s: Cap, e: Event, r: Cap) {
    && r.h.done == s.h.done + ChunksDone([e], true) && r.h.lost == s.h.lost + ChunksDone([e], false)
    && (s.stopping ==> r.stopping) && r.cfg == s.cfg
    && (r.h.tail == s.h.tail || (r.stopping && r.next + r.cfg.bufBlocks > r.cfg.numBlocks))
    && (s.stopping ==> r.h.tail == s.h.tail && r.next == s.next)
    && (r.stopping || (r.h.tail == s.h.tail && r.reason == s.reason))
  }

  lemma OneEvent(e: Event, ok: bool)
    ensures ChunksDone([e], ok) == if e.Complete? && e.ok == ok then {e.io.chunk} else {}
  {
    assert [e][1..] == [];
  }

  lemma CompleteSettles(s: Cap, io: Io, ok: bool, rcs: seq<Rc>)
    requires Shape(s) && io in s.out && io.buf < MAX_WRITE_BUFFERS
    requires !Hazard(WriteComplete(s, io, ok, rcs).h)
    ensures var r := WriteComplete(s, io, ok, rcs);
            Settles(if ok then s else s.(h := s.h.(lost := s.h.lost + {io.chunk})), r)
    ensures var r := WriteComplete(s, io, ok, rcs);
            r.h.done == if ok then s.h.done + {io.chunk} else s.h.done
  {
    hide NoteWriteFailure;
    if !ok {
      var t := Release(s, io.buf).(out := s.out - multiset{io});
      NoteSettles(t.(h := t.h.(lost := t.h.lost + {io.chunk})), rcs);
    }
  }

  lemma RetrySettles(s: Cap, rcs: seq<Rc>)
    requires Shape(s) && s.waiter.Some? && !Hazard(RetryFires(s, rcs).h)
    requires RoomFor(s.cfg, s.bufs[s.waiter.value].target)
    ensures Settles(s, RetryFires(s, rcs)) && RetryFires(s, rcs).h.done == s.h.done
  {
    hide DropWrite;
  }

  lemma StopRequestSettles(s: Cap, user: bool, rcs: seq<Rc>)
    requires Shape(s) && !Hazard(StopRequest(s, user, rcs).h)
    ensures Settles(s, StopRequest(s, user, rcs)) && StopRequest(s, user, rcs).h.done == s.h.done
  {
    hide StopRecording;
    if s.recording {
      StopSettles(if user then s.(reason := StopUser) else s, rcs);
    }
  }

  lemma NextSettles(s: Cap, e: Event)
    requires Inv(s) && Enabled(s, e) && Shape(s) && !Hazard(Next(s, e).h)
    ensures EventSettles(s, e, Next(s, e))
  {
    hide Body;
    hide Hazard;
    hide Keeps;
    hide Shape;
    hide CapturePoll;
    hide WriteComplete;
    hide RetryFires;
    hide StopRequest;
    if s.waiter.Some? {
      assert Body(s);
      RetryHasRoom(s);
    }
    if s.stopping {
      NextFrozen(s, e);
    }
    OneEvent(e, true);
    OneEvent(e, false);
    hide Inv;
    hide ChunksDone;
    match e {
      case Poll(tsc, burst) =>
        PollSettles(s, tsc, burst);
        PollCounts(s, tsc, burst);
      case Complete(io, ok, rcs) => CompleteSettles(s, io, ok, rcs);
      case Retry(rcs) => RetrySettles(s, rcs);
      case Stop(user, rcs) => StopRequestSettles(s, user, rcs);
    }
  }

  ghost predicate TailOk(s: Cap) {
    s.h.tail != [] ==> s.stopping && s.next + s.cfg.bufBlocks > s.cfg.numBlocks
  }

  ghost predicate RunSettles(s: Cap, es: seq<Event>, r: Cap) {
    && r.h.done == s.h.done + ChunksDone(es, true) && r.h.lost == s.h.lost + ChunksDone(es, false)
    && TailOk(r) && (!r.stopping ==> r.reason == s.reason)
  }

  lemma SettlesOn(s: Cap, es: seq<Event>, t: Cap, r: Cap)
    requires es != [] && TailOk(s) && EventSettles(s, es[0], t) && (t.stopping ==> r.stopping)
    requires TailOk(t) ==> RunSettles(t, es[1..], r)
    ensures RunSettles(s, es, r)
  {
    OneEvent(es[0], true);
    OneEvent(es[0], false);
    assert ChunksDone(es, true) == ChunksDone([es[0]], true) + ChunksDone(es[1..], true);
    assert ChunksDone(es, false) == ChunksDone([es[0]], false) + ChunksDone(es[1..], false);
  }

  /** Over a run: written are exactly the chunks whose write completed successfully,
      lost exactly those whose write failed; records of the final buffer are dropped
      only if the device has no room for another chunk; and a stop reason comes only
      with a stop. */
  lemma {:induction false} FatesFollowCompletions(s: Cap, es: seq<Event>)
    requires Inv(s) && Run(s, es).Some? && !Hazard(Run(s, es).value.h) && TailOk(s)
    ensures RunSettles(s, es, Run(s, es).value)
    decreases |es|
  {
    InvShape(s);
    hide Inv;
    hide Shape;
    hide Next;
    hide Grows;
    hide Hazard;
    hide ChunksDone;
    hide RunSettles;
    hide EventSettles;
    hide TailOk;
    if es == [] {
      NothingSettles(s);
    } else {
      var t := Next(s, es[0]);
      HazardsStay(t, es[1..]);
      NextKeeps(s, es[0]);
      NextSettles(s, es[0]);
      if TailOk(t) {
        FatesFollowCompletions(t, es[1..]);
      }
      NeverResumes(t, es[1..]);
      SettlesOn(s, es, t, Run(t, es[1..]).value);
    }
  }

  lemma NothingSettles(s: Cap)
    requires TailOk(s)
    ensures RunSettles(s, [], s)
  {
  }

  lemma NeverResumes(s: Cap, es: seq<Event>)
    requires Shape(s) && Run(s, es).Some?
    ensures s.stopping ==> Run(s, es).value.stopping
  {
    hide Run;
    RunGrows(s, es);
  }

  // ---- buffers come back ----

  /** Whatever is reported and whatever the device answers to the stop it may cause, a
      completion frees exactly its own buffer. Of the others it touches at most the
      current one, and only if it stops the recording. */
  lemma CompletionFreesBuffer(s: Cap, io: Io, ok: bool, rcs: seq<Rc>)
    requires Shape(s) && io in s.out && io.buf < MAX_WRITE_BUFFERS
    ensures var r := WriteComplete(s, io, ok, rcs);
            && |r.bufs| == |s.bufs| && !r.bufs[io.buf].inFlight && r.bufs[io.buf].used == 0
            && r.bufs[io.buf].data == s.bufs[io.buf].data
            && r.out == (if r.stopping == s.stopping then s.out - multiset{io} else r.out)
            && forall i :: 0 <= i < |s.bufs| && i != io.buf && (i != s.cur || r.stopping == s.stopping) ==>
                 r.bufs[i] == s.bufs[i]
  {
    hide NoteWriteFailure;
    hide Keeps;
    if !ok {
      var t := Release(s, io.buf).(out := s.out - multiset{io});
      NoteTouches(t.(h := t.h.(lost := t.h.lost + {io.chunk})), rcs);
    }
  }

  lemma NoteTouches(s: Cap, rcs: seq<Rc>)
    requires Shape(s)
    ensures var r := NoteWriteFailure(s, rcs);
            && |r.bufs| == |s.bufs| && (s.stopping ==> r.stopping)
            && (r.stopping == s.stopping ==> r.bufs == s.bufs && r.out == s.out)
            && (s.bufs[s.cur].used == 0 ==> r.bufs == s.bufs)
            && forall i :: 0 <= i < |s.bufs| && i != s.cur ==> r.bufs[i] == s.bufs[i]
  {
    hide NoteWriteFailure;
    hide Keeps;
    hide StopRecording;
    if s.stopping {
      NoteWhileStopping(s, rcs);
    } else if s.failures + 1 < WRITE_FAILURE_THRESHOLD {
      EarlyFailure(s, rcs);
    } else {
      FifthFailure(s, rcs);
      FifthIsAlike(s);
      StopTouches(FifthNoted(s), rcs);
    }
  }

  lemma StopTouches(s: Cap, rcs: seq<Rc>)
    requires Shape(s) && !s.stopping
    ensures var r := StopRecording(s, rcs);
            && r.stopping && |r.bufs| == |s.bufs|
            && (s.bufs[s.cur].used == 0 ==> r.bufs == s.bufs)
            && forall i :: 0 <= i < |s.bufs| && i != s.cur ==> r.bufs[i] == s.bufs[i]
  {
    hide Keeps;
    hide FlushBuffer;
    hide NoteWriteFailure;
    hide Flushed;
    hide RefusedHandOff;
    var t := Stopped(s);
    if NothingToFlush(s) {
      NothingFlushed(t, rcs);
    } else if FirstRc(rcs) == Rejected {
      FlushRefused(t, rcs);
      RefusedHandOffFacts(t);
      NoteWhileStopping(RefusedHandOff(t), LaterRcs(rcs));
    } else {
      FlushSubmits(t, rcs);
      FlushedFacts(t, FirstRc(rcs));
    }
  }

  // ---- from the claim on ----

  ghost predicate Claimed(s: Cap) {
    && Allocated(s) && ConfigOk(s.cfg) && s.start <= s.cfg.numBlocks
    && s.pending == 0 && s.out == multiset{} && s.waiter.None?
  }

  lemma BeginFates(s: Cap)
    requires Claimed(s)
    ensures var b := BeginSegment(s);
            && Inv(b) && Shape(b) && b.h.tail == [] && b.h.done == {} && b.h.lost == {}
            && b.reason == StopNone && b.failures == 0 && !b.stopping
  {
    BeginIsSound(s);
    hide Inv;
  }

  /** A recording has a stop reason only once it has been stopped, and the breaker
      stops it at the fifth failed completion since the last success, not before. */
  lemma WholeRecordingStops(s: Cap, es: seq<Event>)
    requires Claimed(s)
    requires Run(BeginSegment(s), es).Some? && !Hazard(Run(BeginSegment(s), es).value.h)
    ensures var r := Run(BeginSegment(s), es).value;
            && (!r.stopping ==> r.reason == StopNone)
            && r.failures == Streak(es)
            && (Streak(es) >= 5 ==> r.stopping)
  {
    BeginFates(s);
    hide Inv;
    hide BeginSegment;
    var b := BeginSegment(s);
    FatesFollowCompletions(b, es);
    FailuresAreTheStreak(b, es);
    if Streak(es) >= 5 {
      FiveFailuresStop(b, es);
    }
  }

  /** A recording loses nothing if every write completed successfully and the device
      still has room for another chunk. */
  lemma HealthyDeviceLosesNothing(s: Cap, es: seq<Event>)
    requires Claimed(s)
    requires Run(BeginSegment(s), es).Some? && !Hazard(Run(BeginSegment(s), es).value.h)
    requires forall k :: 0 <= k < |es| && es[k].Complete? ==> es[k].ok
    requires var r := Run(BeginSegment(s), es).value; r.next + r.cfg.bufBlocks <= r.cfg.numBlocks
    ensures Lossless(Run(BeginSegment(s), es).value.h)
  {
    BeginFates(s);
    hide Inv;
    hide BeginSegment;
    FatesFollowCompletions(BeginSegment(s), es);
    NoneFailed(es);
  }

  lemma {:induction false} NoneFailed(es: seq<Event>)
    requires forall k :: 0 <= k < |es| && es[k].Complete? ==> es[k].ok
    ensures ChunksDone(es, false) == {}
    decreases |es|
  {
    if es != [] {
      assert forall k :: 0 <= k < |es[1..]| ==> es[1..][k] == es[k + 1];
      NoneFailed(es[1..]);
    }
  }
}
