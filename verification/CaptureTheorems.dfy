/** What follows for whole recordings that meet no hazard: placement, stability,
    accounting, the limit, the breaker, and why a recording stopped. */
module CaptureTheorems {
  import opened Bytes
  import opened Record
  import opened Readers
  import opened Capture
  import opened CaptureInvariant
  import opened CaptureRuns
  import opened CaptureDisk
  import Packet

  // ---- placement and stability ----

  /** Write placement: chunk c goes to start + c * bufBlocks, inside the device and
      not below the segment's start; different chunks never overlap; and every
      write outstanding or waiting is for exactly its chunk's place. */
  lemma Placement(s: Cap, c: nat, c': nat)
    requires Inv(s) && c < c' < |s.h.placed|
    ensures s.start <= TargetOf(s, c) && TargetOf(s, c) + s.cfg.bufBlocks <= TargetOf(s, c')
    ensures TargetOf(s, c') + s.cfg.bufBlocks <= s.next <= s.cfg.numBlocks
    ensures forall io :: io in s.out ==> io.chunk < |s.h.placed| && io.target == TargetOf(s, io.chunk)
    ensures s.waiter.Some? ==>
              s.waiter.value < |s.bufs| && s.bufs[s.waiter.value].target == TargetOf(s, s.bufs[s.waiter.value].chunk)
  {
    assert PlaceOk(s);
    TargetBelowNext(s, c);
    TargetBelowNext(s, c');
    ChunkOrder(s.start, c, c', s.cfg.bufBlocks);
    hide ChunkBlock;
    forall io | io in s.out ensures io.chunk < |s.h.placed| && io.target == TargetOf(s, io.chunk) {
      IoChunkKnown(s, io);
    }
  }

  /** Buffer stability: from its hand-off until its write has completed, and also
      while it waits for a late retry and from that retry on, the buffer that
      carries a chunk holds the same bytes, the zero-padded chunk. */
  lemma BuffersAreStable(s: Cap, es: seq<Event>, c: nat)
    requires Inv(s) && Run(s, es).Some? && !Hazard(Run(s, es).value.h)
    requires Outstanding(s, c) && Outstanding(Run(s, es).value, c)
    ensures var r := Run(s, es).value;
            var i := s.h.carrier[c];
            && c < |r.h.carrier| && r.h.carrier[c] == i && c < |s.h.placed| && i < |s.bufs| && i < |r.bufs|
            && Image(s.cfg, s.bufs[i], s.h.placed[c]) && Image(s.cfg, r.bufs[i], s.h.placed[c])
            && s.cfg.bufSize <= |s.bufs[i].data| && s.cfg.bufSize <= |r.bufs[i].data|
            && r.bufs[i].data[..s.cfg.bufSize] == s.bufs[i].data[..s.cfg.bufSize]
  {
    InvShape(s);
    hide Inv;
    hide Shape;
    hide ChunkBytes;
    RunGrows(s, es);
    RunKeeps(s, es);
    OutstandingHolds(s, c);
    OutstandingHolds(Run(s, es).value, c);
    hide Outstanding;
  }

  lemma OutstandingHolds(s: Cap, c: nat)
    requires Inv(s) && Outstanding(s, c)
    ensures Holds(s, s.h.carrier[c], c)
  {
    hide Image;
    hide ChunkBlock;
    hide LogOk;
    hide BoundOk;
    hide TscOk;
    hide FlightOk;
    assert OutOk(s) && WaiterOk(s);
    hide Inv;
    if IoOf(s, c) in s.out {
      assert IoOk(s, IoOf(s, c));
    }
  }

  // ---- accounting ----

  /** pending_writes is the writes submitted or queued for a retry; it is never
      negative; and the finalize chain has been started once if the segment is
      stopped with nothing pending, and not before. */
  lemma Accounting(s: Cap)
    requires Inv(s)
    ensures s.pending == |s.out| + Waits(s) >= 0
    ensures s.finals == if s.stopping && |s.out| == 0 && s.waiter.None? then 1 else 0
  {
    hide Body;
  }

  datatype Fate = Durable | Flying | Failed

  /** What has become of a chunk that was handed off. */
  ghost function FateOf(s: Cap, c: nat): Fate {
    if c in s.h.done then Durable else if Outstanding(s, c) then Flying else Failed
  }

  /** The records in the first n chunks with a given fate. */
  ghost function CountFate(s: Cap, n: nat, f: Fate): nat
    requires n <= |s.h.placed|
  {
    if n == 0 then 0
    else CountFate(s, n - 1, f) + (if FateOf(s, n - 1) == f then |s.h.placed[n - 1]| else 0)
  }

  lemma {:induction false} CountFlat(s: Cap, n: nat)
    requires n <= |s.h.placed|
    ensures |Flat(s.h.placed[..n])| == CountFate(s, n, Durable) + CountFate(s, n, Flying) + CountFate(s, n, Failed)
  {
    hide FateOf;
    if n > 0 {
      CountFlat(s, n - 1);
      assert s.h.placed[..n] == s.h.placed[..n - 1] + [s.h.placed[n - 1]];
      FlatSnoc(s.h.placed[..n - 1], s.h.placed[n - 1]);
    }
  }

  /** Conservation: record_count is the records in durable chunks, plus those in
      flight, plus those in chunks whose write failed, plus those still being
      filled or dropped with the final buffer. */
  lemma RecordsAreAccountedFor(s: Cap)
    requires Inv(s) && CoverOk(s)
    ensures s.cur < |s.bufs| && s.h.own <= |s.h.placed|
    ensures s.recordCount
         == CountFate(s, s.h.own, Durable) + CountFate(s, s.h.own, Flying) + CountFate(s, s.h.own, Failed)
            + (if s.stopping then |s.h.tail| else |Filling(s)|)
    ensures forall c: nat :: c < s.h.own && FateOf(s, c) == Failed ==> c in s.h.lost
  {
    assert LogOk(s);
    hide Body;
    CountFlat(s, s.h.own);
  }

  lemma {:induction false} RunKeepsCover(s: Cap, es: seq<Event>)
    requires Inv(s) && CoverOk(s) && Run(s, es).Some? && !Hazard(Run(s, es).value.h)
    ensures CoverOk(Run(s, es).value)
    decreases |es|
  {
    hide Inv;
    hide CoverOk;
    hide Next;
    InvShape(s);
    if es != [] {
      var t := Next(s, es[0]);
      RunGrows(t, es[1..]);
      NextKeeps(s, es[0]);
      NextCover(s, es[0]);
      RunKeepsCover(t, es[1..]);
    }
  }

  /** Every run of every recording that met no hazard, from the claim on, whatever
      arrived and whatever the device did: no record is unaccounted for, no write
      is forgotten or counted twice, the limit holds, and the finalize chain was
      started once if the segment is stopped and drained, and not otherwise. */
  lemma WholeRecording(s: Cap, es: seq<Event>)
    requires Allocated(s) && ConfigOk(s.cfg) && s.start <= s.cfg.numBlocks
    requires s.pending == 0 && s.out == multiset{} && s.waiter.None?
    requires Run(BeginSegment(s), es).Some? && !Hazard(Run(BeginSegment(s), es).value.h)
    ensures var r := Run(BeginSegment(s), es).value;
            && r.cur < |r.bufs| && r.h.own <= |r.h.placed|
            && r.recordCount == CountFate(r, r.h.own, Durable) + CountFate(r, r.h.own, Flying)
                                + CountFate(r, r.h.own, Failed) + (if r.stopping then |r.h.tail| else |Filling(r)|)
            && r.pending == |r.out| + Waits(r)
            && r.finals == (if r.stopping && r.pending == 0 then 1 else 0)
            && (r.cfg.countLimit != 0 ==> r.recordCount <= r.cfg.countLimit)
  {
    hide CountFate;
    var b := BeginSegment(s);
    BeginIsSound(s);
    assert CoverOk(b);
    hide Inv;
    hide CoverOk;
    RunKeeps(b, es);
    RunKeepsCover(b, es);
    hide BeginSegment;
    var r := Run(b, es).value;
    RecordsAreAccountedFor(r);
    Accounting(r);
    if r.cfg.countLimit != 0 {
      LimitHolds(r);
    }
  }

  /** With a nonzero limit the count never passes it, and reaching it stops. */
  lemma LimitHolds(s: Cap)
    requires Inv(s) && s.cfg.countLimit != 0
    ensures s.recordCount <= s.cfg.countLimit
    ensures s.recordCount == s.cfg.countLimit ==> s.stopping
  {
    hide Body;
  }

  // ---- the failure breaker ----

  /** Failed completions since the last successful one. */
  function Streak(es: seq<Event>): nat {
    if es == [] then 0
    else
      var e := es[|es| - 1];
      var before := Streak(es[..|es| - 1]);
      if !e.Complete? then before else if e.ok then 0 else before + 1
  }

  lemma NoteCounts(s: Cap, rcs: seq<Rc>)
    requires Shape(s) && !Hazard(NoteWriteFailure(s, rcs).h)
    ensures NoteWriteFailure(s, rcs).failures == s.failures + 1
  {
    hide StopRecording;
    var t := s.(failures := s.failures + 1);
    if t.failures >= WRITE_FAILURE_THRESHOLD {
      StopKeepsFailures(t.(reason := StopWriteFailures), rcs);
    }
  }

  lemma FlushKeepsFailures(s: Cap, rcs: seq<Rc>)
    requires Shape(s) && !Hazard(FlushBuffer(s, rcs).h)
    ensures FlushBuffer(s, rcs).failures == s.failures
  {
    FlushCases(s, rcs);
  }

  lemma StopKeepsFailures(s: Cap, rcs: seq<Rc>)
    requires Shape(s) && !Hazard(StopRecording(s, rcs).h)
    ensures StopRecording(s, rcs).failures == s.failures
  {
    hide FlushBuffer;
    if !s.stopping {
      FlushKeepsFailures(s.(stopping := true), rcs);
    }
  }

  lemma OursKeepsFailures(s: Cap, tsc: nat, payload: seq<byte>, rx: Rx)
    requires Shape(s) && !Hazard(CaptureOurs(s, tsc, payload, rx).s.h)
    ensures CaptureOurs(s, tsc, payload, rx).s.failures == s.failures
  {
    hide FlushBuffer;
    hide StopRecording;
    hide Encode;
    hide Stored;
    var b := s.bufs[s.cur];
    var size := RECORD_HDR + |payload|;
    if !b.inFlight {
      if b.used + size <= s.cfg.bufSize {
        AppendLimitKeepsFailures(s, tsc, payload, rx.stopRcs);
      } else if !RoomFor(s.cfg, s.next) {
        StopKeepsFailures(Drop(s).(reason := StopDiskFull), rx.stopRcs);
      } else {
        var t := NextBuffer(FlushBuffer(s, rx.flushRcs));
        if !t.bufs[t.cur].inFlight && size <= t.cfg.bufSize {
          AppendLimitCounts(t, tsc, payload, rx.stopRcs);
          AppendLimitKeepsFailures(t, tsc, payload, rx.stopRcs);
        }
        FlushKeepsFailures(s, rx.flushRcs);
      }
    }
  }

  lemma AppendLimitKeepsFailures(s: Cap, tsc: nat, payload: seq<byte>, rcs: seq<Rc>)
    requires Shape(s) && s.bufs[s.cur].used + RECORD_HDR + |payload| <= s.cfg.bufSize
    requires !Hazard(AppendAndCheckLimit(s, tsc, payload, rcs).s.h)
    ensures AppendAndCheckLimit(s, tsc, payload, rcs).s.failures == s.failures
  {
    hide StopRecording;
    hide Encode;
    hide Stored;
    var t := Append(s, tsc, payload);
    if t.cfg.countLimit != 0 && t.recordCount >= t.cfg.countLimit {
      StopKeepsFailures(t.(reason := StopCountLimit), rcs);
    }
  }

  lemma {:induction false} PollKeepsFailures(s: Cap, tsc: nat, burst: seq<Rx>)
    requires Shape(s) && !Hazard(CapturePoll(s, tsc, burst).h)
    ensures CapturePoll(s, tsc, burst).failures == s.failures
    decreases |burst|
  {
    hide CaptureOurs;
    if burst != [] {
      var p := CaptureFrame(s, tsc, burst[0]);
      if !p.stop {
        PollCounts(p.s, tsc, burst[1..]);
        PollKeepsFailures(p.s, tsc, burst[1..]);
      }
      if OursIn(s.cfg, burst[0]).Some? && !s.stopping && s.recording {
        OursKeepsFailures(s, tsc, OursIn(s.cfg, burst[0]).value, burst[0]);
      }
    }
  }

  lemma CompleteStreak(s: Cap, io: Io, ok: bool, rcs: seq<Rc>)
    requires Shape(s) && io in s.out && io.buf < MAX_WRITE_BUFFERS
    requires !Hazard(WriteComplete(s, io, ok, rcs).h)
    ensures WriteComplete(s, io, ok, rcs).failures == if ok then 0 else s.failures + 1
  {
    hide NoteWriteFailure;
    if !ok {
      var t := Release(s, io.buf).(out := s.out - multiset{io});
      NoteCounts(t.(h := t.h.(lost := t.h.lost + {io.chunk})), rcs);
    }
  }

  lemma NextStreak(s: Cap, e: Event)
    requires Inv(s) && Enabled(s, e) && Shape(s) && !Hazard(Next(s, e).h)
    ensures Next(s, e).failures
         == if !e.Complete? then s.failures else if e.ok then 0 else s.failures + 1
  {
    hide Body;
    hide Hazard;
    hide Keeps;
    hide Shape;
    hide CapturePoll;
    hide WriteComplete;
    hide RetryFires;
    hide StopRequest;
    if s.waiter.Some? {
      assert Body(s);
      RetryHasRoom(s);
    }
    hide Inv;
    match e {
      case Poll(tsc, burst) => PollKeepsFailures(s, tsc, burst);
      case Complete(io, ok, rcs) => CompleteStreak(s, io, ok, rcs);
      case Retry(rcs) => RetryKeepsFailures(s, rcs);
      case Stop(user, rcs) => StopRequestKeepsFailures(s, user, rcs);
    }
  }

  lemma StopRequestKeepsFailures(s: Cap, user: bool, rcs: seq<Rc>)
    requires Shape(s) && !Hazard(StopRequest(s, user, rcs).h)
    ensures StopRequest(s, user, rcs).failures == s.failures
  {
    hide StopRecording;
    if s.recording {
      StopKeepsFailures(if user then s.(reason := StopUser) else s, rcs);
    }
  }

  lemma RetryKeepsFailures(s: Cap, rcs: seq<Rc>)
    requires Shape(s) && s.waiter.Some? && !Hazard(RetryFires(s, rcs).h)
    requires RoomFor(s.cfg, s.bufs[s.waiter.value].target)
    ensures RetryFires(s, rcs).failures == s.failures
  {
    hide DropWrite;
  }

  lemma {:induction false} RunSnoc(s: Cap, es: seq<Event>, e: Event)
    requires Shape(s) && Run(s, es + [e]).Some?
    ensures Run(s, es).Some?
    ensures var t := Run(s, es).value;
            Enabled(t, e) && Run(s, es + [e]).value == Next(t, e)
    decreases |es|
  {
    hide Next;
    if es == [] {
      assert es + [e] == [e] && [e][1..] == [];
    } else {
      assert (es + [e])[0] == es[0] && (es + [e])[1..] == es[1..] + [e];
      RunSnoc(Next(s, es[0]), es[1..], e);
    }
  }

  /** The failure counter is the streak of failed completions. */
  lemma {:induction false} FailuresAreTheStreak(s: Cap, es: seq<Event>)
    requires Inv(s) && s.failures == 0
    requires Run(s, es).Some? && !Hazard(Run(s, es).value.h)
    ensures Run(s, es).value.failures == Streak(es)
    decreases |es|
  {
    hide Inv;
    hide Next;
    InvShape(s);
    if es != [] {
      var front, e := es[..|es| - 1], es[|es| - 1];
      assert es == front + [e];
      RunSnoc(s, front, e);
      var t := Run(s, front).value;
      NextGrows(t, e);
      RunKeeps(s, front);
      InvShape(t);
      NextStreak(t, e);
      FailuresAreTheStreak(s, front);
    }
  }

  /** Circuit breaker: five failed completions with no success between them mean
      the recording is stopping. */
  lemma FiveFailuresStop(s: Cap, es: seq<Event>)
    requires Inv(s) && s.failures == 0
    requires Run(s, es).Some? && !Hazard(Run(s, es).value.h)
    requires Streak(es) >= 5
    ensures Run(s, es).value.stopping
  {
    hide Body;
    FailuresAreTheStreak(s, es);
    RunKeeps(s, es);
  }

  /** A stop hands off at most the one final buffer. */
  lemma StopHandsOffAtMostOne(s: Cap, rcs: seq<Rc>)
    requires Shape(s) && !Hazard(StopRecording(s, rcs).h)
    ensures |StopRecording(s, rcs).h.placed| <= |s.h.placed| + 1
  {
    hide RetryFlush;
    if !s.stopping {
      FlushCases(Stopped(s), rcs);
    }
  }

  /** After the stop, no run hands anything off until the next claim. */
  lemma {:induction false} NothingAfterTheStop(s: Cap, es: seq<Event>)
    requires Shape(s) && s.stopping && Run(s, es).Some?
    ensures Run(s, es).value.h.placed == s.h.placed && Run(s, es).value.next == s.next
    ensures Run(s, es).value.h.log == s.h.log && Run(s, es).value.recordCount == s.recordCount
    decreases |es|
  {
    hide Next;
    if es != [] {
      NextFrozen(s, es[0]);
      NextGrows(s, es[0]);
      NothingAfterTheStop(Next(s, es[0]), es[1..]);
    }
  }

  // ---- why a recording stopped ----

  lemma StopKeepsReason(s: Cap, rcs: seq<Rc>)
    requires Shape(s) && !Hazard(StopRecording(s, rcs).h)
    ensures StopRecording(s, rcs).reason == s.reason
    ensures !RoomFor(s.cfg, s.next) ==> StopRecording(s, rcs).next == s.next
  {
    hide FlushBuffer;
    hide Keeps;
    if !s.stopping {
      FlushKeepsReason(s.(stopping := true), rcs);
    }
  }

  lemma FlushKeepsReason(s: Cap, rcs: seq<Rc>)
    requires Shape(s) && !Hazard(FlushBuffer(s, rcs).h)
    ensures FlushBuffer(s, rcs).reason == s.reason && FlushBuffer(s, rcs).stopping == s.stopping
    ensures !RoomFor(s.cfg, s.next) ==> FlushBuffer(s, rcs).next == s.next
  {
    FlushCases(s, rcs);
  }

  /** The limit was reached, or the device is full. */
  ghost predicate PollReason(r: Cap) {
    || (r.reason == StopCountLimit && r.cfg.countLimit != 0 && r.recordCount >= r.cfg.countLimit)
    || (r.reason == StopDiskFull && r.next + r.cfg.bufBlocks > r.cfg.numBlocks)
  }

  lemma AppendLimitReason(s: Cap, tsc: nat, payload: seq<byte>, rcs: seq<Rc>)
    requires Shape(s) && s.bufs[s.cur].used + RECORD_HDR + |payload| <= s.cfg.bufSize && !s.stopping
    requires !Hazard(AppendAndCheckLimit(s, tsc, payload, rcs).s.h)
    ensures var p := AppendAndCheckLimit(s, tsc, payload, rcs);
            (p.s.stopping <==> p.stop) && (p.stop ==> PollReason(p.s))
  {
    hide StopRecording;
    hide Encode;
    hide Stored;
    var t := Append(s, tsc, payload);
    if t.cfg.countLimit != 0 && t.recordCount >= t.cfg.countLimit {
      StopKeepsReason(t.(reason := StopCountLimit), rcs);
    }
  }

  lemma OursReason(s: Cap, tsc: nat, payload: seq<byte>, rx: Rx)
    requires Shape(s) && !s.stopping && !Hazard(CaptureOurs(s, tsc, payload, rx).s.h)
    ensures var p := CaptureOurs(s, tsc, payload, rx);
            (p.s.stopping <==> p.stop) && (p.stop ==> PollReason(p.s))
  {
    hide FlushBuffer;
    hide StopRecording;
    hide AppendAndCheckLimit;
    var b := s.bufs[s.cur];
    var size := RECORD_HDR + |payload|;
    if !b.inFlight {
      if b.used + size <= s.cfg.bufSize {
        AppendLimitReason(s, tsc, payload, rx.stopRcs);
      } else if !RoomFor(s.cfg, s.next) {
        StopKeepsReason(Drop(s).(reason := StopDiskFull), rx.stopRcs);
      } else {
        var t := NextBuffer(FlushBuffer(s, rx.flushRcs));
        if !t.bufs[t.cur].inFlight && size <= t.cfg.bufSize {
          AppendLimitCounts(t, tsc, payload, rx.stopRcs);
          FlushKeepsReason(s, rx.flushRcs);
          AppendLimitReason(t, tsc, payload, rx.stopRcs);
        } else {
          FlushKeepsReason(s, rx.flushRcs);
        }
      }
    }
  }

  lemma {:induction false} BurstReason(s: Cap, tsc: nat, burst: seq<Rx>)
    requires Shape(s) && !s.stopping && !Hazard(CapturePoll(s, tsc, burst).h)
    ensures CapturePoll(s, tsc, burst).stopping ==> PollReason(CapturePoll(s, tsc, burst))
    decreases |burst|
  {
    hide CaptureOurs;
    hide PollReason;
    if burst != [] {
      var p := CaptureFrame(s, tsc, burst[0]);
      if !p.stop {
        PollCounts(p.s, tsc, burst[1..]);
      }
      if OursIn(s.cfg, burst[0]).Some? && s.recording {
        OursReason(s, tsc, OursIn(s.cfg, burst[0]).value, burst[0]);
      }
      if !p.stop {
        BurstReason(p.s, tsc, burst[1..]);
      }
    }
  }

  lemma CompleteReason(s: Cap, io: Io, ok: bool, rcs: seq<Rc>)
    requires Shape(s) && io in s.out && io.buf < MAX_WRITE_BUFFERS && !s.stopping
    requires !Hazard(WriteComplete(s, io, ok, rcs).h)
    ensures var r := WriteComplete(s, io, ok, rcs);
            r.stopping ==> !ok && r.reason == StopWriteFailures && r.failures >= WRITE_FAILURE_THRESHOLD
  {
    hide NoteWriteFailure;
    if !ok {
      var t := Release(s, io.buf).(out := s.out - multiset{io});
      NoteReason(t.(h := t.h.(lost := t.h.lost + {io.chunk})), rcs);
    }
  }

  lemma NoteReason(s: Cap, rcs: seq<Rc>)
    requires Shape(s) && !s.stopping && !Hazard(NoteWriteFailure(s, rcs).h)
    ensures var r := NoteWriteFailure(s, rcs);
            r.stopping ==> r.reason == StopWriteFailures && r.failures >= WRITE_FAILURE_THRESHOLD
  {
    hide StopRecording;
    var t := s.(failures := s.failures + 1).(reason := StopWriteFailures);
    if s.failures + 1 >= WRITE_FAILURE_THRESHOLD {
      StopKeepsReason(t, rcs);
      StopKeepsFailures(t, rcs);
    }
  }

  /** last_stop_reason tells why: whichever event stops a recording leaves the
      reason that belongs to it, and a retry never stops one. */
  lemma StopReasonIsTrue(s: Cap, e: Event)
    requires Inv(s) && Enabled(s, e) && Shape(s) && !Hazard(Next(s, e).h)
    requires !s.stopping && Next(s, e).stopping
    ensures var r := Next(s, e);
            match e
            case Poll(_, _) => PollReason(r)
            case Complete(_, ok, _) => !ok && r.reason == StopWriteFailures && r.failures >= 5
            case Retry(_) => false
            case Stop(user, _) => r.reason == if user then StopUser else s.reason
  {
    hide Body;
    hide Keeps;
    hide CapturePoll;
    hide WriteComplete;
    hide RetryFires;
    hide StopRecording;
    hide PollReason;
    match e {
      case Poll(tsc, burst) => BurstReason(s, tsc, burst);
      case Complete(io, ok, rcs) => CompleteReason(s, io, ok, rcs);
      case Retry(rcs) =>
        RetryHasRoom(s);
        RetryNeverStops(s, rcs);
      case Stop(user, rcs) => StopKeepsReason(if user then s.(reason := StopUser) else s, rcs);
    }
  }

  lemma RetryNeverStops(s: Cap, rcs: seq<Rc>)
    requires Shape(s) && s.waiter.Some? && !Hazard(RetryFires(s, rcs).h)
    requires RoomFor(s.cfg, s.bufs[s.waiter.value].target)
    ensures RetryFires(s, rcs).stopping == s.stopping
  {
    hide DropWrite;
  }

  // ---- what becomes of the reason ----

  function FailuresStep(e: Event, failures: nat): nat {
    if !e.Complete? then failures else if e.ok then 0 else failures + 1
  }

  /** An event after the stop that gives last_stop_reason a new value: a user's
      stop, or a failed completion that is the fifth in a row or later. */
  predicate Overwrites(e: Event, failures: nat) {
    match e
    case Stop(user, _) => user
    case Complete(_, ok, _) => !ok && failures + 1 >= 5
    case _ => false
  }

  function ReasonStep(e: Event, reason: StopReason, failures: nat): StopReason {
    if !Overwrites(e, failures) then reason else if e.Stop? then StopUser else StopWriteFailures
  }

  /** last_stop_reason as the events alone give it. */
  function ReasonAfter(es: seq<Event>, reason: StopReason, failures: nat): StopReason {
    if es == [] then reason
    else ReasonAfter(es[1..], ReasonStep(es[0], reason, failures), FailuresStep(es[0], failures))
  }

  function FailuresAfter(es: seq<Event>, failures: nat): nat {
    if es == [] then failures else FailuresAfter(es[1..], FailuresStep(es[0], failures))
  }

  lemma NoteReasonLate(s: Cap, rcs: seq<Rc>)
    requires Shape(s) && s.stopping
    ensures NoteWriteFailure(s, rcs).reason
         == if s.failures + 1 >= WRITE_FAILURE_THRESHOLD then StopWriteFailures else s.reason
  {
    StopTwice(s.(failures := s.failures + 1, reason := StopWriteFailures), rcs);
  }

  lemma CompleteReasonLate(s: Cap, io: Io, ok: bool, rcs: seq<Rc>)
    requires Shape(s) && io in s.out && io.buf < MAX_WRITE_BUFFERS && s.stopping
    ensures WriteComplete(s, io, ok, rcs).reason == ReasonStep(Complete(io, ok, rcs), s.reason, s.failures)
  {
    hide NoteWriteFailure;
    hide Keeps;
    if !ok {
      var t := Release(s, io.buf).(out := s.out - multiset{io});
      NoteReasonLate(t.(h := t.h.(lost := t.h.lost + {io.chunk})), rcs);
    }
  }

  lemma RetryKeepsReason(s: Cap, rcs: seq<Rc>)
    requires Shape(s) && s.waiter.Some? && !Hazard(RetryFires(s, rcs).h)
    requires RoomFor(s.cfg, s.bufs[s.waiter.value].target)
    ensures RetryFires(s, rcs).reason == s.reason
  {
    hide DropWrite;
  }

  lemma NextReason(s: Cap, e: Event)
    requires Inv(s) && s.stopping && s.recording && Enabled(s, e) && Shape(s) && !Hazard(Next(s, e).h)
    ensures Next(s, e).reason == ReasonStep(e, s.reason, s.failures)
  {
    hide Body;
    hide Hazard;
    hide Keeps;
    hide Shape;
    hide CapturePoll;
    hide WriteComplete;
    hide RetryFires;
    if s.waiter.Some? {
      assert Body(s);
      RetryHasRoom(s);
    }
    hide Inv;
    match e {
      case Poll(tsc, burst) => PollFrozen(s, tsc, burst);
      case Complete(io, ok, rcs) => CompleteReasonLate(s, io, ok, rcs);
      case Retry(rcs) => RetryKeepsReason(s, rcs);
      case Stop(user, rcs) => StopTwice(if user then s.(reason := StopUser) else s, rcs);
    }
  }

  /** From the stop to the next claim, last_stop_reason is the one of the last
      event that overwrites it. */
  lemma {:induction false} ReasonFollowsEvents(s: Cap, es: seq<Event>)
    requires Inv(s) && s.stopping && s.recording
    requires Run(s, es).Some? && !Hazard(Run(s, es).value.h)
    ensures Run(s, es).value.reason == ReasonAfter(es, s.reason, s.failures)
    decreases |es|
  {
    InvShape(s);
    hide Inv;
    hide Next;
    hide Shape;
    hide Grows;
    hide Hazard;
    hide ReasonStep;
    hide FailuresStep;
    if es != [] {
      var t := Next(s, es[0]);
      HazardsStay(t, es[1..]);
      LateStep(s, es[0]);
      ReasonFollowsEvents(t, es[1..]);
    }
  }

  lemma HazardsStay(s: Cap, es: seq<Event>)
    requires Shape(s) && Run(s, es).Some? && !Hazard(Run(s, es).value.h)
    ensures !Hazard(s.h)
  {
    hide Run;
    RunGrows(s, es);
  }

  /** One event after the stop. */
  lemma LateStep(s: Cap, e: Event)
    requires Inv(s) && s.stopping && s.recording && Enabled(s, e) && Shape(s) && !Hazard(Next(s, e).h)
    ensures var t := Next(s, e);
            && Inv(t) && t.stopping && t.recording && t.failures == FailuresStep(e, s.failures)
            && t.reason == ReasonStep(e, s.reason, s.failures)
  {
    hide Inv;
    hide Next;
    hide Shape;
    NextGrows(s, e);
    NextKeeps(s, e);
    NextStreak(s, e);
    NextReason(s, e);
    hide ReasonStep;
  }

  /** "last_stop_reason says why the recording stopped" holds of a count-limit or
      disk-full stop until the next claim exactly if no user asks for a stop
      afterwards and no completion fails as the fifth in a row or later. */
  lemma ReasonSurvivesIff(s: Cap, es: seq<Event>)
    requires Inv(s) && s.stopping && s.recording && (s.reason == StopCountLimit || s.reason == StopDiskFull)
    requires Run(s, es).Some? && !Hazard(Run(s, es).value.h)
    ensures Run(s, es).value.reason == s.reason
       <==> forall k :: 0 <= k < |es| ==> !Overwrites(es[k], FailuresAfter(es[..k], s.failures))
  {
    hide Inv;
    hide Run;
    ReasonFollowsEvents(s, es);
    KeptUnlessOverwritten(es, s.reason, s.failures);
  }

  lemma {:induction false} KeptUnlessOverwritten(es: seq<Event>, reason: StopReason, failures: nat)
    requires reason == StopCountLimit || reason == StopDiskFull
    ensures ReasonAfter(es, reason, failures) == reason
       <==> forall k :: 0 <= k < |es| ==> !Overwrites(es[k], FailuresAfter(es[..k], failures))
    decreases |es|
  {
    if es != [] {
      var rest, f := es[1..], FailuresStep(es[0], failures);
      assert es[..0] == [];
      forall k | 0 <= k < |rest|
        ensures FailuresAfter(es[..k + 1], failures) == FailuresAfter(rest[..k], f) && es[k + 1] == rest[k]
      {
        assert es[..k + 1][1..] == rest[..k];
      }
      if Overwrites(es[0], failures) {
        OverwrittenForGood(rest, ReasonStep(es[0], reason, failures), f);
        assert FailuresAfter(es[..0], failures) == failures;
      } else {
        KeptUnlessOverwritten(rest, reason, f);
        forall k | 0 <= k < |es| && (forall i :: 0 <= i < |rest| ==> !Overwrites(rest[i], FailuresAfter(rest[..i], f)))
          ensures !Overwrites(es[k], FailuresAfter(es[..k], failures))
        {
          if k > 0 {
            assert es[k] == rest[k - 1];
          }
        }
      }
    }
  }

  /** Nothing brings the old reason back before the next claim. */
  lemma {:induction false} OverwrittenForGood(es: seq<Event>, reason: StopReason, failures: nat)
    requires reason == StopUser || reason == StopWriteFailures
    ensures ReasonAfter(es, reason, failures) == StopUser || ReasonAfter(es, reason, failures) == StopWriteFailures
    decreases |es|
  {
    if es != [] {
      OverwrittenForGood(es[1..], ReasonStep(es[0], reason, failures), FailuresStep(es[0], failures));
    }
  }

  // ---- from the sender to the log ----

  /** A frame built by app_build_packet for the capture port, parsed with the same
      sequence setting, is recorded with its payload, zero-padded to the frame's
      length. */
  lemma BuiltFrameIsOurs(c: Config, a: Packet.Addressing, total: nat, seqNo: u64, payload: seq<byte>,
                         flushRcs: seq<Rc>, stopRcs: seq<Rc>)
    requires Packet.ValidAddressing(a) && a.dstPort == c.port
    requires Packet.AppHdrLen(c.withSeq) + |payload| <= total <= Packet.MAX_PARSED
    ensures var f := Packet.Frame(a, total, Packet.Body(total, c.withSeq, seqNo, payload));
            OursIn(c, Rx(f, false, flushRcs, stopRcs))
            == Some(payload + Zeros(total - Packet.AppHdrLen(c.withSeq) - |payload|))
  {
    hide Packet.Frame;
    hide Packet.Body;
    hide Packet.Parse;
    hide Zeros;
    Packet.PacketRoundTrip(a, total, c.withSeq, seqNo, payload);
  }
}
