/** Runs that reach what the theorems are about: a recording that holds a record,
    and each situation in which the write path breaks a promise. */
module CaptureWitness {
  import opened Bytes
  import opened Record
  import opened Capture
  import opened CaptureInvariant
  import opened CaptureRuns
  import opened CaptureLimits
  import opened SegmentData
  import opened Tuning

  // ---- a device that takes everything, or refuses everything ----

  /** A packet for the capture port that takes more than half a chunk. */
  predicate BigPacket(c: Config, rx: Rx, payload: seq<byte>) {
    && OursIn(c, rx) == Some(payload) && c.countLimit == 0
    && RECORD_HDR + |payload| <= c.bufSize < 2 * (RECORD_HDR + |payload|)
  }

  function Answered(rx: Rx, rcs: seq<Rc>): Rx {
    rx.(flushRcs := rcs, stopRcs := [])
  }

  /** Ready for a claim, with room for `n` chunks. */
  ghost predicate Claimable(s: Cap, n: nat) {
    && Allocated(s) && ConfigOk(s.cfg) && s.pending == 0 && s.out == multiset{} && s.waiter.None?
    && s.start + n * s.cfg.bufBlocks <= s.cfg.numBlocks
  }

  /** Nothing in flight, `k` writes refused so far, the current buffer more than
      half full, and room for `n` more chunks. */
  ghost predicate Filled(s: Cap, k: nat, n: nat, size: nat) {
    && Shape(s) && s.recording && !s.stopping && s.pending == 0 && s.finals == 0
    && s.out == multiset{} && s.waiter.None? && s.failures == k
    && (forall i :: 0 <= i < |s.bufs| ==> !s.bufs[i].inFlight)
    && s.cur < s.cfg.bufCount && s.bufs[s.cur].used == size && s.next + n * s.cfg.bufBlocks <= s.cfg.numBlocks
  }

  /** Whose packet it is does not depend on the device. */
  lemma OursAnswered(c: Config, rx: Rx, rcs: seq<Rc>)
    ensures OursIn(c, Answered(rx, rcs)) == OursIn(c, rx)
  {
  }

  lemma PollOne(s: Cap, tsc: nat, rx: Rx, payload: seq<byte>)
    requires Shape(s) && s.recording && !s.stopping && OursIn(s.cfg, rx) == Some(payload)
    ensures CapturePoll(s, tsc, [rx]) == CaptureOurs(s, tsc, payload, rx).s
  {
    hide CaptureOurs;
    hide OursIn;
    var p := CaptureFrame(s, tsc, rx);
    assert [rx][1..] == [];
    assert CapturePoll(p.s, tsc, []) == p.s;
  }

  /** A record appended below the count limit. */
  lemma AppendOnly(s: Cap, tsc: nat, payload: seq<byte>, rcs: seq<Rc>)
    requires Shape(s) && s.bufs[s.cur].used + RECORD_HDR + |payload| <= s.cfg.bufSize
    requires s.cfg.countLimit == 0
    ensures var t := Append(s, tsc, payload);
            && AppendAndCheckLimit(s, tsc, payload, rcs) == PollStep(t, false)
            && t.bufs[s.cur].used == s.bufs[s.cur].used + RECORD_HDR + |payload|
            && |t.bufs| == |s.bufs| && (forall i :: 0 <= i < |s.bufs| ==> t.bufs[i].inFlight == s.bufs[i].inFlight)
            && (forall i :: 0 <= i < |s.bufs| && i != s.cur ==> t.bufs[i] == s.bufs[i])
            && t.cfg == s.cfg && t.cur == s.cur && t.next == s.next && t.pending == s.pending
            && t.finals == s.finals && t.failures == s.failures && t.out == s.out && t.waiter == s.waiter
            && t.recording == s.recording && t.stopping == s.stopping
            && t.h == s.h.(log := s.h.log + [Record(s.recordCount, tsc, payload)])
            && t.bufs[s.cur].recs == s.bufs[s.cur].recs + [Record(s.recordCount, tsc, payload)]
  {
    hide Encode;
    hide Stored;
    hide StopRecording;
  }

  lemma FirstFilled(s: Cap, n: nat, tsc: u64, rx: Rx, payload: seq<byte>)
    requires Claimable(s, n) && BigPacket(s.cfg, rx, payload)
    ensures var r := CapturePoll(BeginSegment(s), tsc, [rx]);
            && Filled(r, 0, n, RECORD_HDR + |payload|) && r.cfg == s.cfg && r.start == s.start && r.cur == 0
            && r.h == NO_HISTORY.(log := [Record(0, tsc, payload)]) && r.next == s.start
            && r.bufs[0].recs == [Record(0, tsc, payload)]
  {
    var b := BeginSegment(s);
    PollOne(b, tsc, rx, payload);
    AppendOnly(b, tsc, payload, rx.stopRcs);
    hide Append;
    hide OursIn;
    hide AppendAndCheckLimit;
  }

  /** A full buffer is handed off and its write refused: one failure more, nothing
      pending, and the packet goes into the next buffer. */
  lemma OneRefusal(s: Cap, k: nat, n: nat, tsc: u64, rx: Rx, payload: seq<byte>)
    requires Filled(s, k, n + 1, RECORD_HDR + |payload|) && BigPacket(s.cfg, rx, payload)
    requires k + 1 < WRITE_FAILURE_THRESHOLD
    ensures var r := CapturePoll(s, tsc, [Answered(rx, [Rejected])]);
            Filled(r, k + 1, n, RECORD_HDR + |payload|) && r.cfg == s.cfg
  {
    hide FlushBuffer;
    hide CapturePoll;
    hide Append;
    hide AppendAndCheckLimit;
    hide OursIn;
    hide Keeps;
    hide NothingToFlush;
    var rx' := Answered(rx, [Rejected]);
    FilledHasRoom(s, k, n, RECORD_HDR + |payload|);
    OursAnswered(s.cfg, rx, [Rejected]);
    PollOne(s, tsc, rx', payload);
    RefusedOnce(s, [Rejected]);
    var t := NextBuffer(FlushBuffer(s, [Rejected]));
    AppendOnly(t, tsc, payload, []);
  }

  lemma RefusedOnce(s: Cap, rcs: seq<Rc>)
    requires Shape(s) && !NothingToFlush(s) && FirstRc(rcs) == Rejected && !s.stopping
    requires s.failures + 1 < WRITE_FAILURE_THRESHOLD
    ensures var r := FlushBuffer(s, rcs);
            && r.pending == s.pending && r.finals == s.finals && r.stopping == s.stopping
            && r.failures == s.failures + 1 && r.cur == s.cur && |r.bufs| == |s.bufs|
            && r.bufs[s.cur].used == 0 && !r.bufs[s.cur].inFlight
            && r.next == s.next + s.cfg.bufBlocks && r.cfg == s.cfg && r.out == s.out && r.waiter == s.waiter
            && r.recording == s.recording
            && (forall i :: 0 <= i < |s.bufs| && i != s.cur ==> r.bufs[i] == s.bufs[i])
  {
    hide Keeps;
    hide FlushBuffer;
    hide NoteWriteFailure;
    FlushRefused(s, rcs);
    RefusedHandOffFacts(s);
    hide RefusedHandOff;
    EarlyFailure(RefusedHandOff(s), LaterRcs(rcs));
  }

  function Refusals(k: nat, tsc: u64, rx: Rx): seq<Event> {
    if k == 0 then [] else [Poll(tsc, [Answered(rx, [Rejected])])] + Refusals(k - 1, tsc, rx)
  }

  lemma RunCons(s: Cap, e: Event, es: seq<Event>)
    requires Shape(s) && Enabled(s, e)
    ensures Run(s, [e] + es) == Run(Next(s, e), es)
  {
    assert ([e] + es)[1..] == es;
  }

  lemma {:induction false} ManyRefusals(s: Cap, k: nat, m: nat, n: nat, tsc: u64, rx: Rx, payload: seq<byte>)
    requires Filled(s, k, m + n, RECORD_HDR + |payload|) && BigPacket(s.cfg, rx, payload)
    requires k + m < WRITE_FAILURE_THRESHOLD
    ensures Run(s, Refusals(m, tsc, rx)).Some?
    ensures var r := Run(s, Refusals(m, tsc, rx)).value;
            Filled(r, k + m, n, RECORD_HDR + |payload|) && r.cfg == s.cfg
    decreases m
  {
    hide CapturePoll;
    hide BigPacket;
    if m > 0 {
      var e := Poll(tsc, [Answered(rx, [Rejected])]);
      OneRefusal(s, k, m - 1 + n, tsc, rx, payload);
      RunCons(s, e, Refusals(m - 1, tsc, rx));
      ManyRefusals(Next(s, e), k + 1, m - 1, n, tsc, rx, payload);
    }
  }

  lemma {:induction false} RunConcat(s: Cap, es: seq<Event>, more: seq<Event>)
    requires Shape(s) && Run(s, es).Some?
    ensures Run(s, es + more) == Run(Run(s, es).value, more)
    decreases |es|
  {
    hide Next;
    if es == [] {
      assert es + more == more;
    } else {
      assert (es + more)[0] == es[0] && (es + more)[1..] == es[1..] + more;
      RunConcat(Next(s, es[0]), es[1..], more);
    }
  }

  /** One packet, then `m` hand-offs refused. */
  function RefusedRun(m: nat, tsc: u64, rx: Rx): seq<Event> {
    [Poll(tsc, [rx])] + Refusals(m, tsc, rx)
  }

  lemma AfterRefusals(s: Cap, m: nat, n: nat, tsc: u64, rx: Rx, payload: seq<byte>)
    requires Claimable(s, m + n) && BigPacket(s.cfg, rx, payload) && m < WRITE_FAILURE_THRESHOLD
    ensures Run(BeginSegment(s), RefusedRun(m, tsc, rx)).Some?
    ensures var r := Run(BeginSegment(s), RefusedRun(m, tsc, rx)).value;
            Filled(r, m, n, RECORD_HDR + |payload|) && r.cfg == s.cfg
  {
    FirstFilled(s, m + n, tsc, rx, payload);
    hide CapturePoll;
    hide BigPacket;
    hide BeginSegment;
    RunCons(BeginSegment(s), Poll(tsc, [rx]), Refusals(m, tsc, rx));
    ManyRefusals(CapturePoll(BeginSegment(s), tsc, [rx]), 0, m, n, tsc, rx, payload);
  }

  lemma FilledHasRoom(s: Cap, k: nat, n: nat, size: nat)
    requires Filled(s, k, n + 1, size) && size > 0
    ensures !NothingToFlush(s) && RoomFor(s.cfg, s.next)
    ensures s.next + n * s.cfg.bufBlocks + s.cfg.bufBlocks <= s.cfg.numBlocks
  {
    Successor(n, s.cfg.bufBlocks);
  }

  // ---- refused writes ----

  lemma RunThen(s: Cap, es: seq<Event>, e: Event)
    requires Shape(s) && Run(s, es).Some? && Enabled(Run(s, es).value, e)
    ensures Run(s, es + [e]) == Some(Next(Run(s, es).value, e))
  {
    hide Next;
    RunConcat(s, es, [e]);
    var t := Run(s, es).value;
    RunCons(t, e, []);
    assert [e] + [] == [e];
  }

  lemma StopFilled(s: Cap, size: nat)
    requires Filled(s, 0, 1, size) && size > 0
    ensures StopRequest(s, true, [Rejected]).finals == 2
  {
    FilledHasRoom(s, 0, 0, size);
    hide StopRecording;
    StopCounts(s.(reason := StopUser), [Rejected]);
  }

  /** A user stops a recording that holds one packet, and its only write is
      refused: the finalize chain starts twice. */
  lemma RefusedStopIsReachable(s: Cap, tsc: u64, rx: Rx, payload: seq<byte>)
    requires Claimable(s, 1) && BigPacket(s.cfg, rx, payload)
    ensures var r := Run(BeginSegment(s), RefusedRun(0, tsc, rx) + [Stop(true, [Rejected])]);
            r.Some? && r.value.finals == 2
  {
    AfterRefusals(s, 0, 1, tsc, rx, payload);
    hide Run;
    hide BigPacket;
    hide BeginSegment;
    hide RefusedRun;
    hide StopRequest;
    var t := Run(BeginSegment(s), RefusedRun(0, tsc, rx)).value;
    StopFilled(t, RECORD_HDR + |payload|);
    hide Filled;
    RunThen(BeginSegment(s), RefusedRun(0, tsc, rx), Stop(true, [Rejected]));
  }

  lemma FlushFilled(s: Cap, size: nat)
    requires Filled(s, 4, 1, size) && size > 0
    ensures !s.stopping && s.finals == 0 && s.bufs[s.cur].used > 0 && RoomFor(s.cfg, s.next)
    ensures var r := FlushBuffer(s, [Rejected]);
            r.finals == 2 && r.hwm == s.next && r.next == s.next + s.cfg.bufBlocks
  {
    hide Keeps;
    hide FlushBuffer;
    FilledHasRoom(s, 4, 0, size);
    RefusedHandOffFinalizesIff(s, []);
    assert [Rejected] + [] == [Rejected];
  }

  /** A device that refuses every write: the fifth refused hand-off finalizes
      twice, below the block that was to be written. */
  lemma FiveRefusalsAreReachable(s: Cap, tsc: u64, rx: Rx, payload: seq<byte>)
    requires Claimable(s, 5) && BigPacket(s.cfg, rx, payload)
    ensures Run(BeginSegment(s), RefusedRun(4, tsc, rx)).Some?
    ensures var t := Run(BeginSegment(s), RefusedRun(4, tsc, rx)).value;
            && !t.stopping && t.finals == 0 && t.bufs[t.cur].used > 0 && RoomFor(t.cfg, t.next)
            && var r := FlushBuffer(t, [Rejected]);
               r.finals == 2 && r.hwm == t.next && r.next == t.next + t.cfg.bufBlocks
  {
    AfterRefusals(s, 4, 1, tsc, rx, payload);
    hide Run;
    hide BigPacket;
    hide BeginSegment;
    hide FlushBuffer;
    hide Shape;
    FlushFilled(Run(BeginSegment(s), RefusedRun(4, tsc, rx)).value, RECORD_HDR + |payload|);
  }

  /** Four refusals, then a write that has to wait: it is alone pending, and the
      packet behind it is in the next buffer, if there is one. */
  lemma WaitingAfter(s: Cap, k: nat, n: nat, tsc: u64, rx: Rx, payload: seq<byte>)
    requires Filled(s, k, n + 1, RECORD_HDR + |payload|) && BigPacket(s.cfg, rx, payload)
    ensures var r := CapturePoll(s, tsc, [Answered(rx, [NoMem])]);
            && Shape(r) && r.waiter == Some(s.cur) && !r.stopping && r.recording && r.failures == k
            && r.pending == 1 && r.finals == 0 && r.out == multiset{} && r.cfg == s.cfg
            && r.bufs[s.cur].target == s.next && r.next == s.next + s.cfg.bufBlocks
            && r.bufs[s.cur].used == RECORD_HDR + |payload|
            && r.cur == (s.cur + 1) % s.cfg.bufCount
            && (r.cur != s.cur ==> r.bufs[r.cur].used == RECORD_HDR + |payload|)
  {
    hide FlushBuffer;
    hide CapturePoll;
    hide Append;
    hide AppendAndCheckLimit;
    hide OursIn;
    hide Keeps;
    hide NothingToFlush;
    var rx' := Answered(rx, [NoMem]);
    FilledHasRoom(s, k, n, RECORD_HDR + |payload|);
    OursAnswered(s.cfg, rx, [NoMem]);
    PollOne(s, tsc, rx', payload);
    WaitingFlush(s);
    var t := NextBuffer(FlushBuffer(s, [NoMem]));
    if t.cur != s.cur {
      AppendOnly(t, tsc, payload, []);
    }
  }

  lemma WaitingFlush(s: Cap)
    requires Shape(s) && !NothingToFlush(s)
    ensures var r := FlushBuffer(s, [NoMem]);
            && r.pending == s.pending + 1 && r.finals == s.finals && r.stopping == s.stopping
            && r.failures == s.failures && r.cur == s.cur && |r.bufs| == |s.bufs|
            && r.bufs[s.cur].used == s.bufs[s.cur].used && r.bufs[s.cur].inFlight
            && r.bufs[s.cur].target == s.next && r.bufs[s.cur].chunk == |s.h.placed|
            && r.next == s.next + s.cfg.bufBlocks && r.cfg == s.cfg && r.out == s.out && r.waiter == Some(s.cur)
            && r.recording == s.recording
            && (forall i :: 0 <= i < |s.bufs| && i != s.cur ==> r.bufs[i] == s.bufs[i])
  {
    hide Keeps;
    hide FlushBuffer;
    hide Pad;
    FlushSubmits(s, [NoMem]);
  }

  /** One write waits alone, and the next failure is the fifth. */
  ghost predicate WaitsAlone(t: Cap) {
    && Shape(t) && t.waiter.Some? && RoomFor(t.cfg, t.bufs[t.waiter.value].target)
    && !t.stopping && t.failures + 1 == WRITE_FAILURE_THRESHOLD && t.pending == 1 && t.finals == 0
    && (t.cfg.bufCount == 1 ==> NothingToFlush(Refused(t)))
    && (t.cfg.bufCount >= 2 ==> !NothingToFlush(Refused(t)))
  }

  lemma FilledWaits(s: Cap, tsc: u64, rx: Rx, payload: seq<byte>)
    requires Filled(s, 4, 2, RECORD_HDR + |payload|) && BigPacket(s.cfg, rx, payload)
    ensures WaitsAlone(CapturePoll(s, tsc, [Answered(rx, [NoMem])]))
  {
    FilledHasRoom(s, 4, 1, RECORD_HDR + |payload|);
    WaitingAfter(s, 4, 1, tsc, rx, payload);
    hide CapturePoll;
    hide BigPacket;
    RoundRobin(s.cur, s.cfg.bufCount);
  }

  lemma RoundRobin(i: nat, n: nat)
    requires i < n
    ensures n == 1 ==> (i + 1) % n == i
    ensures n >= 2 ==> (i + 1) % n != i
  {
    if i + 1 < n {
      assert (i + 1) % n == i + 1;
    }
  }

  /** The state before a refused retry: four refusals, then one write waits alone. */
  lemma WaitingRun(s: Cap, tsc: u64, rx: Rx, payload: seq<byte>)
    requires Claimable(s, 6) && BigPacket(s.cfg, rx, payload)
    ensures Run(BeginSegment(s), WaitingSteps(tsc, rx)).Some?
    ensures var t := Run(BeginSegment(s), WaitingSteps(tsc, rx)).value;
            WaitsAlone(t) && t.cfg == s.cfg
  {
    AfterRefusals(s, 4, 2, tsc, rx, payload);
    hide Run;
    hide CapturePoll;
    hide BigPacket;
    hide BeginSegment;
    hide WaitsAlone;
    var e := Poll(tsc, [Answered(rx, [NoMem])]);
    var u := Run(BeginSegment(s), RefusedRun(4, tsc, rx)).value;
    FilledWaits(u, tsc, rx, payload);
    RunThen(BeginSegment(s), RefusedRun(4, tsc, rx), e);
    hide Filled;
  }

  function WaitingSteps(tsc: u64, rx: Rx): seq<Event> {
    RefusedRun(4, tsc, rx) + [Poll(tsc, [Answered(rx, [NoMem])])]
  }

  /** One buffer: the stop that the refused retry causes has nothing to flush, and
      the chain starts twice. Several buffers: the next one is flushed, and if that
      is refused too, the chain starts three times. */
  lemma RefusedRetryIsReachable(s: Cap, tsc: u64, rx: Rx, payload: seq<byte>)
    requires Claimable(s, 6) && BigPacket(s.cfg, rx, payload)
    ensures Run(BeginSegment(s), WaitingSteps(tsc, rx)).Some?
    ensures var t := Run(BeginSegment(s), WaitingSteps(tsc, rx)).value;
            && t.waiter.Some?
            && (s.cfg.bufCount == 1 ==> RetryFires(t, [Rejected]).finals == 2)
            && (s.cfg.bufCount >= 2 ==> RetryFires(t, [Rejected] + [Rejected]).finals == 3)
  {
    WaitingRun(s, tsc, rx, payload);
    hide Run;
    hide BeginSegment;
    hide RetryFires;
    var t := Run(BeginSegment(s), WaitingSteps(tsc, rx)).value;
    RetryRefusedCounts(t, [Rejected]);
    RetryRefusedCounts(t, [Rejected] + [Rejected]);
  }

  /** The record that reaches the count limit, with its final write refused. */
  lemma RefusedLimitStopIsReachable(s: Cap, tsc: u64, rx: Rx, payload: seq<byte>)
    requires Claimable(s, 1) && s.cfg.countLimit == 1 && OursIn(s.cfg, rx) == Some(payload)
    requires RECORD_HDR + |payload| <= s.cfg.bufSize && rx.stopRcs == [Rejected]
    ensures CapturePoll(BeginSegment(s), tsc, [rx]).finals >= 2
  {
    var b := BeginSegment(s);
    BeginIsSound(s);
    hide Inv;
    hide CapturePoll;
    hide AppendAndCheckLimit;
    hide OursIn;
    PollOne(b, tsc, rx, payload);
    RefusedLimitStopFinalizesTwiceIff(b, tsc, payload, [Rejected]);
    assert CaptureOurs(b, tsc, payload, rx) == AppendAndCheckLimit(b, tsc, payload, [Rejected]);
  }

  // ---- a waiting buffer handed off again ----

  /** One buffer in use, holding one record. */
  ghost predicate OneBuffer(s: Cap, rec: Record) {
    && Shape(s) && s.recording && s.finals == 0 && s.cur == 0 && s.cfg.bufCount == 1
    && s.bufs[0].used > 0 && s.bufs[0].recs == [rec] && s.h.log == [rec]
    && s.h.done == {} && s.h.lost == {} && s.h.tail == []
  }

  /** Its write waits for a retry, and nothing else is pending. */
  ghost predicate OneWaits(s: Cap, rec: Record) {
    && OneBuffer(s, rec) && !s.stopping && s.pending == 1 && s.out == multiset{} && s.waiter == Some(0)
    && s.bufs[0].inFlight && s.h.placed == [[rec]] && s.h.own == 1 && s.h.carrier == [0]
    && !Hazard(s.h) && RoomFor(s.cfg, s.next)
  }

  lemma FilledToWaiting(s: Cap, tsc: u64, rx: Rx, payload: seq<byte>, rec: Record)
    requires Filled(s, 0, 2, RECORD_HDR + |payload|) && BigPacket(s.cfg, rx, payload)
    requires OneBuffer(s, rec) && s.h == NO_HISTORY.(log := [rec])
    ensures OneWaits(CapturePoll(s, tsc, [Answered(rx, [NoMem])]), rec)
  {
    hide FlushBuffer;
    hide CapturePoll;
    hide AppendAndCheckLimit;
    hide OursIn;
    hide Keeps;
    hide NothingToFlush;
    hide Pad;
    var rx' := Answered(rx, [NoMem]);
    FilledHasRoom(s, 0, 1, RECORD_HDR + |payload|);
    OursAnswered(s.cfg, rx, [NoMem]);
    PollOne(s, tsc, rx', payload);
    FlushSubmits(s, [NoMem]);
  }

  /** The stop hands it off a second time: two writes pending for one buffer, both
      for the second chunk. */
  ghost predicate Twice(s: Cap, rec: Record, io: Io) {
    && OneBuffer(s, rec) && s.stopping && s.pending == 2 && s.out == multiset{io} && s.waiter == Some(0)
    && io.buf == 0 && io.chunk == 1 && s.bufs[0].chunk == 1 && s.bufs[0].target == io.target
    && RoomFor(s.cfg, io.target) && s.h.own == 1
  }

  lemma WaitingToTwice(s: Cap, rec: Record)
    requires OneWaits(s, rec)
    ensures Twice(StopRequest(s, true, []), rec, Io(0, s.next, 1))
  {
    hide FlushBuffer;
    hide Keeps;
    hide Pad;
    FlushSubmits(Stopped(s.(reason := StopUser)), []);
  }

  /** The queued retry submits that same second chunk again. */
  ghost predicate TwiceOut(s: Cap, rec: Record, io: Io, n: nat) {
    && Shape(s) && s.stopping && s.recording && s.finals == 0 && s.pending == n && n > 0
    && s.out == multiset{io}[io := n] && s.waiter.None?
    && io.buf == 0 && io.chunk == 1 && s.h.log == [rec] && s.h.own == 1 && s.h.lost == {} && s.h.tail == []
    && 0 !in s.h.done
  }

  lemma TwiceRetried(s: Cap, rec: Record, io: Io)
    requires Twice(s, rec, io)
    ensures TwiceOut(RetryFires(s, []), rec, io, 2)
  {
    hide DropWrite;
    hide Keeps;
    assert multiset{io} + multiset{io} == multiset{io}[io := 2];
  }

  lemma TwiceCompleted(s: Cap, rec: Record, io: Io, n: nat)
    requires TwiceOut(s, rec, io, n)
    ensures io in s.out
    ensures var r := WriteComplete(s, io, true, []);
            if n > 1 then TwiceOut(r, rec, io, n - 1)
            else r.finals == 1 && Lossless(r.h) && r.h.own == 1 && r.h.log == [rec] && 0 !in r.h.done
  {
    assert n > 1 ==> s.out - multiset{io} == multiset{io}[io := n - 1];
    hide Keeps;
  }

  function TwiceSteps(tsc: u64, rx: Rx, io: Io): seq<Event> {
    [Poll(tsc, [Answered(rx, [NoMem])])] + ([Stop(true, [])]
    + ([Retry([])] + ([Complete(io, true, [])] + ([Complete(io, true, [])] + []))))
  }

  /** One buffer in use, one of its writes answered by -ENOMEM, and a stop before
      the retry: the state the retargeting theorems are about. Every completion
      then succeeds, the segment finalizes once, nothing was lost by the history's
      account, and still the place of the only record's chunk was never written. */
  lemma RetargetedIsReachable(s: Cap, tsc: u64, rx: Rx, payload: seq<byte>)
    requires Claimable(s, 2) && BigPacket(s.cfg, rx, payload) && s.cfg.bufCount == 1
    ensures var rec := Record(0, tsc, payload);
            var t := CapturePoll(BeginSegment(s), tsc, [rx]);
            var u := CapturePoll(t, tsc, [Answered(rx, [NoMem])]);
            && Inv(u) && !u.stopping && !Hazard(u.h) && u.waiter == Some(u.cur) && u.cur < |u.bufs|
            && !NothingToFlush(u)
            && var r := Run(t, TwiceSteps(tsc, rx, Io(0, u.next, 1)));
               && r.Some? && r.value.finals == 1 && r.value.h.log == [rec] && Lossless(r.value.h)
               && r.value.h.own == 1 && 0 !in r.value.h.done
  {
    var rec := Record(0, tsc, payload);
    FirstFilled(s, 2, tsc, rx, payload);
    hide BigPacket;
    hide CapturePoll;
    hide StopRequest;
    hide RetryFires;
    hide WriteComplete;
    hide Lossless;
    hide Inv;
    var t := CapturePoll(BeginSegment(s), tsc, [rx]);
    var u := CapturePoll(t, tsc, [Answered(rx, [NoMem])]);
    FilledToWaiting(t, tsc, rx, payload, rec);
    WaitingIsSound(s, tsc, rx);
    hide BeginSegment;
    RunToEnd(t, tsc, rx, rec);
  }

  lemma WaitingIsSound(s: Cap, tsc: u64, rx: Rx)
    requires Claimable(s, 2)
    requires !Hazard(CapturePoll(CapturePoll(BeginSegment(s), tsc, [rx]), tsc, [Answered(rx, [NoMem])]).h)
    ensures Inv(CapturePoll(CapturePoll(BeginSegment(s), tsc, [rx]), tsc, [Answered(rx, [NoMem])]))
  {
    BeginIsSound(s);
    hide Inv;
    hide CapturePoll;
    var b := BeginSegment(s);
    var t := CapturePoll(b, tsc, [rx]);
    PollCounts(t, tsc, [Answered(rx, [NoMem])]);
    PollKeeps(b, tsc, [rx]);
    PollKeeps(t, tsc, [Answered(rx, [NoMem])]);
  }

  lemma RunToEnd(t: Cap, tsc: u64, rx: Rx, rec: Record)
    requires Shape(t) && OneWaits(CapturePoll(t, tsc, [Answered(rx, [NoMem])]), rec)
    ensures var u := CapturePoll(t, tsc, [Answered(rx, [NoMem])]);
            var r := Run(t, TwiceSteps(tsc, rx, Io(0, u.next, 1)));
            && r.Some? && r.value.finals == 1 && r.value.h.log == [rec] && Lossless(r.value.h)
            && r.value.h.own == 1 && 0 !in r.value.h.done
  {
    hide CapturePoll;
    hide StopRequest;
    hide RetryFires;
    hide WriteComplete;
    hide Lossless;
    var u := CapturePoll(t, tsc, [Answered(rx, [NoMem])]);
    var io := Io(0, u.next, 1);
    WaitingToTwice(u, rec);
    var v := StopRequest(u, true, []);
    TwiceRetried(v, rec, io);
    var w := RetryFires(v, []);
    TwiceCompleted(w, rec, io, 2);
    var x := WriteComplete(w, io, true, []);
    TwiceCompleted(x, rec, io, 1);
    RunCons(x, Complete(io, true, []), []);
    RunCons(w, Complete(io, true, []), [Complete(io, true, [])] + []);
    RunCons(v, Retry([]), [Complete(io, true, [])] + ([Complete(io, true, [])] + []));
    RunCons(u, Stop(true, []), [Retry([])] + ([Complete(io, true, [])] + ([Complete(io, true, [])] + [])));
    RunCons(t, Poll(tsc, [Answered(rx, [NoMem])]),
            [Stop(true, [])] + ([Retry([])] + ([Complete(io, true, [])] + ([Complete(io, true, [])] + []))));
  }
}
