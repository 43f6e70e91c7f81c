/** Who answers an admin request: which steps of the daemon accept one, which
    call chrono_admin_fulfill, and that the two balance. */
module AdminLedger {
  import opened Bytes
  import opened Record
  import opened Readers
  import opened Capture
  import opened CaptureRuns
  import opened Tuning
  import opened Store
  import opened StoreInvariant
  import opened StoreSteps
  import opened StoreTheorems
  import opened StoreRequests
  import AdminBridge

  /** The steps with which chrono_admin_dispatch begins. */
  predicate Asks(t: Step) {
    match t
    case Capture(e) => e.Stop? && e.user
    case MetaDone(_, _, _) => false
    case Scribble(_, _) => false
    case DeleteRead(_) => false
    case Crash(_, _) => false
    case _ => true
  }

  /** Whether a metadata completion is the terminal step of its chain. */
  predicate Terminal(cb: Callback, ok: bool) {
    match cb
    case ClaimToc => !ok
    case ClaimHeader => true
    case FinHeader => false
    case FinToc => true
    case FmtZero => !ok
    case FmtHeader => true
    case DeleteWrite => true
  }

  const ENOENT := 2
  const EIO := 5
  const EBUSY := 16
  const EINVAL := 22
  const ENOSPC := 28
  const EALREADY := 114

  function Outcome(ok: bool): int {
    if ok then 0 else -EIO
  }

  function TuningAnswer(m: Daemon, c: Option<Config>): int {
    if TuningBusy(m) then -EBUSY else if c.None? then -EINVAL else 0
  }

  /** The return code a step passes to chrono_admin_fulfill, if it calls it; no
      step does twice. A write that cannot be submitted is one that failed. */
  ghost function Answer(y: Sys, t: Step): Option<int>
    requires Possible(y, t)
  {
    match t
    case Start(port, _, _) =>
      if y.m.cap.recording then Some(-EALREADY)
      else if port == 0 && y.m.cap.cfg.port == 0 then Some(-EINVAL)
      else if y.m.nextSeg >= TOC_SLOT_COUNT then Some(-ENOSPC)
      else None
    case Capture(_) => None
    case Scribble(_, _) => None
    case MetaDone(ok, _, _) => if Terminal(y.m.meta.value.cb, ok) then Some(Outcome(ok)) else None
    case StopIdle => Some(-EALREADY)
    case DeleteStart(slot) => if y.m.cap.recording && y.m.currentSeg == Some(slot) then Some(-EBUSY) else None
    case DeleteRead(ok) =>
      if !ok then Some(-EIO)
      else (match Classify(EntryAt(y.d, y.m.delRead.value))
            case NotFound => Some(-ENOENT)
            case Deleted => Some(0)
            case _ => None)
    case FormatStart(_) => if y.m.cap.recording then Some(-EBUSY) else None
    case SetChunk(bytes) => Some(TuningAnswer(y.m, WithChunk(y.m.cap.cfg, y.m.unit, bytes)))
    case SetBuffers(count) => Some(TuningAnswer(y.m, WithBuffers(y.m.cap.cfg, count)))
    case SetWireSeq(on) => Some(TuningAnswer(y.m, Some(y.m.cap.cfg.(withSeq := on))))
    case Crash(_, _) => None
  }

  ghost predicate Answers(y: Sys, t: Step)
    requires Possible(y, t)
  {
    Answer(y, t).Some?
  }

  // ---- which answer when ----

  /** A start is answered at once with -EALREADY (114) exactly while recording, with
      -EINVAL (22) exactly if no port is known, with -ENOSPC (28) exactly if the table
      of contents is full, and otherwise it is owed an answer: its claim has begun. */
  lemma StartAnswers(y: Sys, port: u16, limit: Option<u64>, now: Clock)
    requires SysInv(y) && Possible(y, Start(port, limit, now))
    ensures var a := Answer(y, Start(port, limit, now));
            var known := port != 0 || y.m.cap.cfg.port != 0;
            && (a == Some(-114) <==> y.m.cap.recording)
            && (a == Some(-22) <==> !y.m.cap.recording && !known)
            && (a == Some(-28) <==> !y.m.cap.recording && known && y.m.nextSeg >= 4096)
            && (a.None? <==> !y.m.cap.recording && Do(y, Start(port, limit, now)).m.claiming)
            && (a.Some? ==> a.value in {-114, -22, -28})
  {
    hide OnDisk;
    hide InRecording;
    hide EntryBlock;
    assert !y.m.cap.recording ==> !y.m.claiming;
    hide SysInv;
    hide MemoryOk;
  }

  /** A completion answers exactly if it leaves no write in flight: 0 if it was
      successful, -EIO (5) if not. A claim's and a format's first writes are answered
      only if they fail, a finalize's header write never. */
  lemma CompletionAnswers(y: Sys, ok: bool, mask: set<nat>, now: Clock)
    requires Possible(y, MetaDone(ok, mask, now))
    ensures var a := Answer(y, MetaDone(ok, mask, now));
            var cb := y.m.meta.value.cb;
            && (a.Some? <==> Do(y, MetaDone(ok, mask, now)).m.meta.None?)
            && (a.Some? ==> a.value == if ok then 0 else -5)
            && (cb.ClaimHeader? || cb.FinToc? || cb.FmtHeader? || cb.DeleteWrite? ==> a.Some?)
            && (cb.ClaimToc? || cb.FmtZero? ==> (a.Some? <==> !ok))
            && (cb.FinHeader? ==> a.None?)
  {
    hide VolumeBlock;
    hide EntryBlock;
    hide ZeroBlocks;
    hide Applied;
    hide Shape;
  }

  /** A delete is answered at once exactly for the segment being recorded, with
      -EBUSY (16). */
  lemma DeleteAnswers(y: Sys, slot: nat)
    requires Possible(y, DeleteStart(slot))
    ensures Answer(y, DeleteStart(slot))
         == if y.m.cap.recording && y.m.currentSeg == Some(slot) then Some(-16) else None
  {
    hide MemoryOk;
  }

  /** After the read of the entry it is answered -EIO if that failed, -ENOENT (2) for a
      free slot, 0 for one already deleted, and otherwise when the write completes. */
  lemma DeleteReadAnswers(y: Sys, ok: bool)
    requires SysInv(y) && Possible(y, DeleteRead(ok))
    ensures 1 + y.m.delRead.value < |y.d| && 112 <= |y.d[1 + y.m.delRead.value]|
    ensures var a := Answer(y, DeleteRead(ok));
            var e := DecodeEntry(y.d[1 + y.m.delRead.value]);
            var used := e.magic == SEGMENT_MAGIC && e.state != 0;
            && (a == Some(-5) <==> !ok)
            && (a == Some(-2) <==> ok && !used)
            && (a == Some(0) <==> ok && used && e.state == 3)
            && (a.None? <==> ok && used && e.state != 3)
  {
    hide SysInv;
    hide MemoryOk;
    hide DecodeEntry;
    SlotIsReadable(y, y.m.delRead.value);
  }

  /** A stop is answered at once exactly with no segment open, with -EALREADY;
      otherwise when its finalize has ended. */
  lemma StopAnswers(y: Sys, t: Step)
    requires Possible(y, t) && Asks(t) && (t.StopIdle? || t.Capture?)
    ensures Answer(y, t) == if y.m.cap.recording then None else Some(-114)
  {
    hide MemoryOk;
    hide Shape;
  }

  /** A format is answered at once exactly while recording, with -EBUSY. */
  lemma FormatAnswers(y: Sys, sec: u64)
    requires Possible(y, FormatStart(sec))
    ensures Answer(y, FormatStart(sec)) == if y.m.cap.recording then Some(-16) else None
  {
    hide MemoryOk;
  }

  /** A setting is always answered at once: -EBUSY while a segment is claimed or
      recorded, else -EINVAL out of its range, else 0. */
  lemma SettingAnswers(y: Sys, t: Step)
    requires Possible(y, t) && (t.SetChunk? || t.SetBuffers? || t.SetWireSeq?)
    ensures var valid := if t.SetChunk? then 4096 <= t.bytes <= 2097152
                         else if t.SetBuffers? then 1 <= t.count <= 32 else true;
            Answer(y, t) == Some(if y.m.cap.recording || y.m.claiming then -16 else if !valid then -22 else 0)
  {
    hide MemoryOk;
    hide RoundWriteChunk;
    hide IsMultiple;
  }

  /** A stop asked for by a request stays asked for until the segment's finalize
      has ended. */
  predicate StopAskedAfter(y: Sys, t: Step, asked: bool) {
    if t.Capture? && t.e.Stop? && t.e.user then true
    else if EndsFinalize(y, t) then false
    else asked
  }

  predicate EndsFinalize(y: Sys, t: Step) {
    t.MetaDone? && y.m.meta.Some? && y.m.meta.value.cb.FinToc?
  }

  /** The end of a finalize that no request asked for. */
  predicate Unasked(y: Sys, t: Step, asked: bool) {
    EndsFinalize(y, t) && !asked
  }

  predicate OwesMeta(m: Daemon) {
    m.meta.Some? && !m.meta.value.cb.FinHeader? && !m.meta.value.cb.FinToc?
  }

  /** Requests accepted and not yet answered, read off the daemon's state. */
  function Owing(m: Daemon, asked: bool): nat {
    (if m.delRead.Some? then 1 else 0) + (if OwesMeta(m) then 1 else 0) + (if asked then 1 else 0)
  }

  /** What the bridge grants: a request is dispatched only when none is owed. No
      signal or crash: both end the daemon, and the web thread with it. */
  predicate Orderly(y: Sys, t: Step, asked: bool) {
    && (Asks(t) ==> Owing(y.m, asked) == 0)
    && !t.Crash? && !(t.Capture? && t.e.Stop? && !t.e.user)
  }

  /** A request for a stop is only ever open while a segment is. */
  predicate AskedOk(y: Sys, asked: bool) {
    asked ==> y.m.cap.recording
  }

  function One(b: bool): nat {
    if b then 1 else 0
  }

  /** What is owed afterwards is what was owed before and the request accepted
      now, less the one answered now; a fulfil that no request is owed accepts
      none, and a request is accepted only when none is owed. */
  predicate Balanced(owed: nat, owed': nat, asks: bool, answers: bool, unasked: bool) {
    && owed' + One(answers) == owed + One(asks) + One(unasked)
    && (unasked ==> answers && !asks) && (asks ==> owed == 0)
  }

  // ---- one step ----

  /** The balance of one step. */
  ghost predicate KeepsBalance(y: Sys, t: Step, asked: bool)
    requires Possible(y, t)
  {
    var y' := Do(y, t);
    var asked' := StopAskedAfter(y, t, asked);
    && AskedOk(y', asked')
    && Balanced(Owing(y.m, asked), Owing(y'.m, asked'), Asks(t), Answers(y, t), Unasked(y, t, asked))
  }

  lemma CaptureBalances(y: Sys, e: Event, asked: bool)
    requires Possible(y, Capture(e)) && NoHazard(Do(y, Capture(e)).f) && Orderly(y, Capture(e), asked)
    ensures KeepsBalance(y, Capture(e), asked)
  {
    CaptureOwes(y, e);
    hide Possible;
    hide Do;
    hide NoHazard;
    hide OwesMeta;
  }

  /** A finalize starts only while no other write is in flight. */
  lemma CaptureOwes(y: Sys, e: Event)
    requires Possible(y, Capture(e)) && NoHazard(Do(y, Capture(e)).f)
    ensures var m := Do(y, Capture(e)).m;
            m.cap.recording && m.delRead == y.m.delRead && (OwesMeta(m) <==> OwesMeta(y.m))
  {
    hide MemoryOk;
    hide Next;
    hide VolumeBlock;
    hide DiskAfter;
    NextGrows(y.m.cap, e);
    hide Shape;
    hide Enabled;
  }

  lemma MetaBalances(y: Sys, ok: bool, mask: set<nat>, now: Clock, asked: bool)
    requires SysInv(y) && Possible(y, MetaDone(ok, mask, now)) && AskedOk(y, asked)
    ensures KeepsBalance(y, MetaDone(ok, mask, now), asked)
  {
    hide OnDisk;
    hide InRecording;
    hide Shape;
    hide VolumeBlock;
    hide EntryBlock;
    hide Applied;
    hide Slot;
    assert y.m.meta.value.cb.FinHeader? || y.m.meta.value.cb.DeleteWrite? || y.m.meta.value.cb.FinToc? || !asked;
    hide InFlightMeta;
    hide InMemory;
  }

  lemma RequestBalances(y: Sys, t: Step, asked: bool)
    requires SysInv(y) && Possible(y, t) && Orderly(y, t, asked) && AskedOk(y, asked)
    requires NoHazard(Do(y, t).f) && !t.Capture? && !t.MetaDone?
    ensures KeepsBalance(y, t, asked)
  {
    hide OnDisk;
    hide InRecording;
    hide InFlightMeta;
    hide Shape;
    hide DecodeVolume;
    hide VolumeBlock;
    hide EntryBlock;
    hide RoundWriteChunk;
    hide MarkDeleted;
    hide IsMultiple;
  }

  /** Every step balances; in particular the only fulfil that no request is owed
      is the end of a finalize nobody asked for. */
  lemma StepBalances(y: Sys, t: Step, asked: bool)
    requires SysInv(y) && Possible(y, t) && NoHazard(Do(y, t).f)
    requires Orderly(y, t, asked) && AskedOk(y, asked)
    ensures KeepsBalance(y, t, asked)
  {
    hide SysInv;
    hide Possible;
    hide Do;
    hide NoHazard;
    hide KeepsBalance;
    hide Orderly;
    match t {
      case Capture(e) => CaptureBalances(y, e, asked);
      case MetaDone(ok, mask, now) => MetaBalances(y, ok, mask, now, asked);
      case _ => RequestBalances(y, t, asked);
    }
  }

  // ---- whole runs ----

  ghost predicate OrderlyRun(y: Sys, ts: seq<Step>, asked: bool)
    decreases |ts|
  {
    ts == []
    || (Possible(y, ts[0]) && Orderly(y, ts[0], asked)
        && OrderlyRun(Do(y, ts[0]), ts[1..], StopAskedAfter(y, ts[0], asked)))
  }

  lemma {:induction false} OrderlyIsRun(y: Sys, ts: seq<Step>, asked: bool)
    requires OrderlyRun(y, ts, asked)
    ensures IsRun(y, ts)
    decreases |ts|
  {
    hide Possible;
    hide Do;
    hide Orderly;
    if ts != [] {
      OrderlyIsRun(Do(y, ts[0]), ts[1..], StopAskedAfter(y, ts[0], asked));
    }
  }

  function Requests(ts: seq<Step>): nat {
    if ts == [] then 0 else One(Asks(ts[0])) + Requests(ts[1..])
  }

  /** Calls of chrono_admin_fulfill in a run. */
  ghost function Fulfils(y: Sys, ts: seq<Step>): nat
    requires IsRun(y, ts)
    decreases |ts|
  {
    if ts == [] then 0 else One(Answers(y, ts[0])) + Fulfils(Do(y, ts[0]), ts[1..])
  }

  /** Finalizes that ended in a run without a request for the stop. */
  ghost function SelfStarted(y: Sys, ts: seq<Step>, asked: bool): nat
    requires IsRun(y, ts)
    decreases |ts|
  {
    if ts == [] then 0
    else One(Unasked(y, ts[0], asked)) + SelfStarted(Do(y, ts[0]), ts[1..], StopAskedAfter(y, ts[0], asked))
  }

  ghost function StillAsked(y: Sys, ts: seq<Step>, asked: bool): bool
    requires IsRun(y, ts)
    decreases |ts|
  {
    if ts == [] then asked else StillAsked(Do(y, ts[0]), ts[1..], StopAskedAfter(y, ts[0], asked))
  }

  /** Over every hazard-free run every request accepted is answered exactly once
      or still owed, at most one is owed at a time, and the only other calls of
      chrono_admin_fulfill are the ends of finalizes that no request asked for. */
  lemma {:induction false} EveryRequestIsAnsweredOnce(y: Sys, ts: seq<Step>, asked: bool)
    requires SysInv(y) && AskedOk(y, asked) && Owing(y.m, asked) <= 1
    requires OrderlyRun(y, ts, asked) && IsRun(y, ts) && NoHazard(After(y, ts).f)
    ensures var owed := Owing(After(y, ts).m, StillAsked(y, ts, asked));
            && Fulfils(y, ts) + owed == Owing(y.m, asked) + Requests(ts) + SelfStarted(y, ts, asked)
            && owed <= 1
    decreases |ts|
  {
    hide SysInv;
    hide Possible;
    hide Do;
    hide NoHazard;
    hide Answers;
    hide Asks;
    hide Unasked;
    hide StopAskedAfter;
    hide AskedOk;
    hide Owing;
    hide Orderly;
    if ts != [] {
      var t, y1 := ts[0], Do(y, ts[0]);
      FlagsStickInRun(y1, ts[1..]);
      DoKeeps(y, t);
      StepBalances(y, t, asked);
      EveryRequestIsAnsweredOnce(y1, ts[1..], StopAskedAfter(y, t, asked));
    }
  }

  // ---- what the bridge sees ----

  /** A step of the daemon as events of the bridge: the request it accepts, if any,
      then its answer, which belongs to request `id` or to nobody. */
  ghost function Seen(y: Sys, t: Step, asked: bool, id: nat): seq<AdminBridge.Event>
    requires Possible(y, t)
  {
    Trace(Asks(t), Answer(y, t), Unasked(y, t, asked), id)
  }

  function Trace(asks: bool, answer: Option<int>, unasked: bool, id: nat): seq<AdminBridge.Event> {
    (if asks then [AdminBridge.Dispatch(id)] else []) + Reply(answer, unasked, id)
  }

  function Reply(answer: Option<int>, unasked: bool, id: nat): seq<AdminBridge.Event> {
    match answer
    case None => []
    case Some(rc) => if unasked then [AdminBridge.Foreign(rc)] else [AdminBridge.Finish(id, rc)]
  }

  lemma TraceRuns(b: AdminBridge.Bridge, asks: bool, answer: Option<int>, unasked: bool, id: nat,
                  owed: nat, owed': nat)
    requires Balanced(owed, owed', asks, answer.Some?, unasked) && owed <= 1 && (asks ==> id in b.posted)
    requires b.running == if owed == 0 then multiset{} else multiset{id}
    ensures var r := AdminBridge.Run(b, Trace(asks, answer, unasked, id));
            r.Some? && r.value.running == if owed' == 0 then multiset{} else multiset{id}
  {
    hide AdminBridge.Fulfilled;
    var es := Trace(asks, answer, unasked, id);
    if asks {
      var b1 := AdminBridge.Step(b, AdminBridge.Dispatch(id));
      assert b1.running == multiset{id};
      assert es[0] == AdminBridge.Dispatch(id) && es[1..] == Reply(answer, unasked, id);
      assert AdminBridge.Run(b, es) == AdminBridge.Run(b1, es[1..]);
      ReplyRuns(b1, answer, false, id);
    } else {
      assert es == Reply(answer, unasked, id);
      ReplyRuns(b, answer, unasked, id);
    }
  }

  lemma ReplyRuns(b: AdminBridge.Bridge, answer: Option<int>, unasked: bool, id: nat)
    requires answer.Some? && !unasked ==> b.running == multiset{id}
    ensures AdminBridge.Run(b, Reply(answer, unasked, id)).Some?
    ensures AdminBridge.Run(b, Reply(answer, unasked, id)).value.running
         == if answer.Some? && !unasked then multiset{} else b.running
  {
    hide AdminBridge.Fulfilled;
    var es := Reply(answer, unasked, id);
    if answer.Some? {
      assert es[1..] == [];
      assert AdminBridge.Enabled(b, es[0]);
      assert AdminBridge.Run(b, es) == AdminBridge.Run(AdminBridge.Step(b, es[0]), []);
    }
  }

  /** The bridge's running request is the one the daemon owes. */
  predicate Agree(b: AdminBridge.Bridge, m: Daemon, asked: bool, id: nat) {
    b.running == if Owing(m, asked) == 0 then multiset{} else multiset{id}
  }

  /** The daemon's handlers keep their side of the bridge: every step is possible
      for the bridge, ends exactly the request it owes, and disturbs nobody
      unless it is the end of a self-started finalize. */
  lemma HandlersKeepTheBridge(y: Sys, t: Step, asked: bool, b: AdminBridge.Bridge, id: nat)
    requires SysInv(y) && Possible(y, t) && NoHazard(Do(y, t).f)
    requires Orderly(y, t, asked) && AskedOk(y, asked) && Owing(y.m, asked) <= 1
    requires Agree(b, y.m, asked, id) && (Asks(t) ==> id in b.posted)
    ensures var r := AdminBridge.Run(b, Seen(y, t, asked, id));
            r.Some? && Agree(r.value, Do(y, t).m, StopAskedAfter(y, t, asked), id)
    ensures (exists rc :: AdminBridge.Foreign(rc) in Seen(y, t, asked, id)) <==> Unasked(y, t, asked)
  {
    hide SysInv;
    hide Possible;
    hide Do;
    hide NoHazard;
    hide Answer;
    hide Asks;
    hide Unasked;
    hide StopAskedAfter;
    hide Orderly;
    hide Owing;
    hide AdminBridge.Run;
    StepBalances(y, t, asked);
    TraceRuns(b, Asks(t), Answer(y, t), Unasked(y, t, asked), id,
              Owing(y.m, asked), Owing(Do(y, t).m, StopAskedAfter(y, t, asked)));
    if Unasked(y, t, asked) {
      assert AdminBridge.Foreign(Answer(y, t).value) in Seen(y, t, asked, id);
    }
  }
}
