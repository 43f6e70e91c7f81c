/** The capture write path of main.c as functions on the capture state: record
    packing, buffer hand-off, asynchronous writes, late retries, completions,
    the failure breaker and stopping. The class AppContext implements them. */
module Capture {
  import opened Bytes
  import opened Record
  import Packet

  const MAX_WRITE_BUFFERS: nat := 32
  const MAX_WRITE_CHUNK_BYTES: nat := 2 * 1024 * 1024
  const MIN_WRITE_CHUNK_BYTES: nat := 4 * 1024
  const WRITE_FAILURE_THRESHOLD: nat := 5

  datatype StopReason = StopNone | StopUser | StopCountLimit | StopDiskFull | StopWriteFailures

  /** What spdk_bdev_write returns: 0, -ENOMEM, or another error. */
  datatype Rc = Accepted | NoMem | Rejected

  /** What stays fixed while a segment is open. */
  datatype Config = Config(
    bs: nat, bufSize: nat, bufBlocks: nat, bufCount: nat, numBlocks: nat,
    countLimit: nat, port: nat, withSeq: bool)

  /** struct write_buf. `recs` and `chunk` are bookkeeping: the records in
      data[..used], and the number of the chunk last handed off. */
  datatype Buf = Buf(data: seq<byte>, used: nat, inFlight: bool, target: nat,
                     recs: seq<Record>, chunk: nat)

  /** A write the device has accepted and not yet completed. */
  datatype Io = Io(buf: nat, target: nat, chunk: nat)

  /** What happened in this segment. Chunks [0, own) are the log's own; a chunk
      past `own` repeats one already handed off. */
  datatype History = History(
    log: seq<Record>,         // every record appended
    placed: seq<seq<Record>>, // every chunk handed off, as its records
    carrier: seq<nat>,        // the buffer that carried each of them
    own: nat,
    done: set<nat>,           // chunks whose write completed successfully
    lost: set<nat>,           // chunks whose write failed or was abandoned
    tail: seq<Record>,        // records dropped with a final buffer that did not fit
    rejected: bool,           // a data write was refused other than by -ENOMEM
    clashed: bool,            // a second buffer needed the one wait entry
    retargeted: bool)         // a waiting buffer was handed off again

  const NO_HISTORY := History([], [], [], 0, {}, {}, [], false, false, false)

  datatype Cap = Cap(
    cfg: Config,
    bufs: seq<Buf>, cur: nat,
    start: nat, next: nat,
    pending: int, recording: bool, stopping: bool, failures: nat,
    recordCount: nat, dropped: nat, firstTsc: nat, lastTsc: nat, reason: StopReason,
    hwm: nat,                 // vol.next_data_block
    finals: nat,              // calls of daemon_finalize_segment since the claim
    out: multiset<Io>, waiter: Option<nat>,
    h: History)

  const DEVICE_BYTES_MAX: nat := 0x1_0000_0000_0000_0000

  /** Byte offsets on the device fit 64 bits. */
  ghost predicate ConfigOk(c: Config) {
    && ENTRY_BYTES <= c.bs < 0x1_0000_0000 && c.numBlocks * c.bs < DEVICE_BYTES_MAX
    && c.bufBlocks > 0 && c.bufSize == c.bufBlocks * c.bs
    && c.bufSize <= MAX_WRITE_CHUNK_BYTES
    && 1 <= c.bufCount <= MAX_WRITE_BUFFERS
  }

  /** The buffers as allocated at startup. */
  ghost predicate Allocated(s: Cap) {
    && |s.bufs| == MAX_WRITE_BUFFERS
    && 0 < s.cfg.bufCount <= MAX_WRITE_BUFFERS && s.cfg.bufSize <= MAX_WRITE_CHUNK_BYTES
    && (forall i :: 0 <= i < MAX_WRITE_BUFFERS ==> |s.bufs[i].data| == MAX_WRITE_CHUNK_BYTES)
    && (s.waiter.Some? ==> s.waiter.value < MAX_WRITE_BUFFERS)
  }

  predicate Idle(b: Buf) {
    b.inFlight || b.used == 0
  }

  /** Array bounds, and: only the current buffer is being filled. This is what
      the code relies on to touch its buffers at all. */
  ghost predicate Shape(s: Cap) {
    && Allocated(s) && s.cur < MAX_WRITE_BUFFERS
    && (forall i :: 0 <= i < MAX_WRITE_BUFFERS ==> s.bufs[i].used <= s.cfg.bufSize)
    && (forall i :: 0 <= i < MAX_WRITE_BUFFERS && i != s.cur ==> Idle(s.bufs[i]))
  }

  function FirstRc(rcs: seq<Rc>): Rc {
    if rcs == [] then Accepted else rcs[0]
  }

  function LaterRcs(rcs: seq<Rc>): seq<Rc> {
    if rcs == [] then [] else rcs[1..]
  }

  /** memset of the unused rest of a buffer. */
  function Pad(data: seq<byte>, used: nat, size: nat): (d: seq<byte>)
    requires used <= size <= |data|
    ensures |d| == |data|
  {
    if used < size then data[..used] + Zeros(size - used) + data[size..] else data
  }

  /** Bytes stored at an offset. */
  function Stored(data: seq<byte>, off: nat, bytes: seq<byte>): (d: seq<byte>)
    requires off + |bytes| <= |data|
    ensures |d| == |data|
  {
    data[..off] + bytes + data[off + |bytes|..]
  }

  // ---- finalize, as far as the capture path is concerned ----

  /** daemon_finalize_segment: the high-water mark moves and the finalize chain
      starts. */
  function Finalize(s: Cap): Cap {
    s.(hwm := s.next, finals := s.finals + 1)
  }

  function FinalizeIfDrained(s: Cap): Cap {
    if s.stopping && s.pending == 0 then Finalize(s) else s
  }

  // ---- handing a buffer off ----

  /** What has happened in a segment stays so: its place, its records, its
      chunks, its stop and its hazards. */
  ghost predicate Grows(s: Cap, r: Cap) {
    && r.cfg == s.cfg && r.start == s.start && r.recording == s.recording
    && s.h.log <= r.h.log && s.h.placed <= r.h.placed && s.h.carrier <= r.h.carrier
    && (s.stopping ==> r.stopping)
    && s.finals <= r.finals && (r.finals == s.finals ==> r.hwm == s.hwm)
    && (s.h.rejected ==> r.h.rejected) && (s.h.clashed ==> r.h.clashed)
    && (s.h.retargeted ==> r.h.retargeted)
  }

  /** No call of the write path leaves the buffers misshapen, moves cur_buf,
      changes the configuration, counts a packet, takes a stop back or forgets
      a hazard. */
  ghost predicate Keeps(s: Cap, r: Cap) {
    && Shape(r) && (s.stopping ==> r.stopping) && r.cfg == s.cfg && r.cur == s.cur
    && r.recordCount == s.recordCount && r.dropped == s.dropped
    && Grows(s, r) && r.h.done == s.h.done && r.h.log == s.h.log
  }

  function Release(s: Cap, i: nat): (r: Cap)
    requires Shape(s) && i < MAX_WRITE_BUFFERS
    ensures Keeps(s, r) && (Idle(s.bufs[s.cur]) ==> Idle(r.bufs[s.cur]))
  {
    s.(bufs := s.bufs[i := s.bufs[i].(inFlight := false, used := 0, recs := [])])
  }

  /** flush_buffer of the current buffer up to its call of retry_flush. */
  function HandOff(s: Cap): (r: Cap)
    requires Shape(s)
    ensures Shape(r) && r.stopping == s.stopping && r.cfg == s.cfg && r.cur == s.cur
    ensures Idle(r.bufs[s.cur])
  {
    var b := s.bufs[s.cur];
    s.(bufs := s.bufs[s.cur := b.(data := Pad(b.data, b.used, s.cfg.bufSize), inFlight := true,
                                  target := s.next, chunk := |s.h.placed|)],
       pending := s.pending + 1,
       h := s.h.(placed := s.h.placed + [b.recs],
                 carrier := s.h.carrier + [s.cur],
                 own := if b.inFlight then s.h.own else |s.h.placed| + 1,
                 retargeted := s.h.retargeted || s.waiter == Some(s.cur)))
  }

  predicate RoomFor(cfg: Config, block: nat) {
    block + cfg.bufBlocks <= cfg.numBlocks
  }

  /** A final buffer that the device has no room for is dropped. */
  function TailDropped(s: Cap): Cap
    requires s.cur < |s.bufs|
  {
    var b := s.bufs[s.cur];
    s.(bufs := s.bufs[s.cur := b.(used := 0, recs := [])], h := s.h.(tail := if b.inFlight then s.h.tail else b.recs))
  }

  /** flush_buffer, which is only ever asked to flush the current buffer. */
  function FlushBuffer(s: Cap, rcs: seq<Rc>): (r: Cap)
    requires Shape(s)
    ensures Keeps(s, r) && Idle(r.bufs[s.cur])
    decreases if s.stopping then 0 else 1, 4
  {
    var b := s.bufs[s.cur];
    if b.used == 0 then s
    else if !RoomFor(s.cfg, s.next) then TailDropped(s)
    else
      var t := RetryFlush(HandOff(s), s.cur, rcs);
      t.(next := t.next + t.cfg.bufBlocks)
  }

  /** retry_flush: submits buffer i at the target fixed at its hand-off. */
  function RetryFlush(s: Cap, i: nat, rcs: seq<Rc>): (r: Cap)
    requires Shape(s) && i < MAX_WRITE_BUFFERS
    ensures Keeps(s, r) && (Idle(s.bufs[s.cur]) ==> Idle(r.bufs[s.cur]))
    ensures RoomFor(s.cfg, s.bufs[i].target) && FirstRc(rcs) == Rejected ==> r.h.rejected
    decreases if s.stopping then 0 else 1, 3
  {
    var b := s.bufs[i];
    if !RoomFor(s.cfg, b.target) then DropWrite(s, i, rcs)
    else
      match FirstRc(rcs)
      case Accepted => s.(out := s.out + multiset{Io(i, b.target, b.chunk)})
      case NoMem => s.(waiter := Some(i), h := s.h.(clashed := s.h.clashed || s.waiter.Some?))
      case Rejected => DropWrite(s.(h := s.h.(rejected := true)), i, LaterRcs(rcs))
  }

  /** The error branches of retry_flush: abandoned past the device end, or refused. */
  function DropWrite(s: Cap, i: nat, rcs: seq<Rc>): (r: Cap)
    requires Shape(s) && i < MAX_WRITE_BUFFERS
    ensures Keeps(s, r) && (Idle(s.bufs[s.cur]) ==> Idle(r.bufs[s.cur]))
    decreases if s.stopping then 0 else 1, 2
  {
    var t := Release(s, i).(pending := s.pending - 1,
                            h := s.h.(lost := s.h.lost + {s.bufs[i].chunk}));
    FinalizeIfDrained(NoteWriteFailure(t, rcs))
  }

  /** chrono_note_write_failure. */
  function NoteWriteFailure(s: Cap, rcs: seq<Rc>): (r: Cap)
    requires Shape(s)
    ensures Keeps(s, r) && (Idle(s.bufs[s.cur]) ==> Idle(r.bufs[s.cur]))
    decreases if s.stopping then 0 else 1, 1
  {
    var t := s.(failures := s.failures + 1);
    if t.failures < WRITE_FAILURE_THRESHOLD then t
    else StopRecording(t.(reason := StopWriteFailures), rcs)
  }

  /** daemon_stop_recording. */
  function StopRecording(s: Cap, rcs: seq<Rc>): (r: Cap)
    requires Shape(s)
    ensures Keeps(s, r) && r.stopping && (Idle(s.bufs[s.cur]) ==> Idle(r.bufs[s.cur]))
    decreases if s.stopping then 0 else 1, 0
  {
    if s.stopping then s
    else
      var t := FlushBuffer(s.(stopping := true), rcs);
      if t.pending == 0 then Finalize(t) else t
  }

  // ---- the events of a recording ----

  /** The last step of a claim (daemon_claim_header_write_complete): every buffer
      empty, every count zero, recording on. */
  function BeginSegment(s: Cap): (r: Cap)
    requires Allocated(s)
    ensures Shape(r) && r.recording && !r.stopping && r.recordCount == r.dropped == 0
    ensures forall i :: 0 <= i < MAX_WRITE_BUFFERS ==>
              r.bufs[i].used == 0 && !r.bufs[i].inFlight && r.bufs[i].data == s.bufs[i].data
  {
    s.(bufs := seq(MAX_WRITE_BUFFERS, i requires 0 <= i < MAX_WRITE_BUFFERS =>
                   s.bufs[i].(used := 0, inFlight := false, recs := [])),
       cur := 0, next := s.start,
       recordCount := 0, dropped := 0, firstTsc := 0, lastTsc := 0, reason := StopNone,
       failures := 0, stopping := false, recording := true,
       finals := 0, h := NO_HISTORY)
  }

  /** write_complete for one outstanding write. */
  function WriteComplete(s: Cap, io: Io, ok: bool, rcs: seq<Rc>): (r: Cap)
    requires Shape(s) && io in s.out && io.buf < MAX_WRITE_BUFFERS
    ensures Shape(r)
  {
    var t := Release(s, io.buf).(out := s.out - multiset{io});
    var u := if ok then t.(failures := 0, h := t.h.(done := t.h.done + {io.chunk}))
             else NoteWriteFailure(t.(h := t.h.(lost := t.h.lost + {io.chunk})), rcs);
    FinalizeIfDrained(u.(pending := u.pending - 1))
  }

  /** The device lets the waiting buffer try again. */
  function RetryFires(s: Cap, rcs: seq<Rc>): (r: Cap)
    requires Shape(s) && s.waiter.Some?
    ensures Shape(r)
  {
    RetryFlush(s.(waiter := None), s.waiter.value, rcs)
  }

  /** A stop asked for by a user, or by a signal. */
  function StopRequest(s: Cap, user: bool, rcs: seq<Rc>): (r: Cap)
    requires Shape(s)
    ensures Shape(r)
  {
    if !s.recording then s
    else StopRecording(if user then s.(reason := StopUser) else s, rcs)
  }

  function Append(s: Cap, tsc: nat, payload: seq<byte>): (r: Cap)
    requires Shape(s)
    requires s.bufs[s.cur].used + RECORD_HDR + |payload| <= s.cfg.bufSize
    ensures Shape(r)
  {
    var b := s.bufs[s.cur];
    var rec := Record(s.recordCount, tsc, payload);
    s.(bufs := s.bufs[s.cur := b.(data := Stored(b.data, b.used, Encode(rec)),
                                  used := b.used + RECORD_HDR + |payload|,
                                  recs := b.recs + [rec])],
       recordCount := s.recordCount + 1,
       firstTsc := if s.firstTsc == 0 then tsc else s.firstTsc,
       lastTsc := tsc,
       h := s.h.(log := s.h.log + [rec]))
  }

  datatype PollStep = PollStep(s: Cap, stop: bool)

  function AppendAndCheckLimit(s: Cap, tsc: nat, payload: seq<byte>, rcs: seq<Rc>): (r: PollStep)
    requires Shape(s)
    requires s.bufs[s.cur].used + RECORD_HDR + |payload| <= s.cfg.bufSize
    ensures Shape(r.s) && r.s.cfg == s.cfg
  {
    var t := Append(s, tsc, payload);
    if t.cfg.countLimit != 0 && t.recordCount >= t.cfg.countLimit
    then PollStep(StopRecording(t.(reason := StopCountLimit), rcs), true)
    else PollStep(t, false)
  }

  function Drop(s: Cap): Cap {
    s.(dropped := s.dropped + 1)
  }

  function NextBuffer(s: Cap): (r: Cap)
    requires Shape(s) && Idle(s.bufs[s.cur])
    ensures Shape(r) && (r.bufs[r.cur].inFlight || r.bufs[r.cur].used == 0)
  {
    s.(cur := (s.cur + 1) % s.cfg.bufCount)
  }

  /** One frame off the RX ring. `handled` says the ARP/ping responder took it;
      the return codes are those of the writes it may cause. */
  datatype Rx = Rx(bytes: seq<byte>, handled: bool, flushRcs: seq<Rc>, stopRcs: seq<Rc>)

  /** A packet for the capture port. */
  function CaptureOurs(s: Cap, tsc: nat, payload: seq<byte>, rx: Rx): (r: PollStep)
    requires Shape(s)
    ensures Shape(r.s) && r.s.cfg == s.cfg
  {
    var size := RECORD_HDR + |payload|;
    if s.bufs[s.cur].inFlight then PollStep(Drop(s), false)
    else if s.bufs[s.cur].used + size <= s.cfg.bufSize then
      AppendAndCheckLimit(s, tsc, payload, rx.stopRcs)
    else if !RoomFor(s.cfg, s.next) then
      PollStep(StopRecording(Drop(s).(reason := StopDiskFull), rx.stopRcs), true)
    else
      var t := NextBuffer(FlushBuffer(s, rx.flushRcs));
      if t.bufs[t.cur].inFlight || size > t.cfg.bufSize then PollStep(Drop(t), false)
      else AppendAndCheckLimit(t, tsc, payload, rx.stopRcs)
  }

  /** The payload of a frame the recording is meant to keep. */
  function OursIn(cfg: Config, rx: Rx): Option<seq<byte>> {
    if rx.handled then None
    else
      match Packet.Parse(rx.bytes, cfg.withSeq)
      case None => None
      case Some(p) => if p.dstPort == cfg.port then Some(p.payload) else None
  }

  /** One turn of capture_poll's loop. */
  function CaptureFrame(s: Cap, tsc: nat, rx: Rx): (r: PollStep)
    requires Shape(s)
    ensures Shape(r.s) && r.s.cfg == s.cfg
  {
    if s.stopping || !s.recording then PollStep(s, false)
    else
      match OursIn(s.cfg, rx)
      case None => PollStep(s, false)
      case Some(payload) => CaptureOurs(s, tsc, payload, rx)
  }

  /** capture_poll: a burst, left early when a frame stops the recording. */
  function CapturePoll(s: Cap, tsc: nat, burst: seq<Rx>): (r: Cap)
    requires Shape(s)
    ensures Shape(r) && r.cfg == s.cfg
    decreases |burst|
  {
    if burst == [] then s
    else
      var p := CaptureFrame(s, tsc, burst[0]);
      if p.stop then p.s else CapturePoll(p.s, tsc, burst[1..])
  }
}
