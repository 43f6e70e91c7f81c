/** What every step of the capture write path keeps, in runs where no data write
    was refused outright, no second buffer needed the wait entry and no waiting
    buffer was handed off again. */
module CaptureInvariant {
  import opened Bytes
  import opened Record
  import opened Readers
  import opened Capture

  ghost predicate Hazard(h: History) {
    h.rejected || h.clashed || h.retargeted
  }

  // ---- the invariant, one concern at a time ----

  /** A buffer's bytes are its records. */
  ghost predicate BufOk(cfg: Config, b: Buf) {
    && AllWellSized(b.recs)
    && |EncodeAll(b.recs)| == b.used <= cfg.bufSize <= |b.data|
    && b.data[..b.used] == EncodeAll(b.recs)
  }

  ghost predicate BufsOk(s: Cap) {
    && Shape(s) && ConfigOk(s.cfg) && s.cur < s.cfg.bufCount
    && forall i :: 0 <= i < MAX_WRITE_BUFFERS ==> BufOk(s.cfg, s.bufs[i])
  }

  ghost predicate ChunkFits(cfg: Config, rs: seq<Record>) {
    rs != [] && AllWellSized(rs) && |EncodeAll(rs)| <= cfg.bufSize
  }

  ghost predicate PlacedOk(s: Cap) {
    && |s.h.carrier| == |s.h.placed| && s.h.own <= |s.h.placed|
    && (forall c :: 0 <= c < |s.h.placed| ==> ChunkFits(s.cfg, s.h.placed[c]))
    && (forall c :: 0 <= c < |s.h.carrier| ==> s.h.carrier[c] < MAX_WRITE_BUFFERS)
  }

  /** The i-th chunk of the segment goes to start + i * bufBlocks. */
  function TargetOf(s: Cap, c: nat): nat {
    ChunkBlock(s.start, c, s.cfg.bufBlocks)
  }

  /** Placement: next_write_block is where the next chunk goes, and everything
      handed off lies inside the device. */
  ghost predicate PlaceOk(s: Cap) {
    s.next == TargetOf(s, |s.h.placed|) && s.start <= s.next <= s.cfg.numBlocks
  }

  /** Buffer b still holds, byte for byte, the zero-padded chunk `rs`. */
  ghost predicate Image(cfg: Config, b: Buf, rs: seq<Record>) {
    && |EncodeAll(rs)| <= cfg.bufSize <= |b.data|
    && b.data[..cfg.bufSize] == ChunkBytes(rs, cfg.bufSize)
  }

  /** Buffer i carries chunk c and still holds it. */
  ghost predicate Holds(s: Cap, i: nat, c: nat) {
    && i < |s.bufs| && c < |s.h.placed| && c < |s.h.carrier|
    && s.h.carrier[c] == i && Image(s.cfg, s.bufs[i], s.h.placed[c])
  }

  function IoOf(s: Cap, c: nat): Io
    requires c < |s.h.carrier|
  {
    Io(s.h.carrier[c], TargetOf(s, c), c)
  }

  ghost predicate IoOk(s: Cap, io: Io) {
    && s.out[io] == 1
    && Holds(s, io.buf, io.chunk) && io.target == TargetOf(s, io.chunk)
    && (!s.stopping ==> s.bufs[io.buf].inFlight && s.bufs[io.buf].chunk == io.chunk)
  }

  /** Every outstanding write is for the chunk its buffer still holds. */
  ghost predicate OutOk(s: Cap) {
    forall io :: io in s.out ==> IoOk(s, io)
  }

  ghost predicate WaiterOk(s: Cap) {
    s.waiter.Some? ==>
      var w := s.waiter.value;
      && w < |s.bufs|
      && Holds(s, w, s.bufs[w].chunk)
      && s.bufs[w].target == TargetOf(s, s.bufs[w].chunk)
      && IoOf(s, s.bufs[w].chunk) !in s.out
      && (!s.stopping ==> s.bufs[w].inFlight)
  }

  /** A buffer in flight holds the chunk it was handed off with. */
  ghost predicate FlightOk(s: Cap) {
    !s.stopping ==>
      forall i :: 0 <= i < |s.bufs| && s.bufs[i].inFlight ==>
        && s.bufs[i].recs != [] && Image(s.cfg, s.bufs[i], s.bufs[i].recs)
  }

  function Waits(s: Cap): nat {
    if s.waiter.Some? then 1 else 0
  }

  /** pending_writes over what is really submitted or queued for a retry. */
  function Debt(s: Cap): int {
    s.pending - |s.out| - Waits(s)
  }

  ghost predicate BreakerOk(s: Cap) {
    s.failures >= WRITE_FAILURE_THRESHOLD ==> s.stopping
  }

  /** daemon_finalize_segment has been called once if the segment is stopped and
      drained, and not at all before. */
  ghost predicate FinalOk(s: Cap) {
    && s.finals == (if s.stopping && s.pending == 0 then 1 else 0)
    && (s.finals == 1 ==> s.hwm == s.next)
  }

  /** The records in the buffer being filled. */
  function Filling(s: Cap): seq<Record>
    requires s.cur < |s.bufs|
  {
    if s.bufs[s.cur].inFlight then [] else s.bufs[s.cur].recs
  }

  function FillingBytes(s: Cap): nat
    requires s.cur < |s.bufs|
  {
    if s.bufs[s.cur].inFlight then 0 else s.bufs[s.cur].used
  }

  /** Conservation: the log is the records of its own chunks, then those still
      being filled or, after a stop, dropped with the final buffer. */
  ghost predicate LogOk(s: Cap) {
    && s.cur < |s.bufs| && s.h.own <= |s.h.placed|
    && s.h.log == Flat(s.h.placed[..s.h.own]) + (if s.stopping then s.h.tail else Filling(s))
    && (if s.stopping then |s.h.placed| <= s.h.own + 1
        else s.h.own == |s.h.placed| && s.h.tail == [])
    && s.recordCount == |s.h.log|
    && (forall k :: 0 <= k < |s.h.log| ==> s.h.log[k].seqNo == k)
  }

  function BytesOf(blocks: int, bs: nat): int {
    blocks * bs
  }

  /** Records take room, so their number is bounded by the device. */
  ghost predicate BoundOk(s: Cap) {
    && s.cur < |s.bufs|
    && RECORD_HDR * |s.h.log| <= BytesOf(s.next - s.start, s.cfg.bs)
         + (if s.stopping then s.cfg.bufSize else FillingBytes(s))
  }

  ghost predicate LimitOk(s: Cap) {
    s.cfg.countLimit != 0 ==>
      s.recordCount <= s.cfg.countLimit && (s.recordCount == s.cfg.countLimit ==> s.stopping)
  }

  /** The tsc of the first record that has one, 0 before that. */
  function FirstTsc(log: seq<Record>): nat {
    if log == [] then 0 else if log[0].tsc != 0 then log[0].tsc else FirstTsc(log[1..])
  }

  function LastTsc(log: seq<Record>): nat {
    if log == [] then 0 else log[|log| - 1].tsc
  }

  ghost predicate TscOk(s: Cap) {
    && s.firstTsc == FirstTsc(s.h.log) && s.lastTsc == LastTsc(s.h.log)
    && s.firstTsc < DEVICE_BYTES_MAX && s.lastTsc < DEVICE_BYTES_MAX
  }

  ghost predicate Body(s: Cap) {
    && BufsOk(s) && PlacedOk(s) && PlaceOk(s)
    && OutOk(s) && WaiterOk(s) && FlightOk(s)
    && LogOk(s) && BoundOk(s) && TscOk(s)
  }

  ghost predicate Inv(s: Cap) {
    Body(s) && Debt(s) == 0 && FinalOk(s) && BreakerOk(s) && LimitOk(s)
  }

  /** `r` differs from `s` only in fields the invariant's body does not mention. */
  ghost predicate SameCore(s: Cap, r: Cap) {
    && r.cfg == s.cfg && r.bufs == s.bufs && r.cur == s.cur && r.start == s.start && r.next == s.next
    && r.stopping == s.stopping && r.recordCount == s.recordCount
    && r.firstTsc == s.firstTsc && r.lastTsc == s.lastTsc
    && r.out == s.out && r.waiter == s.waiter
    && r.h.log == s.h.log && r.h.placed == s.h.placed && r.h.carrier == s.h.carrier
    && r.h.own == s.h.own && r.h.tail == s.h.tail
  }

  lemma CoreKeepsBody(s: Cap, r: Cap)
    requires Body(s) && SameCore(s, r)
    ensures Body(r)
  {
    hide BufOk;
    hide ConfigOk;
    hide IoOk;
    hide ChunkFits;
    forall io | io in r.out ensures IoOk(r, io) {
      assert IoOk(s, io);
      CoreKeepsIo(s, r, io);
    }
    assert WaiterOk(r) by { CoreKeepsWaiter(s, r); }
  }

  lemma CoreKeepsIo(s: Cap, r: Cap, io: Io)
    requires IoOk(s, io) && SameCore(s, r)
    ensures IoOk(r, io)
  {
    hide Image;
    hide ChunkBlock;
  }

  lemma CoreKeepsWaiter(s: Cap, r: Cap)
    requires WaiterOk(s) && SameCore(s, r)
    ensures WaiterOk(r)
  {
    hide Image;
    hide ChunkBlock;
  }

  // ---- padding at hand-off ----

  lemma PadMakesChunk(cfg: Config, b: Buf)
    requires BufOk(cfg, b)
    ensures Image(cfg, b.(data := Pad(b.data, b.used, cfg.bufSize)), b.recs)
  {
  }

  /** Handing a buffer off twice pads zeros with zeros: no byte changes. */
  lemma PadTwice(cfg: Config, b: Buf)
    requires BufOk(cfg, b) && Image(cfg, b, b.recs)
    ensures Pad(b.data, b.used, cfg.bufSize) == b.data
  {
    hide AllWellSized;
    hide EncodeAll;
    Rejoin(b.data, cfg.bufSize, EncodeAll(b.recs), Zeros(cfg.bufSize - b.used));
  }

  lemma Rejoin(data: seq<byte>, size: nat, x: seq<byte>, z: seq<byte>)
    requires size <= |data| && data[..size] == x + z
    ensures data == data[..|x|] + z + data[size..]
  {
    assert data == data[..size] + data[size..];
    assert data[..|x|] == data[..size][..|x|] == x;
  }

  lemma EmptyEncodes(rs: seq<Record>)
    ensures |EncodeAll(rs)| == 0 <==> rs == []
  {
    EncodeAllLength(rs);
  }

  // ---- a hand-off the device takes or asks to retry ----

  /** flush_buffer of a non-empty buffer with room, and its write accepted or
      queued for a retry. */
  function Flushed(s: Cap, rc: Rc): Cap
    requires Shape(s)
  {
    var t := HandOff(s);
    var b := t.bufs[s.cur];
    var u := if rc == NoMem
             then t.(waiter := Some(s.cur), h := t.h.(clashed := t.h.clashed || t.waiter.Some?))
             else t.(out := t.out + multiset{Io(s.cur, b.target, b.chunk)});
    u.(next := u.next + u.cfg.bufBlocks)
  }

  /** Without a hazard, flush_buffer does nothing, drops a final buffer that has
      no room, or hands off. The abandon branch of retry_flush is not taken. */
  lemma FlushCases(s: Cap, rcs: seq<Rc>)
    requires Shape(s) && !Hazard(FlushBuffer(s, rcs).h)
    ensures s.bufs[s.cur].used > 0 && RoomFor(s.cfg, s.next) ==>
              && FlushBuffer(s, rcs) == Flushed(s, FirstRc(rcs))
              && (FirstRc(rcs) == NoMem ==> s.waiter.None?)
              && s.waiter != Some(s.cur)
  {
  }

  // ---- handing off keeps the invariant ----

  /** The current buffer can be handed off: it has records, there is room, the
      device takes the write or queues it, and the buffer is in flight only if
      this is the final flush of a stop. */
  ghost predicate CanFlush(s: Cap, final: bool, rc: Rc) {
    && Body(s) && !s.stopping
    && s.bufs[s.cur].used > 0 && RoomFor(s.cfg, s.next)
    && rc != Rejected && (rc == NoMem ==> s.waiter.None?) && s.waiter != Some(s.cur)
    && (s.bufs[s.cur].inFlight ==> final)
  }

  function AfterFlush(s: Cap, final: bool, rc: Rc): Cap
    requires Shape(s)
  {
    Flushed(s.(stopping := final), rc)
  }

  /** The fields a hand-off touches. */
  lemma FlushFacts(s: Cap, final: bool, rc: Rc)
    requires CanFlush(s, final, rc)
    ensures var r := AfterFlush(s, final, rc);
            && r.cfg == s.cfg && r.cur == s.cur && r.start == s.start && r.stopping == final
            && r.next == s.next + s.cfg.bufBlocks
            && r.h.log == s.h.log && r.recordCount == s.recordCount
            && r.firstTsc == s.firstTsc && r.lastTsc == s.lastTsc
            && r.h.placed == s.h.placed + [s.bufs[s.cur].recs]
            && r.h.carrier == s.h.carrier + [s.cur]
            && |r.bufs| == |s.bufs| && r.bufs[s.cur].inFlight
            && (forall i :: 0 <= i < |s.bufs| && i != s.cur ==> r.bufs[i] == s.bufs[i])
            && s.next <= s.cfg.numBlocks - s.cfg.bufBlocks && s.start <= s.next
            && s.bufs[s.cur].used <= s.cfg.bufSize
  {
  }

  lemma FlushDevice(s: Cap, final: bool, rc: Rc)
    requires CanFlush(s, final, rc)
    ensures var r := AfterFlush(s, final, rc);
            && r.out == (if rc == NoMem then s.out
                         else s.out + multiset{Io(s.cur, s.next, |s.h.placed|)})
            && r.waiter == (if rc == NoMem then Some(s.cur) else s.waiter)
            && r.bufs[s.cur].target == s.next && r.bufs[s.cur].chunk == |s.h.placed|
            && r.pending == s.pending + 1 && r.failures == s.failures
            && r.finals == s.finals && r.hwm == s.hwm && r.recording == s.recording
  {
    hide BufsOk;
    hide ConfigOk;
  }

  lemma Distribute(n: nat, k: nat, bs: nat)
    ensures (n + k) * bs == n * bs + k * bs
  {
  }

  lemma FlushImage(s: Cap, final: bool, rc: Rc)
    requires CanFlush(s, final, rc)
    ensures var b := s.bufs[s.cur];
            var b' := AfterFlush(s, final, rc).bufs[s.cur];
            && Image(s.cfg, b', b.recs) && BufOk(s.cfg, b') && b'.recs == b.recs != []
            && (b.inFlight ==> b'.data == b.data)
  {
    hide ChunkBytes;
    hide EncodeAll;
    var b := s.bufs[s.cur];
    EmptyEncodes(b.recs);
    PadMakesChunk(s.cfg, b);
    PadKeepsUsed(b.data, b.used, s.cfg.bufSize);
    if b.inFlight {
      PadTwice(s.cfg, b);
    }
  }

  lemma PadKeepsUsed(data: seq<byte>, used: nat, size: nat)
    requires used <= size <= |data|
    ensures Pad(data, used, size)[..used] == data[..used]
  {
  }

  lemma FlushBufs(s: Cap, final: bool, rc: Rc)
    requires CanFlush(s, final, rc)
    ensures BufsOk(AfterFlush(s, final, rc))
  {
    hide BufOk;
    hide Flushed;
    FlushImage(s, final, rc);
    FlushFacts(s, final, rc);
    var r := AfterFlush(s, final, rc);
    forall i | 0 <= i < MAX_WRITE_BUFFERS ensures BufOk(r.cfg, r.bufs[i]) {
      assert i != s.cur ==> BufOk(s.cfg, s.bufs[i]);
    }
    assert Shape(r) by { FlushShape(s, final, rc); }
  }

  lemma FlushShape(s: Cap, final: bool, rc: Rc)
    requires CanFlush(s, final, rc)
    ensures Shape(AfterFlush(s, final, rc))
  {
    hide BufOk;
  }

  lemma FlushPlaced(s: Cap, final: bool, rc: Rc)
    requires CanFlush(s, final, rc)
    ensures PlacedOk(AfterFlush(s, final, rc))
  {
    hide BufOk;
    hide ChunkFits;
    hide Flushed;
    hide ConfigOk;
    FlushFacts(s, final, rc);
    FlushFits(s.cfg, s.bufs[s.cur]);
    FlushOwn(s, final, rc);
  }

  lemma FlushOwn(s: Cap, final: bool, rc: Rc)
    requires CanFlush(s, final, rc)
    ensures AfterFlush(s, final, rc).h.own == if s.bufs[s.cur].inFlight then s.h.own else |s.h.placed| + 1
  {
    hide BufsOk;
  }

  lemma FlushFits(cfg: Config, b: Buf)
    requires BufOk(cfg, b) && b.used > 0
    ensures ChunkFits(cfg, b.recs)
  {
    EmptyEncodes(b.recs);
  }

  lemma FlushPlace(s: Cap, final: bool, rc: Rc)
    requires CanFlush(s, final, rc)
    ensures PlaceOk(AfterFlush(s, final, rc))
  {
    hide ChunkBlock;
    hide Flushed;
    hide ConfigOk;
    hide OutOk;
    FlushFacts(s, final, rc);
    NextChunk(s.start, |s.h.placed|, s.cfg.bufBlocks);
  }

  /** A chunk some buffer holds is still held after the hand-off: its image is
      another buffer's, or it is this buffer's and no byte changed. */
  lemma FlushHolds(s: Cap, final: bool, rc: Rc, i: nat, c: nat)
    requires CanFlush(s, final, rc) && Holds(s, i, c)
    requires i == s.cur ==> s.bufs[s.cur].inFlight
    ensures Holds(AfterFlush(s, final, rc), i, c)
  {
    hide Image;
    hide Flushed;
    FlushFacts(s, final, rc);
    FlushImage(s, final, rc);
    SameImage(s.cfg, s.bufs[i], AfterFlush(s, final, rc).bufs[i], s.h.placed[c]);
  }

  lemma SameImage(cfg: Config, b: Buf, b': Buf, rs: seq<Record>)
    requires Image(cfg, b, rs) && b'.data == b.data
    ensures Image(cfg, b', rs)
  {
  }

  lemma FlushOut(s: Cap, final: bool, rc: Rc)
    requires CanFlush(s, final, rc)
    ensures OutOk(AfterFlush(s, final, rc))
  {
    hide IoOk;
    hide Flushed;
    hide BufsOk;
    assert Shape(s) by { BodyShape(s); }
    FlushDevice(s, final, rc);
    var r := AfterFlush(s, final, rc);
    forall io | io in r.out ensures IoOk(r, io) {
      if io in s.out {
        FlushOldIo(s, final, rc, io);
      } else {
        FlushNewIo(s, final, rc);
      }
    }
  }

  lemma FlushOldIo(s: Cap, final: bool, rc: Rc, io: Io)
    requires CanFlush(s, final, rc) && io in s.out
    ensures IoOk(AfterFlush(s, final, rc), io)
  {
    hide Flushed;
    hide Holds;
    hide ChunkBlock;
    hide BufsOk;
    hide PlacedOk;
    hide PlaceOk;
    hide WaiterOk;
    hide FlightOk;
    hide LogOk;
    hide BoundOk;
    assert Shape(s) by { BodyShape(s); }
    FlushDevice(s, final, rc);
    FlushFacts(s, final, rc);
    IoChunkKnown(s, io);
    assert IoOk(s, io);
    FlushHolds(s, final, rc, io.buf, io.chunk);
  }

  lemma FlushNewIo(s: Cap, final: bool, rc: Rc)
    requires CanFlush(s, final, rc) && rc != NoMem
    ensures IoOk(AfterFlush(s, final, rc), Io(s.cur, s.next, |s.h.placed|))
  {
    hide Flushed;
    hide Holds;
    hide ChunkBlock;
    hide BufsOk;
    hide ConfigOk;
    assert Shape(s) by { BodyShape(s); }
    FlushDevice(s, final, rc);
    FlushFacts(s, final, rc);
    FlushHoldsNew(s, final, rc);
    var io := Io(s.cur, s.next, |s.h.placed|);
    if io in s.out {
      IoChunkKnown(s, io);
      assert false;
    }
  }

  lemma IoChunkKnown(s: Cap, io: Io)
    requires io in s.out && OutOk(s)
    ensures io.chunk < |s.h.placed| && io.chunk < |s.h.carrier| && io == IoOf(s, io.chunk)
    ensures io.buf < |s.bufs| && s.out[io] == 1
    ensures !s.stopping ==> s.bufs[io.buf].inFlight && s.bufs[io.buf].chunk == io.chunk
  {
    assert IoOk(s, io);
  }

  lemma FlushHoldsNew(s: Cap, final: bool, rc: Rc)
    requires CanFlush(s, final, rc)
    ensures Holds(AfterFlush(s, final, rc), s.cur, |s.h.placed|)
  {
    hide Image;
    hide Flushed;
    FlushFacts(s, final, rc);
    FlushImage(s, final, rc);
  }

  lemma FlushWaiter(s: Cap, final: bool, rc: Rc)
    requires CanFlush(s, final, rc)
    ensures WaiterOk(AfterFlush(s, final, rc))
  {
    hide Holds;
    hide ChunkBlock;
    var r := AfterFlush(s, final, rc);
    if rc == NoMem {
      FlushHoldsNew(s, final, rc);
      if IoOf(r, |s.h.placed|) in s.out {
        IoChunkKnown(s, IoOf(r, |s.h.placed|));
        assert false;
      }
    } else if s.waiter.Some? {
      var w := s.waiter.value;
      WaiterChunkKnown(s);
      FlushHolds(s, final, rc, w, s.bufs[w].chunk);
    }
  }

  lemma WaiterChunkKnown(s: Cap)
    requires s.waiter.Some? && WaiterOk(s)
    ensures s.waiter.value < |s.bufs|
    ensures s.bufs[s.waiter.value].chunk < |s.h.placed| && s.bufs[s.waiter.value].chunk < |s.h.carrier|
    ensures s.h.carrier[s.bufs[s.waiter.value].chunk] == s.waiter.value
  {
  }

  lemma FlushFlight(s: Cap, final: bool, rc: Rc)
    requires CanFlush(s, final, rc)
    ensures FlightOk(AfterFlush(s, final, rc))
  {
    hide Image;
    FlushImage(s, final, rc);
  }

  lemma FlushDebt(s: Cap, final: bool, rc: Rc)
    requires CanFlush(s, final, rc)
    ensures Debt(AfterFlush(s, final, rc)) == Debt(s)
  {
    hide Flushed;
    FlushDevice(s, final, rc);
  }

  lemma FlushLog(s: Cap, final: bool, rc: Rc)
    requires CanFlush(s, final, rc)
    ensures LogOk(AfterFlush(s, final, rc))
  {
    hide BufOk;
    hide ConfigOk;
    hide IoOk;
    hide ChunkFits;
    hide WaiterOk;
    hide BoundOk;
    hide TscOk;
    hide PlaceOk;
    hide FlightOk;
    hide Pad;
    var b := s.bufs[s.cur];
    var placed := s.h.placed + [b.recs];
    assert s.h.placed[..s.h.own] == s.h.placed;
    FlatSnoc(s.h.placed, b.recs);
    assert placed[..|placed|] == placed && placed[..s.h.own] == s.h.placed;
  }

  lemma FlushBound(s: Cap, final: bool, rc: Rc)
    requires CanFlush(s, final, rc)
    ensures BoundOk(AfterFlush(s, final, rc))
  {
    hide Flushed;
    hide EncodeAll;
    FlushFacts(s, final, rc);
    FillingFits(s);
    Distribute(s.next - s.start, s.cfg.bufBlocks, s.cfg.bs);
    assert EncodeAll([]) == [] by { EmptyEncodes([]); }
  }

  lemma FillingFits(s: Cap)
    requires BufsOk(s)
    ensures FillingBytes(s) <= s.cfg.bufSize == s.cfg.bufBlocks * s.cfg.bs
  {
    assert BufOk(s.cfg, s.bufs[s.cur]);
  }

  lemma FlushKeepsBody(s: Cap, final: bool, rc: Rc)
    requires CanFlush(s, final, rc)
    ensures Body(AfterFlush(s, final, rc))
  {
    hide Flushed;
    hide BufsOk;
    hide PlacedOk;
    hide PlaceOk;
    hide OutOk;
    hide WaiterOk;
    hide FlightOk;
    hide LogOk;
    hide BoundOk;
    assert Shape(s) by { BodyShape(s); }
    FlushBufs(s, final, rc);
    FlushPlaced(s, final, rc);
    FlushPlace(s, final, rc);
    FlushOut(s, final, rc);
    FlushWaiter(s, final, rc);
    FlushFlight(s, final, rc);
    FlushLog(s, final, rc);
    FlushBound(s, final, rc);
    FlushTsc(s, final, rc);
  }

  lemma FlushTsc(s: Cap, final: bool, rc: Rc)
    requires CanFlush(s, final, rc)
    ensures TscOk(AfterFlush(s, final, rc))
  {
    hide Flushed;
    hide BufsOk;
    hide FirstTsc;
    assert Shape(s) by { BodyShape(s); }
    FlushFacts(s, final, rc);
  }

  lemma BodyShape(s: Cap)
    requires Body(s)
    ensures Shape(s)
  {
  }

  // ---- the final flush of a stop ----

  function Stopped(s: Cap): Cap {
    s.(stopping := true)
  }

  lemma StopWithNothing(s: Cap)
    requires Body(s) && !s.stopping && s.bufs[s.cur].used == 0
    ensures Body(Stopped(s))
  {
    hide BufOk;
    hide IoOk;
    hide ConfigOk;
    hide ChunkFits;
    hide Holds;
    hide Image;
    hide EncodeAll;
    CurEmpty(s);
    FillingFits(s);
    var r := Stopped(s);
    forall io | io in r.out ensures IoOk(r, io) {
      IoUnaffected(s, r, io);
    }
    WaiterUnaffected(s, r);
  }

  lemma CurEmpty(s: Cap)
    requires BufsOk(s) && s.bufs[s.cur].used == 0
    ensures s.bufs[s.cur].recs == [] && Filling(s) == []
  {
    assert BufOk(s.cfg, s.bufs[s.cur]);
    EmptyEncodes(s.bufs[s.cur].recs);
  }

  /** An outstanding write is unaffected by a step that keeps the placement and
      the bytes of its buffer and, before a stop, its buffer's flight. */
  lemma IoUnaffected(s: Cap, r: Cap, io: Io)
    requires OutOk(s) && io in s.out && r.out[io] == s.out[io]
    requires r.cfg == s.cfg && r.start == s.start && |r.bufs| == |s.bufs|
    requires s.h.placed <= r.h.placed && s.h.carrier <= r.h.carrier
    requires io.buf < |s.bufs| ==> r.bufs[io.buf].data == s.bufs[io.buf].data
    requires !r.stopping && io.buf < |s.bufs| ==>
               !s.stopping && r.bufs[io.buf].inFlight == s.bufs[io.buf].inFlight
               && r.bufs[io.buf].chunk == s.bufs[io.buf].chunk
    ensures IoOk(r, io)
  {
    hide Image;
    hide ChunkBlock;
    assert IoOk(s, io);
    SameImage(s.cfg, s.bufs[io.buf], r.bufs[io.buf], s.h.placed[io.chunk]);
  }

  lemma WaiterUnaffected(s: Cap, r: Cap)
    requires WaiterOk(s) && r.waiter == s.waiter && r.out == s.out
    requires r.cfg == s.cfg && r.start == s.start && |r.bufs| == |s.bufs|
    requires s.h.placed <= r.h.placed && s.h.carrier <= r.h.carrier
    requires s.waiter.Some? && s.waiter.value < |s.bufs| ==>
               var b, b' := s.bufs[s.waiter.value], r.bufs[s.waiter.value];
               && b'.data == b.data && b'.target == b.target && b'.chunk == b.chunk
               && (!r.stopping ==> !s.stopping && b'.inFlight == b.inFlight)
    ensures WaiterOk(r)
  {
    hide Image;
    hide ChunkBlock;
    if s.waiter.Some? {
      var w := s.waiter.value;
      SameImage(s.cfg, s.bufs[w], r.bufs[w], s.h.placed[s.bufs[w].chunk]);
    }
  }

  lemma StopWithoutRoom(s: Cap)
    requires Body(s) && !s.stopping
    ensures Body(TailDropped(Stopped(s)))
  {
    hide BufOk;
    hide IoOk;
    hide ConfigOk;
    hide ChunkFits;
    var r := TailDropped(Stopped(s));
    TailBufs(s);
    TailLog(s);
    forall io | io in r.out ensures IoOk(r, io) {
      IoUnaffected(s, r, io);
    }
    WaiterUnaffected(s, r);
  }

  lemma TailBufs(s: Cap)
    requires BufsOk(s)
    ensures BufsOk(TailDropped(Stopped(s)))
  {
    var r := TailDropped(Stopped(s));
    assert BufOk(s.cfg, s.bufs[s.cur]);
    EmptyBufOk(s.cfg, s.bufs[s.cur], r.bufs[s.cur]);
    TailShape(s);
    hide BufOk;
    hide ConfigOk;
    hide EncodeAll;
    forall i | 0 <= i < MAX_WRITE_BUFFERS ensures BufOk(r.cfg, r.bufs[i]) {
      assert BufOk(s.cfg, s.bufs[i]);
    }
  }

  lemma TailShape(s: Cap)
    requires Shape(s)
    ensures Shape(TailDropped(Stopped(s)))
  {
  }

  /** A buffer that has been emptied. */
  lemma EmptyBufOk(cfg: Config, b: Buf, b': Buf)
    requires BufOk(cfg, b) && b'.data == b.data && b'.used == 0 && b'.recs == []
    ensures BufOk(cfg, b')
  {
    assert EncodeAll([]) == [];
  }

  lemma TailLog(s: Cap)
    requires BufsOk(s) && LogOk(s) && BoundOk(s) && !s.stopping
    ensures LogOk(TailDropped(Stopped(s))) && BoundOk(TailDropped(Stopped(s)))
  {
    hide EncodeAll;
    hide ConfigOk;
    FillingFits(s);
  }

  /** What daemon_stop_recording does with the current buffer. */
  function StopFlush(s: Cap, rcs: seq<Rc>): Cap
    requires Shape(s)
  {
    FlushBuffer(Stopped(s), rcs)
  }

  lemma StopFlushKeepsBody(s: Cap, rcs: seq<Rc>)
    requires Body(s) && !s.stopping
    requires !Hazard(StopFlush(s, rcs).h)
    ensures var r := StopFlush(s, rcs);
            && Body(r) && r.stopping && Debt(r) == Debt(s)
            && r.finals == s.finals && r.hwm == s.hwm && r.recording == s.recording
            && r.recordCount == s.recordCount && r.failures == s.failures && r.cfg == s.cfg
  {
    hide BufsOk;
    hide PlacedOk;
    hide PlaceOk;
    hide OutOk;
    hide WaiterOk;
    hide FlightOk;
    hide LogOk;
    hide BoundOk;
    hide Flushed;
    assert Shape(s) by { BodyShape(s); }
    if s.bufs[s.cur].used == 0 {
      StopWithNothing(s);
    } else if !RoomFor(s.cfg, s.next) {
      StopWithoutRoom(s);
    } else {
      FlushCases(Stopped(s), rcs);
      FlushKeepsBody(s, true, FirstRc(rcs));
      FlushDebt(s, true, FirstRc(rcs));
      FlushDevice(s, true, FirstRc(rcs));
      FlushFacts(s, true, FirstRc(rcs));
    }
  }

  /** daemon_stop_recording: everything is kept, and the finalize chain starts
      exactly if nothing is pending. */
  lemma StopKeeps(s: Cap, rcs: seq<Rc>)
    requires Body(s) && !s.stopping && s.finals == 0
    requires !Hazard(StopRecording(s, rcs).h)
    ensures var r := StopRecording(s, rcs);
            && Body(r) && r.stopping && Debt(r) == Debt(s) && FinalOk(r)
            && r.recording == s.recording
            && r.recordCount == s.recordCount && r.failures == s.failures && r.cfg == s.cfg
  {
    hide Body;
    hide FlushBuffer;
    assert Shape(s) by { BodyShape(s); }
    StopFlushKeepsBody(s, rcs);
    CoreKeepsBody(StopFlush(s, rcs), Finalize(StopFlush(s, rcs)));
  }

  // ---- appending a record ----

  lemma RecordsFit64(s: Cap)
    requires BufsOk(s) && PlaceOk(s) && BoundOk(s) && LogOk(s)
    ensures s.recordCount < 0x1_0000_0000_0000_0000
  {
    hide BufOk;
    hide TargetOf;
    FillingFits(s);
    BelowDevice(s.next - s.start, s.cfg.numBlocks, s.cfg.bs);
    var filling := if s.stopping then s.cfg.bufSize else FillingBytes(s);
    LogFits64(|s.h.log|, BytesOf(s.next - s.start, s.cfg.bs), filling);
    hide Shape;
    hide BufsOk;
    hide LogOk;
  }

  lemma LogFits64(records: nat, handedOff: nat, filling: nat)
    requires RECORD_HDR * records <= handedOff + filling
    requires handedOff < DEVICE_BYTES_MAX && filling <= MAX_WRITE_CHUNK_BYTES
    ensures records < DEVICE_BYTES_MAX
  {
  }

  lemma BelowDevice(n: nat, max: nat, bs: nat)
    requires n <= max
    ensures n * bs <= max * bs
  {
  }

  lemma RecordIsSized(seqNo: nat, tsc: nat, payload: seq<byte>)
    requires seqNo < 0x1_0000_0000_0000_0000 && tsc < 0x1_0000_0000_0000_0000
    requires |payload| < 0x1_0000_0000
    ensures WellSized(Record(seqNo, tsc, payload))
  {
    PowersOf256();
  }

  /** A record and a timestamp of the sizes the program produces. */
  ghost predicate CanAppend(s: Cap, tsc: nat, payload: seq<byte>) {
    && Body(s) && !s.stopping && !s.bufs[s.cur].inFlight
    && s.bufs[s.cur].used + RECORD_HDR + |payload| <= s.cfg.bufSize
    && tsc < 0x1_0000_0000_0000_0000 && |payload| < 0x1_0000_0000
  }

  lemma AppendBuf(cfg: Config, b: Buf, rec: Record)
    requires BufOk(cfg, b) && WellSized(rec)
    requires b.used + |Encode(rec)| <= cfg.bufSize
    ensures BufOk(cfg, b.(data := Stored(b.data, b.used, Encode(rec)),
                          used := b.used + |Encode(rec)|, recs := b.recs + [rec]))
  {
    hide WellSized;
    hide Encode;
    EncodeAllSnoc(b.recs, rec);
    var d := Stored(b.data, b.used, Encode(rec));
    assert d[..b.used + |Encode(rec)|] == b.data[..b.used] + Encode(rec);
  }

  lemma AppendBufs(s: Cap, tsc: nat, payload: seq<byte>)
    requires CanAppend(s, tsc, payload)
    ensures BufsOk(Append(s, tsc, payload))
    ensures forall i :: 0 <= i < |s.bufs| && i != s.cur ==> Append(s, tsc, payload).bufs[i] == s.bufs[i]
  {
    hide Encode;
    hide Stored;
    var rec := Record(s.recordCount, tsc, payload);
    RecordsFit64(s);
    hide BoundOk;
    hide LogOk;
    hide OutOk;
    RecordIsSized(s.recordCount, tsc, payload);
    AppendBuf(s.cfg, s.bufs[s.cur], rec);
    hide BufOk;
    var r := Append(s, tsc, payload);
    forall i | 0 <= i < MAX_WRITE_BUFFERS ensures BufOk(r.cfg, r.bufs[i]) {
      assert i != s.cur ==> BufOk(s.cfg, s.bufs[i]);
    }
  }

  lemma AppendLog(s: Cap, tsc: nat, payload: seq<byte>)
    requires CanAppend(s, tsc, payload)
    ensures LogOk(Append(s, tsc, payload)) && BoundOk(Append(s, tsc, payload))
  {
    hide Encode;
    hide Stored;
    hide ConfigOk;
    hide BufOk;
    hide OutOk;
    hide EncodeAll;
    var rec := Record(s.recordCount, tsc, payload);
    EncodeAllSnoc(s.bufs[s.cur].recs, rec);
    var flat := Flat(s.h.placed[..s.h.own]);
    assert (flat + Filling(s)) + [rec] == flat + (Filling(s) + [rec]);
  }

  lemma {:induction false} FirstTscSnoc(log: seq<Record>, rec: Record)
    ensures FirstTsc(log + [rec]) == if FirstTsc(log) == 0 then rec.tsc else FirstTsc(log)
  {
    if log == [] {
      assert log + [rec] == [rec];
    } else {
      assert (log + [rec])[1..] == log[1..] + [rec];
      FirstTscSnoc(log[1..], rec);
    }
  }

  lemma AppendTsc(s: Cap, tsc: nat, payload: seq<byte>)
    requires CanAppend(s, tsc, payload)
    ensures TscOk(Append(s, tsc, payload))
  {
    hide Encode;
    hide Stored;
    hide BufsOk;
    hide FirstTsc;
    assert Shape(s) by { BodyShape(s); }
    FirstTscSnoc(s.h.log, Record(s.recordCount, tsc, payload));
  }

  lemma AppendKeeps(s: Cap, tsc: nat, payload: seq<byte>)
    requires CanAppend(s, tsc, payload)
    ensures Body(Append(s, tsc, payload)) && Debt(Append(s, tsc, payload)) == Debt(s)
  {
    hide BufOk;
    hide ConfigOk;
    hide Stored;
    hide ChunkFits;
    hide LogOk;
    hide BoundOk;
    hide TscOk;
    hide Holds;
    hide ChunkBlock;
    AppendBufs(s, tsc, payload);
    AppendLog(s, tsc, payload);
    AppendTsc(s, tsc, payload);
    var r := Append(s, tsc, payload);
    forall io | io in r.out ensures IoOk(r, io) {
      assert IoOk(s, io);
      IoChunkKnown(s, io);
      IoUnaffected(s, r, io);
    }
    WaiterUnaffected(s, r);
    AppendFlight(s, r);
  }

  lemma AppendFlight(s: Cap, r: Cap)
    requires FlightOk(s) && !s.stopping && |r.bufs| == |s.bufs| && r.cfg == s.cfg && s.cur < |s.bufs|
    requires !r.bufs[s.cur].inFlight
    requires forall i :: 0 <= i < |s.bufs| && i != s.cur ==> r.bufs[i] == s.bufs[i]
    ensures FlightOk(r)
  {
    hide Image;
  }

  // ---- moving to the next buffer ----

  lemma NextBufferKeeps(s: Cap)
    requires Body(s) && Idle(s.bufs[s.cur])
    ensures Body(NextBuffer(s)) && Debt(NextBuffer(s)) == Debt(s)
  {
    hide BufOk;
    hide ConfigOk;
    hide IoOk;
    hide ChunkFits;
    hide Holds;
    hide Image;
    hide EncodeAll;
    var r := NextBuffer(s);
    if !s.bufs[s.cur].inFlight {
      CurEmpty(s);
    }
    assert BufsOk(r);
    if !r.bufs[r.cur].inFlight {
      CurEmpty(r);
    }
    forall io | io in r.out ensures IoOk(r, io) {
      assert IoOk(s, io);
      IoUnaffected(s, r, io);
    }
    WaiterUnaffected(s, r);
  }

  // ---- completions ----

  /** write_complete before it looks at the outcome. */
  function Taken(s: Cap, io: Io): Cap
    requires Shape(s) && io.buf < MAX_WRITE_BUFFERS
  {
    Release(s, io.buf).(out := s.out - multiset{io})
  }

  lemma TakenBufs(s: Cap, io: Io)
    requires BufsOk(s) && io.buf < MAX_WRITE_BUFFERS
    ensures BufsOk(Taken(s, io))
  {
    var r := Taken(s, io);
    assert BufOk(s.cfg, s.bufs[io.buf]);
    EmptyBufOk(s.cfg, s.bufs[io.buf], r.bufs[io.buf]);
    hide BufOk;
    hide ConfigOk;
    forall i | 0 <= i < MAX_WRITE_BUFFERS ensures BufOk(r.cfg, r.bufs[i]) {
      assert BufOk(s.cfg, s.bufs[i]);
    }
  }

  /** Before a stop, at most one write is outstanding for a buffer, and the
      waiting buffer has none. */
  lemma OneWritePerBuffer(s: Cap, io: Io, io': Io)
    requires OutOk(s) && WaiterOk(s) && !s.stopping && io in s.out
    ensures io' in s.out && io'.buf == io.buf ==> io' == io
    ensures s.waiter != Some(io.buf)
  {
    hide Holds;
    hide ChunkBlock;
    IoChunkKnown(s, io);
    if io' in s.out && io'.buf == io.buf {
      IoChunkKnown(s, io');
    }
  }

  lemma TakenFilling(s: Cap, io: Io)
    requires BufsOk(s) && OutOk(s) && io in s.out && io.buf < MAX_WRITE_BUFFERS && !s.stopping
    ensures Filling(Taken(s, io)) == Filling(s) && FillingBytes(Taken(s, io)) == FillingBytes(s)
  {
    hide BufOk;
    hide ConfigOk;
    IoChunkKnown(s, io);
  }

  lemma TakenLog(s: Cap, io: Io)
    requires Body(s) && io in s.out && io.buf < MAX_WRITE_BUFFERS
    ensures LogOk(Taken(s, io)) && BoundOk(Taken(s, io))
  {
    hide BufsOk;
    hide PlacedOk;
    hide PlaceOk;
    hide OutOk;
    hide WaiterOk;
    hide FlightOk;
    hide Filling;
    hide FillingBytes;
    assert Shape(s) by { BodyShape(s); }
    if !s.stopping {
      TakenFilling(s, io);
    }
  }

  lemma TakenKeepsBody(s: Cap, io: Io)
    requires Body(s) && io in s.out && io.buf < MAX_WRITE_BUFFERS
    ensures Body(Taken(s, io)) && Debt(Taken(s, io)) == Debt(s) + 1
  {
    hide BufOk;
    hide ConfigOk;
    hide IoOk;
    hide ChunkFits;
    hide LogOk;
    hide BoundOk;
    TakenBufs(s, io);
    TakenLog(s, io);
    var r := Taken(s, io);
    OutOnce(s, io);
    forall io' | io' in r.out ensures IoOk(r, io') {
      if !s.stopping {
        OneWritePerBuffer(s, io, io');
      }
      IoUnaffected(s, r, io');
    }
    TakenWaiter(s, io);
  }

  lemma OutOnce(s: Cap, io: Io)
    requires OutOk(s) && io in s.out
    ensures io !in s.out - multiset{io}
    ensures forall io' :: io' in s.out - multiset{io} ==> (s.out - multiset{io})[io'] == s.out[io']
  {
    assert IoOk(s, io);
  }

  lemma TakenWaiter(s: Cap, io: Io)
    requires Body(s) && io in s.out && io.buf < MAX_WRITE_BUFFERS
    ensures WaiterOk(Taken(s, io))
  {
    hide BufsOk;
    hide Image;
    hide ChunkBlock;
    hide IoOk;
    hide ConfigOk;
    hide LogOk;
    hide BoundOk;
    hide PlacedOk;
    hide FlightOk;
    assert Shape(s) by { BodyShape(s); }
    if s.waiter.Some? {
      var w := s.waiter.value;
      if !s.stopping {
        OneWritePerBuffer(s, io, io);
      }
      SameImage(s.cfg, s.bufs[w], Taken(s, io).bufs[w], s.h.placed[s.bufs[w].chunk]);
    }
  }

  /** chrono_note_write_failure: below the threshold it only counts; at the
      threshold it stops the recording. */
  lemma NoteKeeps(s: Cap, rcs: seq<Rc>)
    requires Body(s) && BreakerOk(s) && s.finals == 0
    requires !Hazard(NoteWriteFailure(s, rcs).h)
    ensures var r := NoteWriteFailure(s, rcs);
            && Body(r) && BreakerOk(r) && Debt(r) == Debt(s)
            && (s.stopping ==> r.finals == 0 && r.pending == s.pending)
            && (!s.stopping && r.stopping ==> FinalOk(r))
            && (!r.stopping ==> r.finals == 0)
            && r.recordCount == s.recordCount && r.cfg == s.cfg && r.recording == s.recording
  {
    hide Body;
    hide StopRecording;
    assert Shape(s) by { BodyShape(s); }
    var t := s.(failures := s.failures + 1);
    CoreKeepsBody(s, t);
    var u := t.(reason := StopWriteFailures);
    CoreKeepsBody(s, u);
    if t.failures >= WRITE_FAILURE_THRESHOLD {
      if s.stopping {
        StopTwice(u, rcs);
      } else {
        StopKeeps(u, rcs);
      }
    }
  }

  lemma StopTwice(s: Cap, rcs: seq<Rc>)
    requires Shape(s) && s.stopping
    ensures StopRecording(s, rcs) == s
  {
  }

  /** write_complete, successful or not, with its possible stop: the invariant
      holds again, and the finalize chain starts exactly when the last
      outstanding write of a stopped segment has come back. */
  lemma CompleteKeeps(s: Cap, io: Io, ok: bool, rcs: seq<Rc>)
    requires Inv(s) && io in s.out && io.buf < MAX_WRITE_BUFFERS
    requires !Hazard(WriteComplete(s, io, ok, rcs).h)
    ensures Inv(WriteComplete(s, io, ok, rcs))
  {
    hide Body;
    assert Shape(s) by { BodyShape(s); }
    OutHasSome(s, io);
    TakenKeepsBody(s, io);
    TakenFacts(s, io);
    if ok {
      SuccessKeeps(s, io, rcs);
    } else {
      FailureKeeps(s, io, rcs);
    }
  }

  lemma SuccessKeeps(s: Cap, io: Io, rcs: seq<Rc>)
    requires Shape(s) && io in s.out && io.buf < MAX_WRITE_BUFFERS
    requires FinalOk(s) && BreakerOk(s) && LimitOk(s) && s.pending > 0
    requires Body(Taken(s, io)) && Debt(Taken(s, io)) == 1
    ensures Inv(WriteComplete(s, io, true, rcs))
  {
    hide Body;
    hide Release;
    hide FinalizeIfDrained;
    TakenFacts(s, io);
    var t := Taken(s, io);
    var v := t.(failures := 0, h := t.h.(done := t.h.done + {io.chunk}));
    CoreKeepsBody(t, v);
    DrainKeeps(v);
  }

  lemma FailureKeeps(s: Cap, io: Io, rcs: seq<Rc>)
    requires Shape(s) && io in s.out && io.buf < MAX_WRITE_BUFFERS
    requires FinalOk(s) && BreakerOk(s) && LimitOk(s) && s.pending > 0
    requires Body(Taken(s, io)) && Debt(Taken(s, io)) == 1
    requires !Hazard(WriteComplete(s, io, false, rcs).h)
    ensures Inv(WriteComplete(s, io, false, rcs))
  {
    hide Body;
    hide Release;
    hide NoteWriteFailure;
    TakenFacts(s, io);
    var t := Taken(s, io);
    var v := t.(h := t.h.(lost := t.h.lost + {io.chunk}));
    CoreKeepsBody(t, v);
    assert Shape(v) by { BodyShape(v); }
    FailedIs(s, io, rcs);
    hide WriteComplete;
    hide FinalizeIfDrained;
    NoteKeeps(v, rcs);
    hide Taken;
    hide Shape;
    DrainKeeps(NoteWriteFailure(v, rcs));
  }

  /** The end of write_complete: the write is no longer pending, and the finalize
      chain starts if it was the last of a stopped segment. */
  lemma DrainKeeps(s: Cap)
    requires Body(s) && BreakerOk(s) && LimitOk(s) && Debt(s) == 1 && s.finals == 0
    ensures Inv(FinalizeIfDrained(s.(pending := s.pending - 1)))
  {
    hide Body;
    CoreKeepsBody(s, FinalizeIfDrained(s.(pending := s.pending - 1)));
  }

  /** write_complete of a failed write, past its call of the breaker. */
  lemma FailedIs(s: Cap, io: Io, rcs: seq<Rc>)
    requires Shape(s) && io in s.out && io.buf < MAX_WRITE_BUFFERS
    ensures var t := Taken(s, io);
            var v := t.(h := t.h.(lost := t.h.lost + {io.chunk}));
            var n := NoteWriteFailure(v, rcs);
            WriteComplete(s, io, false, rcs) == FinalizeIfDrained(n.(pending := n.pending - 1))
  {
    hide NoteWriteFailure;
    hide Keeps;
  }

  lemma TakenFacts(s: Cap, io: Io)
    requires Shape(s) && io.buf < MAX_WRITE_BUFFERS
    ensures var t := Taken(s, io);
            && t.stopping == s.stopping && t.failures == s.failures && t.pending == s.pending
            && t.finals == s.finals && t.hwm == s.hwm && t.recordCount == s.recordCount
            && t.cfg == s.cfg && t.recording == s.recording && t.h == s.h
  {
  }

  lemma OutHasSome(s: Cap, io: Io)
    requires io in s.out
    ensures |s.out| >= 1
  {
    assert s.out == (s.out - multiset{io}) + multiset{io};
  }
}
