/** What every step of the daemon keeps, on disk and in memory. */
module StoreInvariant {
  import opened Bytes
  import opened Record
  import opened Device
  import opened Readers
  import opened Capture
  import opened CaptureInvariant
  import opened CaptureDisk
  import opened SegmentData
  import opened Store

  // ---- reading the disk ----

  const NO_ENTRY := Entry(0, 0, 0, 0, 0, 0, 0, 0, 0, 0, 0, 0, 0, 0, 0)

  /** TOC slot j, as a reader decodes it. */
  function Slot(d: Disk, j: nat): Entry {
    if Readable(d, j) then EntryAt(d, j) else NO_ENTRY
  }

  function Header(d: Disk): Volume
    requires |d| > 0 && |d[0]| >= VOLUME_BYTES
  {
    DecodeVolume(d[0])
  }

  ghost predicate DiskOk(d: Disk, c: Config) {
    && ENTRY_BYTES <= c.bs && Formed(d, c.bs) && |d| == c.numBlocks && DATA_START <= |d|
  }

  /** An entry that stands for a finalized segment, deleted or not. (A deleted
      entry without a tsc rate was never finalized: it was abandoned while open.) */
  predicate Sealed(e: Entry) {
    && e.magic == SEGMENT_MAGIC
    && (e.state == STATE_FINALIZED || (e.state == STATE_DELETED && e.tscHz != 0))
  }

  predicate SealedAt(d: Disk, j: nat) {
    j < TOC_SLOT_COUNT && Sealed(Slot(d, j))
  }

  function EndOf(e: Entry): nat {
    e.startBlock + e.blockCount
  }

  // ---- invariants of the disk ----

  /** Sealed entries have a tsc rate, so that they stay sealed when deleted; they
      sit in their own slots below `seg`, and their data between the start of the
      data area and `hi`. */
  ghost predicate TocOk(d: Disk, seg: nat, hi: nat) {
    forall j: nat :: SealedAt(d, j) ==>
      && Slot(d, j).segmentId == j && j < seg && Slot(d, j).tscHz != 0
      && DATA_START <= Slot(d, j).startBlock && EndOf(Slot(d, j)) <= hi
  }

  /** No two sealed segments share a block. */
  ghost predicate Apart(d: Disk) {
    forall i: nat, j: nat :: SealedAt(d, i) && SealedAt(d, j) && i != j ==>
      EndOf(Slot(d, i)) <= Slot(d, j).startBlock || EndOf(Slot(d, j)) <= Slot(d, i).startBlock
  }

  /** Never finalized: neither data nor records. */
  predicate Plain(e: Entry) {
    e.tscHz == 0 && e.blockCount == 0 && e.recordCount == 0
  }

  /** An entry of a segment that was claimed and is not open any more. */
  predicate Closed(e: Entry) {
    Classify(e) == Finalized || Classify(e) == Deleted
  }

  predicate ClosedAt(d: Disk, j: nat) {
    j < TOC_SLOT_COUNT && Closed(Slot(d, j))
  }

  /** Entries still open, and those deleted while open, carry nothing. */
  ghost predicate OpenPlain(d: Disk) {
    forall j: nat :: j < TOC_SLOT_COUNT && !Sealed(Slot(d, j)) && Classify(Slot(d, j)) != NotFound
                     ==> Plain(Slot(d, j))
  }

  predicate Covers(e: Entry, b: nat) {
    e.startBlock <= b < EndOf(e)
  }

  /** No two finalized or deleted segments share a block, whether a deleted one was
      finalized before or not, and all their blocks lie between the start of the
      data area and `hi`. */
  ghost predicate ClosedApart(d: Disk, hi: nat) {
    && (forall i: nat, j: nat, b: nat :: ClosedAt(d, i) && ClosedAt(d, j) && i != j ==>
          !(Covers(Slot(d, i), b) && Covers(Slot(d, j), b)))
    && (forall j: nat, b: nat :: ClosedAt(d, j) && Covers(Slot(d, j), b) ==> DATA_START <= b < hi)
  }

  ghost predicate HeaderOk(d: Disk, c: Config)
    requires |d| > 0 && |d[0]| >= VOLUME_BYTES
  {
    var v := Header(d);
    && v == VolumeFor(c.bs, v.nextSegmentId, v.nextDataBlock, v.initSec)
    && v.nextSegmentId <= TOC_SLOT_COUNT && v.initSec < DEVICE_BYTES_MAX
    && DATA_START <= v.nextDataBlock <= c.numBlocks
  }

  /** What a restart may rely on, looking at the disk alone. */
  ghost predicate CrashSafe(d: Disk, c: Config) {
    && DiskOk(d, c) && HeaderOk(d, c)
    && TocOk(d, Header(d).nextSegmentId, Header(d).nextDataBlock)
    && Apart(d) && OpenPlain(d)
  }

  ghost predicate OnDisk(y: Sys) {
    && DiskOk(y.d, y.m.cap.cfg) && HeaderOk(y.d, y.m.cap.cfg)
    && Header(y.d).nextSegmentId <= y.m.nextSeg
    && Header(y.d).nextDataBlock <= y.m.cap.hwm
    && TocOk(y.d, Header(y.d).nextSegmentId, y.m.cap.hwm)
    && (!y.f.lag ==> TocOk(y.d, Header(y.d).nextSegmentId, Header(y.d).nextDataBlock))
    && Apart(y.d) && OpenPlain(y.d)
  }

  // ---- invariants of the memory ----

  ghost predicate InMemory(m: Daemon) {
    && Allocated(m.cap) && ConfigOk(m.cap.cfg)
    && m.nextSeg <= TOC_SLOT_COUNT && DATA_START <= m.cap.hwm <= m.cap.cfg.numBlocks
    && m.initSec < DEVICE_BYTES_MAX && m.startSec < DEVICE_BYTES_MAX && m.startNsec < 0x1_0000_0000
    && m.cursor <= m.staged.dataStartBlock
    && (!m.cap.recording ==> m.cap.pending == 0 && m.cap.out == multiset{} && m.cap.waiter.None?)
  }

  predicate Finalizing(m: Daemon) {
    m.meta.Some? && (m.meta.value.cb.FinHeader? || m.meta.value.cb.FinToc?)
  }

  /** While a segment is open. */
  ghost predicate InRecording(y: Sys) {
    var m := y.m;
    m.cap.recording ==>
      && Inv(m.cap) && CoverOk(m.cap) && DataOk(m.cap, y.d) && !Hazard(m.cap.h)
      && !m.claiming && m.currentSeg == Some(m.segId) && m.segId < Header0(y.d).nextSegmentId
      && DATA_START <= m.cap.start
      && Slot(y.d, m.segId) == OpenEntry(m)
      && (forall j: nat :: SealedAt(y.d, j) ==> EndOf(Slot(y.d, j)) <= m.cap.start)
      && (m.cap.finals == 0 ==> m.cap.hwm == m.cap.start)
      && (m.cap.finals == 1 <==> Finalizing(m))
      && (m.meta.None? || !m.meta.value.cb.FinToc? ==> Header0(y.d).nextDataBlock == m.cap.start)
  }

  function Header0(d: Disk): Volume {
    if |d| > 0 && |d[0]| >= VOLUME_BYTES then Header(d) else DecodeVolume(Zeros(VOLUME_BYTES))
  }

  ghost predicate FormatOk(m: Daemon, d: Disk) {
    && !m.cap.recording && !m.claiming
    && m.staged == VolumeFor(m.cap.cfg.bs, 0, DATA_START, m.staged.initSec)
    && m.staged.initSec < DEVICE_BYTES_MAX
    && TOC_START <= m.cursor <= DATA_START
    && (forall b :: TOC_START <= b < m.cursor && b < |d| ==> d[b] == Zeros(m.cap.cfg.bs))
  }

  predicate Claiming(m: Daemon) {
    m.claiming && !m.cap.recording && m.cap.start == m.cap.hwm
  }

  /** A delete may run beside a recording, but not on its slot and not while it
      is being finalized. */
  predicate DeleteOk(m: Daemon, slot: nat) {
    && slot < TOC_SLOT_COUNT && !m.claiming
    && (m.cap.recording ==> slot != m.segId)
  }

  ghost predicate FinalWrite(m: Daemon, w: Option<Meta>)
    requires ENTRY_BYTES <= m.cap.cfg.bs && m.cap.start <= m.cap.next
  {
    exists now: Clock :: now.hz > 0 && w == EntryWrite(FinToc, m.segId, FinalEntry(m, now), m.cap.cfg.bs)
  }

  /** What the metadata write in flight contains, and when it can be in flight. */
  ghost predicate InFlightMeta(y: Sys) {
    var m := y.m;
    var bs := m.cap.cfg.bs;
    && ENTRY_BYTES <= bs
    && (m.delRead.Some? ==> m.meta.None? && DeleteOk(m, m.delRead.value))
    && match m.meta
       case None => !m.claiming
       case Some(w) =>
         match w.cb
         case ClaimToc =>
           && Claiming(m) && m.segId == m.nextSeg < TOC_SLOT_COUNT
           && m.meta == EntryWrite(ClaimToc, m.segId, OpenEntry(m), bs)
         case ClaimHeader =>
           && Claiming(m) && m.segId + 1 == m.nextSeg
           && m.meta == HeaderWrite(ClaimHeader, LiveVolume(m), bs)
           && Slot(y.d, m.segId) == OpenEntry(m)
         case FinHeader =>
           && m.cap.recording && m.cap.start <= m.cap.next
           && m.meta == HeaderWrite(FinHeader, LiveVolume(m), bs)
         case FinToc =>
           && m.cap.recording && m.cap.start <= m.cap.next && FinalWrite(m, m.meta)
           && (!y.f.lag ==> Header0(y.d).nextDataBlock == m.cap.hwm)
         case FmtZero =>
           && FormatOk(m, y.d) && m.cursor < DATA_START && m.cap.cfg.bufBlocks > 0
           && w.block == m.cursor && w.blocks == ZeroBlocks(ZeroPiece(m), bs)
         case FmtHeader =>
           && FormatOk(m, y.d) && m.cursor == DATA_START
           && m.meta == HeaderWrite(FmtHeader, m.staged, bs)
         case DeleteWrite =>
           && TOC_START <= w.block < DATA_START <= |y.d| && |y.d[w.block]| >= ENTRY_BYTES
           && DeleteOk(m, w.block - TOC_START)
           && w.blocks == [MarkDeleted(y.d[w.block])]
           && Classify(Slot(y.d, w.block - TOC_START)) in {Open, Finalized}
  }

  ghost predicate SysInv(y: Sys) {
    OnDisk(y) && InMemory(y.m) && InRecording(y) && InFlightMeta(y)
  }

  predicate NoHazard(f: Flags) {
    !f.capture && !f.overlap && !f.lagCrash
  }

  /** On a crash-safe disk every finalized or deleted segment has its blocks to
      itself. */
  lemma CrashSafeApart(d: Disk, c: Config)
    requires CrashSafe(d, c)
    ensures ClosedApart(d, Header(d).nextDataBlock)
  {
    hide Slot;
    hide DecodeVolume;
    forall j: nat, b: nat | ClosedAt(d, j) && Covers(Slot(d, j), b)
      ensures SealedAt(d, j) && DATA_START <= b < Header(d).nextDataBlock
    {
      assert !SealedAt(d, j) ==> Plain(Slot(d, j));
    }
  }

  // ---- codec facts, so that the codecs can stay folded ----

  lemma EntryReadsBack(d: Disk, slot: nat, e: Entry, bs: nat)
    requires ENTRY_BYTES <= bs && FitsEntry(e)
    requires TOC_START + slot < |d| && d[TOC_START + slot] == EntryBlock(e, bs)
    ensures Slot(d, slot) == e
  {
    hide EncodeEntry;
    hide DecodeEntry;
    EntryRoundTrip(e, Zeros(bs - ENTRY_BYTES));
  }

  lemma HeaderReadsBack(d: Disk, v: Volume, bs: nat)
    requires VOLUME_BYTES <= bs && FitsVolume(v)
    requires |d| > 0 && d[0] == VolumeBlock(v, bs)
    ensures Header(d) == v
  {
    hide EncodeVolume;
    hide DecodeVolume;
    VolumeRoundTrip(v, Zeros(bs - VOLUME_BYTES));
  }

  lemma VolumeFits(bs: nat, seg: nat, hwm: nat, sec: nat)
    requires bs < 0x1_0000_0000 && seg <= TOC_SLOT_COUNT
    requires hwm < DEVICE_BYTES_MAX && sec < DEVICE_BYTES_MAX
    ensures FitsVolume(VolumeFor(bs, seg, hwm, sec))
  {
    PowersOf256();
  }

  lemma EntryFits(e: Entry)
    requires e.magic == SEGMENT_MAGIC && e.segmentId < 0x1_0000_0000 && e.state <= 3
    requires e.startBlock < DEVICE_BYTES_MAX && e.blockCount < DEVICE_BYTES_MAX
    requires e.writeChunkBytes < 0x1_0000_0000
    requires e.recordCount < DEVICE_BYTES_MAX && e.droppedCount < DEVICE_BYTES_MAX
    requires e.firstTsc < DEVICE_BYTES_MAX && e.lastTsc < DEVICE_BYTES_MAX && e.tscHz < DEVICE_BYTES_MAX
    requires e.startSec < DEVICE_BYTES_MAX && e.startNsec < 0x1_0000_0000
    requires e.endSec < DEVICE_BYTES_MAX && e.endNsec < 0x1_0000_0000
    ensures FitsEntry(e)
  {
    PowersOf256();
    hide Pow256;
    var ws, vs := ENTRY_WIDTHS, EntryFields(e);
    assert ws == [8, 4, 4, 8, 8, 4, 4, 8, 8, 8, 8, 8, 8, 4, 4, 8, 4, 4];
  }

  lemma BlocksFit(c: Config)
    requires ConfigOk(c)
    ensures c.numBlocks < DEVICE_BYTES_MAX
  {
    BelowDevice(1, c.bs, c.numBlocks);
    assert c.bs * c.numBlocks == c.numBlocks * c.bs;
  }

  /** Overwriting the state field changes the decoded state and nothing else. */
  lemma MarkDeletedDecodes(b: Block)
    requires |b| >= ENTRY_BYTES
    ensures DecodeEntry(MarkDeleted(b)) == DecodeEntry(b).(state := STATE_DELETED)
  {
    hide MarkDeleted;
    hide Unpack;
    StructWidths();
    MarkDeletedParts(b);
    var rest := ENTRY_WIDTHS[3..];
    assert ENTRY_WIDTHS == [8] + ([4] + ([4] + rest));
    UnpackState(rest, b, MarkDeleted(b));
  }

  lemma MarkDeletedParts(b: Block)
    requires |b| >= ENTRY_BYTES
    ensures var r := MarkDeleted(b);
            r[..12] == b[..12] && r[12..16] == LE(STATE_DELETED, 4) && r[16..] == b[16..]
  {
  }

  lemma UnpackStep(ws: seq<nat>, b: seq<byte>, w: nat, rest: seq<nat>)
    requires ws == [w] + rest && Width(ws) <= |b|
    ensures w <= |b| && Width(rest) <= |b| - w
    ensures Unpack(ws, b) == [FromLE(b[..w])] + Unpack(rest, b[w..])
  {
    assert ws[1..] == rest;
  }

  lemma StateSlices(b: Block, r: Block)
    requires |b| == |r| >= 16
    requires r[..12] == b[..12] && r[12..16] == LE(STATE_DELETED, 4) && r[16..] == b[16..]
    ensures r[..8] == b[..8] && r[8..][..4] == b[8..][..4]
    ensures r[8..][4..][..4] == LE(STATE_DELETED, 4) && r[8..][4..][4..] == b[8..][4..][4..]
  {
    assert r[..8] == r[..12][..8];
    assert r[8..][..4] == r[..12][8..];
    assert r[8..][4..] == r[12..] && r[12..][..4] == r[12..16] && r[12..][4..] == r[16..];
    assert b[..8] == b[..12][..8];
    assert b[8..][..4] == b[..12][8..];
    assert b[8..][4..] == b[12..] && b[12..][4..] == b[16..];
  }

  lemma UnpackThree(rest: seq<nat>, b: seq<byte>)
    requires Width([8] + ([4] + ([4] + rest))) <= |b|
    ensures 16 <= |b| && Width(rest) <= |b| - 16
    ensures Unpack([8] + ([4] + ([4] + rest)), b)
         == [FromLE(b[..8])] + ([FromLE(b[8..][..4])] + ([FromLE(b[8..][4..][..4])]
            + Unpack(rest, b[8..][4..][4..])))
  {
    hide FromLE;
    hide Unpack;
    UnpackStep([8] + ([4] + ([4] + rest)), b, 8, [4] + ([4] + rest));
    UnpackStep([4] + ([4] + rest), b[8..], 4, [4] + rest);
    UnpackStep([4] + rest, b[8..][4..], 4, rest);
  }

  /** Two blocks that differ in the state field only, field by field. */
  lemma UnpackState(rest: seq<nat>, b: Block, r: Block)
    requires Width([8] + ([4] + ([4] + rest))) <= |b| == |r| && |b| >= 16
    requires r[..12] == b[..12] && r[12..16] == LE(STATE_DELETED, 4) && r[16..] == b[16..]
    ensures Unpack([8] + ([4] + ([4] + rest)), r)
         == Unpack([8] + ([4] + ([4] + rest)), b)[2 := STATE_DELETED]
  {
    hide FromLE;
    hide LE;
    hide Unpack;
    hide Width;
    UnpackThree(rest, b);
    UnpackThree(rest, r);
    StateSlices(b, r);
    PowersOf256();
    LERoundTrip(STATE_DELETED, 4);
    ThirdReplaced(FromLE(b[..8]), FromLE(b[8..][..4]), FromLE(b[8..][4..][..4]), STATE_DELETED,
                  Unpack(rest, b[8..][4..][4..]));
  }

  lemma ThirdReplaced(x: nat, y: nat, z: nat, z': nat, rest: seq<nat>)
    ensures [x] + ([y] + ([z'] + rest)) == ([x] + ([y] + ([z] + rest)))[2 := z']
  {
  }
}
