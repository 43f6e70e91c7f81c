/** The bytes a recording puts on the device. A write may change its target
    range at any moment while it is outstanding; when it completes successfully
    the range holds what its buffer holds then. */
module SegmentData {
  import opened Record
  import opened Device
  import opened Readers
  import opened Capture
  import opened CaptureInvariant
  import opened CaptureRuns
  import opened CaptureDisk

  ghost predicate ChunkAt(s: Cap, d: Disk, c: nat)
    requires c < |s.h.placed|
  {
    ChunkOnDisk(d, s.cfg.bs, TargetOf(s, c), s.cfg.bufSize, s.h.placed[c])
  }

  /** Every chunk whose write completed is on the device. */
  ghost predicate DataOk(s: Cap, d: Disk) {
    && Formed(d, s.cfg.bs) && |d| == s.cfg.numBlocks
    && forall c :: c in s.h.done ==> c < |s.h.placed| && ChunkAt(s, d, c)
  }

  /** The blocks a write leaves when it completes: its buffer at that moment. */
  function Landed(s: Cap, io: Io): (blocks: seq<Block>)
    requires io.buf < |s.bufs| && s.cfg.bufSize <= |s.bufs[io.buf].data|
    requires s.cfg.bufSize == s.cfg.bufBlocks * s.cfg.bs
    ensures |blocks| == s.cfg.bufBlocks && Formed(blocks, s.cfg.bs)
  {
    Split(s.bufs[io.buf].data[..s.cfg.bufSize], s.cfg.bs, s.cfg.bufBlocks)
  }

  lemma ChunkFrame(d: Disk, d': Disk, bs: nat, block: nat, size: nat, rs: seq<Record>)
    requires ChunkOnDisk(d, bs, block, size, rs) && |d'| == |d|
    requires forall b :: block <= b < block + BlocksOf(size, bs) && b < |d| ==> d'[b] == d[b]
    ensures ChunkOnDisk(d', bs, block, size, rs)
  {
    hide ChunkBytes;
    hide BlocksOf;
    ReadFrame(d, d', block, BlocksOf(size, bs));
  }

  lemma BlocksPerChunk(c: Config)
    requires ConfigOk(c)
    ensures BlocksOf(c.bufSize, c.bs) == c.bufBlocks && c.bufSize % c.bs == 0
  {
    WholeBlocks(c.bufBlocks, c.bs);
  }

  /** An outstanding write lies inside the device, and apart from every chunk
      other than its own. */
  lemma WriteInside(s: Cap, io: Io)
    requires Body(s) && io in s.out
    ensures io.target + s.cfg.bufBlocks <= s.cfg.numBlocks && s.start <= io.target
    ensures io.target + s.cfg.bufBlocks <= s.next
    ensures io.chunk < |s.h.placed| && io.buf < |s.bufs| && io.target == TargetOf(s, io.chunk)
  {
    hide BufsOk;
    hide ChunkBlock;
    IoChunkKnown(s, io);
    TargetBelowNext(s, io.chunk);
  }

  lemma ChunksApart(s: Cap, c: nat, c': nat)
    requires c != c'
    ensures TargetOf(s, c) + s.cfg.bufBlocks <= TargetOf(s, c')
         || TargetOf(s, c') + s.cfg.bufBlocks <= TargetOf(s, c)
  {
    hide ChunkBlock;
    if c < c' {
      ChunkOrder(s.start, c, c', s.cfg.bufBlocks);
    } else {
      ChunkOrder(s.start, c', c, s.cfg.bufBlocks);
    }
  }

  /** Whatever an outstanding write does to its range, the chunks already done
      stay as they are. */
  lemma ScribbleKeepsData(s: Cap, d: Disk, io: Io, blocks: seq<Block>)
    requires Body(s) && CoverOk(s) && DataOk(s, d) && io in s.out
    requires |blocks| == s.cfg.bufBlocks && Formed(blocks, s.cfg.bs)
    ensures io.target + |blocks| <= |d|
    ensures DataOk(s, Write(d, io.target, blocks))
  {
    WriteInside(s, io);
    IoChunkKnown(s, io);
    BlocksPerChunk(s.cfg) by { assert BufsOk(s); }
    WriteFormed(d, io.target, blocks, s.cfg.bs);
    hide Body;
    hide ChunkOnDisk;
    hide ChunkBlock;
    hide BlocksOf;
    var d' := Write(d, io.target, blocks);
    hide Write;
    forall c | c in s.h.done ensures c < |s.h.placed| && ChunkAt(s, d', c) {
      assert ChunkAt(s, d, c);
      assert c != io.chunk by { assert Outstanding(s, io.chunk); }
      ChunksApart(s, c, io.chunk);
      ChunkFrame(d, d', s.cfg.bs, TargetOf(s, c), s.cfg.bufSize, s.h.placed[c]);
    }
  }

  /** A successful completion leaves exactly the zero-padded chunk fixed at
      hand-off, at the target fixed at hand-off. */
  lemma LandedIsChunk(s: Cap, d: Disk, io: Io)
    requires Body(s) && |d| == s.cfg.numBlocks && io in s.out
    ensures io.buf < |s.bufs| && s.cfg.bufSize <= |s.bufs[io.buf].data|
    ensures s.cfg.bufSize == s.cfg.bufBlocks * s.cfg.bs
    ensures io.target + s.cfg.bufBlocks <= |d| && io.chunk < |s.h.placed|
    ensures ChunkAt(s, Write(d, io.target, Landed(s, io)), io.chunk)
  {
    WriteInside(s, io);
    IoHolds(s, io);
    assert ConfigOk(s.cfg) && Shape(s);
    assert ChunkFits(s.cfg, s.h.placed[io.chunk]);
    BlocksPerChunk(s.cfg);
    hide Body;
    hide ConfigOk;
    hide EncodeAll;
    hide ChunkBlock;
    hide BlocksOf;
    hide Read;
    hide Write;
    hide Split;
    ReadBack(d, io.target, s.bufs[io.buf].data[..s.cfg.bufSize], s.cfg.bs, s.cfg.bufBlocks);
  }

  lemma IoHolds(s: Cap, io: Io)
    requires OutOk(s) && io in s.out
    ensures Holds(s, io.buf, io.chunk)
  {
    assert IoOk(s, io);
  }

  lemma SuccessFacts(s: Cap, io: Io, rcs: seq<Rc>)
    requires Shape(s) && io in s.out && io.buf < MAX_WRITE_BUFFERS
    ensures var r := WriteComplete(s, io, true, rcs);
            && r.h.placed == s.h.placed && r.h.done == s.h.done + {io.chunk}
            && r.cfg == s.cfg && r.start == s.start
  {
  }

  lemma CompleteData(s: Cap, d: Disk, io: Io, rcs: seq<Rc>)
    requires Inv(s) && CoverOk(s) && DataOk(s, d) && io in s.out && io.buf < MAX_WRITE_BUFFERS
    ensures s.cfg.bufSize <= |s.bufs[io.buf].data| && s.cfg.bufSize == s.cfg.bufBlocks * s.cfg.bs
    ensures io.target + s.cfg.bufBlocks <= |d|
    ensures DataOk(WriteComplete(s, io, true, rcs), Write(d, io.target, Landed(s, io)))
  {
    hide Body;
    hide ChunkOnDisk;
    hide Landed;
    hide Write;
    hide WriteComplete;
    hide CoverOk;
    assert Shape(s) by { BodyShape(s); }
    LandedIsChunk(s, d, io);
    ScribbleKeepsData(s, d, io, Landed(s, io));
    SuccessFacts(s, io, rcs);
    var d' := Write(d, io.target, Landed(s, io));
    var r := WriteComplete(s, io, true, rcs);
    forall c | c in r.h.done ensures c < |r.h.placed| && ChunkAt(r, d', c) {
      if c in s.h.done {
        assert ChunkAt(s, d', c);
      }
    }
  }

  /** Every event but a successful completion leaves the done chunks alone. */
  lemma NextDone(s: Cap, e: Event)
    requires Shape(s) && Enabled(s, e) && !(e.Complete? && e.ok)
    ensures Next(s, e).h.done == s.h.done
  {
    hide CapturePoll;
    hide RetryFlush;
    hide NoteWriteFailure;
    hide StopRecording;
    match e {
      case Poll(tsc, burst) => PollCounts(s, tsc, burst);
      case _ =>
    }
  }

  lemma OtherEventData(s: Cap, d: Disk, e: Event)
    requires Inv(s) && DataOk(s, d) && Enabled(s, e) && !(e.Complete? && e.ok)
    ensures DataOk(Next(s, e), d)
  {
    assert Shape(s) by { BodyShape(s); }
    NextDone(s, e);
    NextGrows(s, e);
    hide Inv;
    hide Next;
    hide ChunkOnDisk;
    var r := Next(s, e);
    forall c | c in r.h.done ensures c < |r.h.placed| && ChunkAt(r, d, c) {
      assert ChunkAt(s, d, c) && r.h.placed[c] == s.h.placed[c];
    }
  }

  // ---- a stopped and drained segment reads back ----

  /** Nothing of the log was lost: every own chunk's write succeeded, and the
      final buffer was not dropped for lack of room. */
  ghost predicate Lossless(h: History) {
    h.tail == [] && forall c :: c in h.lost ==> c >= h.own
  }

  function OwnChunks(s: Cap): seq<seq<Record>>
    requires s.h.own <= |s.h.placed|
  {
    s.h.placed[..s.h.own]
  }

  lemma NothingOutstanding(s: Cap, c: nat)
    requires Inv(s) && s.stopping && s.pending == 0
    ensures s.out == multiset{} && s.waiter.None? && !Outstanding(s, c)
  {
    hide Body;
  }

  /** Stopped, drained and lossless: the own chunks are all on the device, at
      their places, and together they are the log. */
  lemma DrainedSegment(s: Cap, d: Disk)
    requires Inv(s) && CoverOk(s) && DataOk(s, d)
    requires s.stopping && s.pending == 0 && Lossless(s.h)
    ensures s.h.own <= |s.h.placed|
    ensures ChunksOnDisk(d, s.cfg.bs, s.start, s.cfg.bufSize, OwnChunks(s))
    ensures s.h.log == Flat(OwnChunks(s))
  {
    assert LogOk(s) && PlacedOk(s) && BufsOk(s);
    BlocksPerChunk(s.cfg);
    hide BufsOk;
    hide OutOk;
    hide ChunkOnDisk;
    hide BlocksOf;
    hide ChunkBlock;
    var placed := OwnChunks(s);
    forall i | 0 <= i < |placed|
      ensures ChunkOnDisk(d, s.cfg.bs, ChunkBlock(s.start, i, BlocksOf(s.cfg.bufSize, s.cfg.bs)),
                          s.cfg.bufSize, placed[i])
    {
      NothingOutstanding(s, i);
      assert i in s.h.done;
      assert ChunkAt(s, d, i);
    }
  }
}
