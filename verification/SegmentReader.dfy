/** The readers' loops over io_buf (main.c and chrono_admin.c), proved against
    the functions of Readers. */
module SegmentReader {
  import opened Bytes
  import opened Record
  import opened Device
  import opened Readers

  /** The reader's part of the context: io_buf and the cursor of a walk. */
  class Reader {
    const ioBuf: array<byte>
    var curBlock: nat      // dump_cur_block
    var chunkBytes: nat    // dump_write_chunk_bytes
    var chunkBlocks: nat   // dump_write_chunk_blocks
    var recordsSeen: nat   // dump_records_seen
    var targetCount: nat   // dump_target_count
    var collected: seq<Record> // what has been printed, or put into the page

    constructor (capacity: nat)
      ensures fresh(ioBuf) && ioBuf.Length == capacity
    {
      ioBuf := new byte[capacity](_ => 0);
      curBlock, chunkBytes, chunkBlocks, recordsSeen, targetCount, collected := 0, 0, 0, 0, 0, [];
    }

    /** The chunk in io_buf. */
    ghost function Chunk(): seq<byte>
      requires chunkBytes <= ioBuf.Length
      reads this, ioBuf
    {
      ioBuf[..chunkBytes]
    }

    /** The next chunk, if it can be read at all, fits io_buf. */
    ghost predicate NextFits(d: Disk, bs: nat)
      reads this
    {
      ReadChunk(d, bs, curBlock, chunkBytes).Some? ==> chunkBytes <= ioBuf.Length
    }

    /** spdk_bdev_read of one chunk into io_buf; false is a read error. */
    method FillChunk(d: Disk, bs: nat) returns (ok: bool)
      requires Formed(d, bs) && NextFits(d, bs)
      modifies ioBuf
      ensures ok <==> ReadChunk(d, bs, curBlock, chunkBytes).Some?
      ensures ok ==> chunkBytes <= ioBuf.Length && Chunk() == ReadChunk(d, bs, curBlock, chunkBytes).value
    {
      match ReadChunk(d, bs, curBlock, chunkBytes) {
        case None => return false;
        case Some(b) =>
          ChunkLength(d, bs, curBlock, chunkBytes);
          forall k | 0 <= k < |b| {
            ioBuf[k] := b[k];
          }
          ok := true;
      }
    }

    // ---- command-line dump ----

    /** The loop of dump_chunk_read_complete. */
    method DumpChunk() returns (off: nat, overrun: bool)
      requires chunkBytes <= ioBuf.Length && recordsSeen <= targetCount
      modifies this`recordsSeen, this`collected
      ensures var w := WalkChunk(Chunk(), 0, targetCount - old(recordsSeen));
              && off == w.off && overrun == w.overrun
              && collected == old(collected) + w.recs
              && recordsSeen == old(recordsSeen) + |w.recs|
    {
      hide HeaderAt;
      hide WalkChunk;
      ghost var b := Chunk();
      ghost var whole := WalkChunk(b, 0, targetCount - recordsSeen);
      ghost var got: seq<Record> := [];
      off := 0;
      while off + RECORD_HDR <= chunkBytes && recordsSeen < targetCount
        invariant off <= chunkBytes && recordsSeen <= targetCount && b == Chunk()
        invariant recordsSeen == old(recordsSeen) + |got| && collected == old(collected) + got
        invariant whole == Walked(got, WalkChunk(b, off, targetCount - recordsSeen))
        decreases targetCount - recordsSeen
      {
        WalkUnfold(b, off, targetCount - recordsSeen);
        var hdr := HeaderAt(ioBuf[..chunkBytes], off);
        if hdr.magic != RECORD_MAGIC {
          break;
        }
        if off + RECORD_HDR + hdr.len > chunkBytes {
          return off, true;
        }
        var next := off + RECORD_HDR + hdr.len;
        var r := Record(hdr.seqNo, hdr.tsc, ioBuf[..chunkBytes][off + RECORD_HDR..next]);
        WalkedTwice(got, [r], WalkChunk(b, next, targetCount - recordsSeen - 1));
        collected := collected + [r];
        got := got + [r];
        off := next;
        recordsSeen := recordsSeen + 1;
      }
      WalkUnfold(b, off, targetCount - recordsSeen);
      overrun := false;
    }

    /** dump_read_next_chunk and its completion, until the dump ends. */
    method DumpChunks(d: Disk, bs: nat) returns (ok: bool)
      requires Formed(d, bs) && NextFits(d, bs) && chunkBlocks == BlocksOf(chunkBytes, bs)
      requires recordsSeen < targetCount
      modifies this`recordsSeen, this`collected, this`curBlock, ioBuf
      ensures var r := DumpFrom(d, bs, old(curBlock), chunkBytes, targetCount - old(recordsSeen));
              ok == r.ok && collected == old(collected) + r.recs
    {
      hide ReadChunk;
      hide BlocksOf;
      hide WalkChunk;
      hide DumpFrom;
      ghost var whole := DumpFrom(d, bs, curBlock, chunkBytes, targetCount - recordsSeen);
      ghost var got: seq<Record> := [];
      while true
        invariant recordsSeen < targetCount && collected == old(collected) + got && NextFits(d, bs)
        invariant whole == Dumping(got, DumpFrom(d, bs, curBlock, chunkBytes, targetCount - recordsSeen))
        decreases targetCount - recordsSeen
      {
        DumpUnfold(d, bs, curBlock, chunkBytes, targetCount - recordsSeen);
        var filled := FillChunk(d, bs);
        if !filled {
          return false;
        }
        ghost var w := WalkChunk(Chunk(), 0, targetCount - recordsSeen);
        var off, overrun := DumpChunk();
        assert collected == old(collected) + (got + w.recs);
        if overrun {
          return false;
        }
        if recordsSeen >= targetCount {
          return true;
        }
        if off == 0 {
          return false;
        }
        curBlock := curBlock + chunkBlocks;
        DumpingTwice(got, w.recs, DumpFrom(d, bs, curBlock, chunkBytes, targetCount - recordsSeen));
        got := got + w.recs;
      }
    }

    /** dump_segment_entry_read_complete, and the dump that follows. */
    method DumpSegment(d: Disk, bs: nat, id: nat, bufSize: nat) returns (r: DumpOutcome)
      requires Formed(d, bs)
      requires ReadsFirst(d, bs, id, bufSize) && EntryAt(d, id).recordCount > 0 ==>
                 ChunkSizeOf(EntryAt(d, id), bufSize) <= ioBuf.Length
      modifies this, ioBuf
      ensures r == Readers.DumpSegment(d, bs, id, bufSize)
    {
      hide DecodeEntry;
      hide DumpFrom;
      if !Readable(d, id) {
        return TocReadFailed;
      }
      var e := EntryAt(d, id);
      match Classify(e) {
        case NotFound => return NoSuchSegment;
        case Open => return NeverFinalized;
        case _ =>
          targetCount := e.recordCount;
          chunkBytes := ChunkSizeOf(e, bufSize);
          chunkBlocks := BlocksOf(chunkBytes, bs);
          recordsSeen := 0;
          collected := [];
          if targetCount == 0 {
            return Dumped(Dump([], true));
          }
          curBlock := e.startBlock;
          var ok := DumpChunks(d, bs);
          r := Dumped(Dump(collected, ok));
      }
    }

    // ---- paginated web reader ----

    /** The loop of admin_records_chunk_read_complete. */
    method PageOneChunk(offset: nat, limit: nat) returns (off: nat, overrun: bool)
      requires chunkBytes <= ioBuf.Length
      modifies this`recordsSeen, this`collected
      ensures var w := PageChunk(Chunk(), 0, old(recordsSeen), targetCount, |old(collected)|, offset, limit);
              && off == w.off && overrun == w.overrun
              && collected == old(collected) + w.recs && recordsSeen == w.seen
    {
      hide HeaderAt;
      hide PageChunk;
      ghost var b := Chunk();
      ghost var whole := PageChunk(b, 0, recordsSeen, targetCount, |collected|, offset, limit);
      ghost var got: seq<Record> := [];
      off := 0;
      while off + RECORD_HDR <= chunkBytes && recordsSeen < targetCount && |collected| < limit
        invariant off <= chunkBytes && collected == old(collected) + got && b == Chunk()
        invariant whole == Paged(got, PageChunk(b, off, recordsSeen, targetCount, |collected|, offset, limit))
        decreases chunkBytes - off
      {
        PageUnfold(b, off, recordsSeen, targetCount, |collected|, offset, limit);
        var hdr := HeaderAt(ioBuf[..chunkBytes], off);
        if hdr.magic != RECORD_MAGIC {
          break;
        }
        if off + RECORD_HDR + hdr.len > chunkBytes {
          return off, true;
        }
        var next := off + RECORD_HDR + hdr.len;
        if recordsSeen >= offset {
          var r := Record(hdr.seqNo, hdr.tsc, ioBuf[..chunkBytes][off + RECORD_HDR..next]);
          PagedTwice(got, [r], PageChunk(b, next, recordsSeen + 1, targetCount, |collected| + 1, offset, limit));
          collected := collected + [r];
          got := got + [r];
        }
        off := next;
        recordsSeen := recordsSeen + 1;
      }
      PageUnfold(b, off, recordsSeen, targetCount, |collected|, offset, limit);
      overrun := false;
    }

    /** admin_records_read_next_chunk and its completion, until the page is done. */
    method PageChunks(d: Disk, bs: nat, offset: nat, limit: nat) returns (ok: bool)
      requires Formed(d, bs) && NextFits(d, bs) && chunkBlocks == BlocksOf(chunkBytes, bs)
      modifies this`recordsSeen, this`collected, this`curBlock, ioBuf
      ensures var s := PageFrom(d, bs, old(curBlock), chunkBytes, old(recordsSeen), targetCount,
                                |old(collected)|, offset, limit);
              && ok == s.Scanned?
              && (ok ==> collected == old(collected) + s.recs && recordsSeen == s.seen)
    {
      hide ReadChunk;
      hide BlocksOf;
      hide PageChunk;
      ghost var whole := PageFrom(d, bs, curBlock, chunkBytes, recordsSeen, targetCount, |collected|, offset, limit);
      ghost var got: seq<Record> := [];
      while recordsSeen < targetCount && |collected| < limit
        invariant collected == old(collected) + got && NextFits(d, bs)
        invariant whole == After(got, PageFrom(d, bs, curBlock, chunkBytes, recordsSeen, targetCount,
                                               |collected|, offset, limit))
        decreases if recordsSeen < targetCount then targetCount - recordsSeen else 0
      {
        var filled := FillChunk(d, bs);
        if !filled {
          return false;
        }
        ghost var seen, n := recordsSeen, |collected|;
        ghost var w := PageChunk(Chunk(), 0, seen, targetCount, n, offset, limit);
        var off, overrun := PageOneChunk(offset, limit);
        assert collected == old(collected) + (got + w.recs);
        if overrun {
          return false;
        }
        if off == 0 && recordsSeen < targetCount && |collected| < limit {
          return false;
        }
        curBlock := curBlock + chunkBlocks;
        AfterTwice(got, w.recs, PageFrom(d, bs, curBlock, chunkBytes, recordsSeen, targetCount, |collected|, offset, limit));
        got := got + w.recs;
      }
      ok := true;
    }

    /** admin_records_entry_read_complete, and the page that follows. */
    method PageSegment(d: Disk, bs: nat, id: nat, bufSize: nat, offset: nat, limit: nat) returns (p: PageOutcome)
      requires Formed(d, bs)
      requires ReadsFirst(d, bs, id, bufSize) && offset < EntryAt(d, id).recordCount ==>
                 ChunkSizeOf(EntryAt(d, id), bufSize) <= ioBuf.Length
      modifies this, ioBuf
      ensures p == Readers.PageSegment(d, bs, id, bufSize, offset, limit)
    {
      hide DecodeEntry;
      hide PageFrom;
      if !Readable(d, id) {
        return PageReadFailed;
      }
      var e := EntryAt(d, id);
      match Classify(e) {
        case NotFound => return PageNoEntry;
        case Open => return PageNotYet;
        case _ =>
          var k := if limit == 0 || limit > RECORDS_LIMIT_MAX then RECORDS_LIMIT_DEFAULT else limit;
          targetCount := e.recordCount;
          curBlock := e.startBlock;
          recordsSeen := 0;
          collected := [];
          chunkBytes := ChunkSizeOf(e, bufSize);
          chunkBlocks := BlocksOf(chunkBytes, bs);
          if targetCount == 0 || offset >= targetCount {
            return Page([], targetCount, false);
          }
          var ok := PageChunks(d, bs, offset, k);
          if !ok {
            return PageReadFailed;
          }
          p := Page(collected, targetCount, recordsSeen < targetCount);
      }
    }
  }

  /** The segment has an entry to read by, and its first chunk can be read. */
  predicate ReadsFirst(d: Disk, bs: nat, id: nat, bufSize: nat) {
    && Readable(d, id) && Classify(EntryAt(d, id)) in {Finalized, Deleted}
    && ReadChunk(d, bs, EntryAt(d, id).startBlock, ChunkSizeOf(EntryAt(d, id), bufSize)).Some?
  }

  lemma ChunkLength(d: Disk, bs: nat, block: nat, bytes: nat)
    requires Formed(d, bs) && ReadChunk(d, bs, block, bytes).Some?
    ensures |ReadChunk(d, bs, block, bytes).value| == bytes
  {
    var n := BlocksOf(bytes, bs);
    assert Formed(d[block..block + n], bs);
    JoinLength(d[block..block + n], bs);
    assert bytes == bytes / bs * bs + bytes % bs;
  }

  // ---- what has been found, then the rest of the walk ----

  function Walked(got: seq<Record>, w: Walk): Walk {
    w.(recs := got + w.recs)
  }

  function Paged(got: seq<Record>, w: PageWalk): PageWalk {
    w.(recs := got + w.recs)
  }

  function Dumping(got: seq<Record>, r: Dump): Dump {
    r.(recs := got + r.recs)
  }

  lemma WalkedTwice(a: seq<Record>, b: seq<Record>, w: Walk)
    ensures Walked(a, Walked(b, w)) == Walked(a + b, w)
  {
    assert a + (b + w.recs) == (a + b) + w.recs;
  }

  lemma PagedTwice(a: seq<Record>, b: seq<Record>, w: PageWalk)
    ensures Paged(a, Paged(b, w)) == Paged(a + b, w)
  {
    assert a + (b + w.recs) == (a + b) + w.recs;
  }

  lemma DumpingTwice(a: seq<Record>, b: seq<Record>, r: Dump)
    ensures Dumping(a, Dumping(b, r)) == Dumping(a + b, r)
  {
    assert a + (b + r.recs) == (a + b) + r.recs;
  }

  lemma WalkUnfold(b: seq<byte>, off: nat, want: nat)
    requires off <= |b|
    ensures WalkChunk(b, off, want)
         == if off + RECORD_HDR > |b| || want == 0 || HeaderAt(b, off).magic != RECORD_MAGIC then Walk([], off, false)
            else
              var next := off + RECORD_HDR + HeaderAt(b, off).len;
              if next > |b| then Walk([], off, true)
              else Walked([Record(HeaderAt(b, off).seqNo, HeaderAt(b, off).tsc, b[off + RECORD_HDR..next])],
                          WalkChunk(b, next, want - 1))
  {
    hide HeaderAt;
  }

  lemma PageUnfold(b: seq<byte>, off: nat, seen: nat, target: nat, got: nat, offset: nat, limit: nat)
    requires off <= |b|
    ensures PageChunk(b, off, seen, target, got, offset, limit)
         == if off + RECORD_HDR > |b| || seen >= target || got >= limit || HeaderAt(b, off).magic != RECORD_MAGIC
            then PageWalk([], off, seen, false)
            else
              var next := off + RECORD_HDR + HeaderAt(b, off).len;
              if next > |b| then PageWalk([], off, seen, true)
              else if seen >= offset then
                Paged([Record(HeaderAt(b, off).seqNo, HeaderAt(b, off).tsc, b[off + RECORD_HDR..next])],
                      PageChunk(b, next, seen + 1, target, got + 1, offset, limit))
              else PageChunk(b, next, seen + 1, target, got, offset, limit)
  {
    hide HeaderAt;
  }

  lemma DumpUnfold(d: Disk, bs: nat, block: nat, chunkBytes: nat, want: nat)
    requires want > 0
    ensures DumpFrom(d, bs, block, chunkBytes, want)
         == match ReadChunk(d, bs, block, chunkBytes)
            case None => Dump([], false)
            case Some(b) =>
              var w := WalkChunk(b, 0, want);
              if w.overrun || |w.recs| >= want || w.off == 0 then Dump(w.recs, !w.overrun && |w.recs| >= want)
              else Dumping(w.recs, DumpFrom(d, bs, block + BlocksOf(chunkBytes, bs), chunkBytes, want - |w.recs|))
  {
    hide ReadChunk;
    hide WalkChunk;
    hide BlocksOf;
  }

  /** A page scan after `got` have been collected. */
  function After(got: seq<Record>, s: PageScan): PageScan {
    match s
    case ScanFailed => ScanFailed
    case Scanned(rs, seen) => Scanned(got + rs, seen)
  }

  lemma AfterTwice(a: seq<Record>, b: seq<Record>, s: PageScan)
    ensures After(a, After(b, s)) == After(a + b, s)
  {
    if s.Scanned? {
      assert a + (b + s.recs) == (a + b) + s.recs;
    }
  }
}
