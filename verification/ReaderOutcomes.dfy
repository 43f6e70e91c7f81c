/** What the two readers make of any disk at all: which outcome a slot has, what the
    walk of a chunk finds, where a dump ends, and that a page fails exactly where
    the dump of the records it needs does. */
module ReaderOutcomes {
  import opened Bytes
  import opened Record
  import opened Device
  import opened Readers

  // ---- the outcome of a request ----

  /** Every slot has its outcome. A stored chunk size of 0 means the reading
      process's own. */
  lemma DumpOutcomes(d: Disk, bs: nat, id: nat, bufSize: nat)
    ensures var r := DumpSegment(d, bs, id, bufSize);
            && (r == TocReadFailed <==> 1 + id >= |d| || |d[1 + id]| < 112)
            && (r != TocReadFailed ==>
                  var e := DecodeEntry(d[1 + id]);
                  var claimed := e.magic == SEGMENT_MAGIC && e.state != 0;
                  var size := if e.writeChunkBytes == 0 then bufSize else e.writeChunkBytes;
                  && (r == NoSuchSegment <==> !claimed)
                  && (r == NeverFinalized <==> claimed && e.state != 2 && e.state != 3)
                  && (claimed && (e.state == 2 || e.state == 3) ==>
                        r == Dumped(if e.recordCount == 0 then Dump([], true)
                                    else DumpFrom(d, bs, e.startBlock, size, e.recordCount))))
  {
    hide DecodeEntry;
    hide DumpFrom;
  }

  /** The same for a page: -ENOENT, -EAGAIN, an empty last page past the end, and
      otherwise a read that may fail. */
  lemma PageOutcomes(d: Disk, bs: nat, id: nat, bufSize: nat, offset: nat, limit: nat)
    ensures var r := PageSegment(d, bs, id, bufSize, offset, limit);
            var readable := 1 + id < |d| && |d[1 + id]| >= 112;
            && (!readable ==> r == PageReadFailed)
            && (readable ==>
                  var e := DecodeEntry(d[1 + id]);
                  var claimed := e.magic == SEGMENT_MAGIC && e.state != 0;
                  && (r == PageNoEntry <==> !claimed)
                  && (r == PageNotYet <==> claimed && e.state != 2 && e.state != 3)
                  && (claimed && (e.state == 2 || e.state == 3) && offset >= e.recordCount ==>
                        r == Page([], e.recordCount, false)))
  {
    hide DecodeEntry;
    hide PageFrom;
  }

  // ---- one chunk ----

  /** `rs` lies in the bytes from `off` to `end`, header and payload after header and
      payload. */
  ghost predicate LiesAt(b: seq<byte>, off: nat, rs: seq<Record>, end: nat)
    decreases |rs|
  {
    if rs == [] then end == off
    else
      && off + 32 + |rs[0].payload| <= |b|
      && HeaderAt(b, off) == RawHeader(RECORD_MAGIC, rs[0].seqNo, rs[0].tsc, |rs[0].payload|)
      && b[off + 32..off + 32 + |rs[0].payload|] == rs[0].payload
      && LiesAt(b, off + 32 + |rs[0].payload|, rs[1..], end)
  }

  /** There is no whole record at `off`. */
  ghost predicate NoRecordAt(b: seq<byte>, off: nat) {
    || off + 32 > |b|
    || HeaderAt(b, off).magic != RECORD_MAGIC
    || off + 32 + HeaderAt(b, off).len > |b|
  }

  /** The header at `off` is a record's, but its payload leaves the chunk. */
  ghost predicate OverrunAt(b: seq<byte>, off: nat) {
    && off + 32 <= |b| && HeaderAt(b, off).magic == RECORD_MAGIC
    && off + 32 + HeaderAt(b, off).len > |b|
  }

  /** On any bytes the walk finds exactly the records that lie there one after the
      other, up to the number wanted or the first place without a whole one, and
      reports an overrun exactly if a record's header there says that it leaves the
      chunk. */
  lemma {:induction false} WalkFindsAll(b: seq<byte>, off: nat, want: nat)
    requires off <= |b|
    ensures var w := WalkChunk(b, off, want);
            && LiesAt(b, off, w.recs, w.off) && |w.recs| <= want
            && (|w.recs| < want ==> NoRecordAt(b, w.off))
            && (w.overrun <==> |w.recs| < want && OverrunAt(b, w.off))
    decreases |b| - off
  {
    hide HeaderAt;
    if off + 32 <= |b| && want > 0 {
      var next := off + 32 + HeaderAt(b, off).len;
      if HeaderAt(b, off).magic == RECORD_MAGIC && next <= |b| {
        WalkFindsAll(b, next, want - 1);
        var w := WalkChunk(b, off, want);
        assert w.recs[1..] == WalkChunk(b, next, want - 1).recs;
      }
    }
  }

  // ---- a chunk read ----

  /** A chunk can be read exactly if it is whole blocks inside the device, and then
      it is those blocks one after the other. */
  lemma ChunkReadIff(d: Disk, bs: nat, block: nat, n: nat, bytes: nat)
    requires bs > 0 && Formed(d, bs)
    ensures bytes == n * bs && block + n <= |d| ==> ReadChunk(d, bs, block, bytes) == Some(Join(d[block..block + n]))
    ensures ReadChunk(d, bs, block, bytes).Some? ==>
              bytes % bs == 0 && block + bytes / bs <= |d| && |ReadChunk(d, bs, block, bytes).value| == bytes
  {
    WholeBlocks(n, bs);
    if ReadChunk(d, bs, block, bytes).Some? {
      var k := bytes / bs;
      assert Formed(d[block..block + k], bs);
      JoinLength(d[block..block + k], bs);
      assert bytes == k * bs;
    }
  }

  // ---- the whole dump ----

  /** The chunk a dump reads as its i-th, when each takes n blocks. */
  function ChunkOf(d: Disk, bs: nat, start: nat, size: nat, i: nat): Option<seq<byte>> {
    ReadChunk(d, bs, start + i * BlocksOf(size, bs), size)
  }

  /** A chunk that begins with the records `part`, up to `end`; if the dump goes on
      to the next chunk, they are all that it holds. */
  ghost predicate PartOf(c: Option<seq<byte>>, part: seq<Record>, end: nat, goesOn: bool) {
    && c.Some? && part != [] && LiesAt(c.value, 0, part, end)
    && (goesOn ==> NoRecordAt(c.value, end) && !OverrunAt(c.value, end))
  }

  /** `parts` are the records found in the first chunks, at least one in each, and
      in each but the last all that there are. */
  ghost predicate FoundIn(d: Disk, bs: nat, start: nat, size: nat, parts: seq<seq<Record>>, ends: seq<nat>) {
    && |ends| == |parts|
    && forall i :: 0 <= i < |parts| ==>
         PartOf(ChunkOf(d, bs, start, size, i), parts[i], ends[i], i + 1 < |parts|)
  }

  /** Why a dump stops short behind these parts: the last chunk it walked overruns,
      or the next one cannot be read or does not begin with a whole record. */
  ghost predicate StopsShort(d: Disk, bs: nat, start: nat, size: nat, parts: seq<seq<Record>>, ends: seq<nat>)
    requires |ends| == |parts|
  {
    var k := |parts|;
    var last := if k > 0 then ChunkOf(d, bs, start, size, k - 1) else None;
    var c := ChunkOf(d, bs, start, size, k);
    if last.Some? && OverrunAt(last.value, ends[k - 1]) then true
    else
      && (last.Some? ==> NoRecordAt(last.value, ends[k - 1]))
      && (c.None? || NoRecordAt(c.value, 0))
  }

  lemma ChunkOfNext(d: Disk, bs: nat, start: nat, size: nat, i: nat)
    ensures ChunkOf(d, bs, start, size, i + 1) == ChunkOf(d, bs, start + BlocksOf(size, bs), size, i)
    ensures ChunkOf(d, bs, start, size, 0) == ReadChunk(d, bs, start, size)
  {
    hide ReadChunk;
    var n := BlocksOf(size, bs);
    hide BlocksOf;
    assert (i + 1) * n == i * n + n;
  }

  lemma FoundFirst(d: Disk, bs: nat, start: nat, size: nat, part: seq<Record>, end: nat,
                   parts: seq<seq<Record>>, ends: seq<nat>)
    requires FoundIn(d, bs, start + BlocksOf(size, bs), size, parts, ends)
    requires PartOf(ReadChunk(d, bs, start, size), part, end, true)
    ensures FoundIn(d, bs, start, size, [part] + parts, [end] + ends)
    ensures StopsShort(d, bs, start + BlocksOf(size, bs), size, parts, ends)
        ==> StopsShort(d, bs, start, size, [part] + parts, [end] + ends)
  {
    hide ReadChunk;
    hide ChunkOf;
    hide LiesAt;
    hide NoRecordAt;
    hide OverrunAt;
    hide BlocksOf;
    ChunkOfNext(d, bs, start, size, 0);
    var ps, es := [part] + parts, [end] + ends;
    forall i | 0 <= i < |ps|
      ensures PartOf(ChunkOf(d, bs, start, size, i), ps[i], es[i], i + 1 < |ps|)
    {
      if i > 0 {
        ChunkOfNext(d, bs, start, size, i - 1);
        assert ps[i] == parts[i - 1] && es[i] == ends[i - 1];
        assert PartOf(ChunkOf(d, bs, start + BlocksOf(size, bs), size, i - 1), parts[i - 1], ends[i - 1], i < |parts|);
      }
    }
    if |parts| > 0 {
      assert es[|ps| - 1] == ends[|parts| - 1];
      ChunkOfNext(d, bs, start, size, |parts| - 1);
    }
    ChunkOfNext(d, bs, start, size, |parts|);
  }

  /** On any disk a dump prints the records that lie in consecutive chunks, chunk
      after chunk; it has all that it wants, or it stops at an overrun, at a chunk
      that cannot be read or at one that does not begin with a record. */
  lemma {:induction false} DumpFindsAll(d: Disk, bs: nat, start: nat, size: nat, want: nat)
    returns (parts: seq<seq<Record>>, ends: seq<nat>)
    requires want > 0
    ensures FoundIn(d, bs, start, size, parts, ends)
    ensures var r := DumpFrom(d, bs, start, size, want);
            && r.recs == Flat(parts) && |r.recs| <= want
            && (r.ok <==> |r.recs| == want)
            && (!r.ok ==> StopsShort(d, bs, start, size, parts, ends))
    decreases want
  {
    hide ReadChunk;
    hide WalkChunk;
    hide LiesAt;
    hide NoRecordAt;
    hide OverrunAt;
    ChunkOfNext(d, bs, start, size, 0);
    var c := ReadChunk(d, bs, start, size);
    if c.None? {
      parts, ends := [], [];
    } else {
      var w := WalkChunk(c.value, 0, want);
      WalkFindsAll(c.value, 0, want);
      DumpFromUnfold(d, bs, start, size, want);
      if w.recs == [] {
        parts, ends := [], [];
        NothingFound(c.value, w);
      } else if w.overrun || |w.recs| >= want {
        parts, ends := [w.recs], [w.off];
        OnePart(w.recs);
      } else {
        var ps, es := DumpFindsAll(d, bs, start + BlocksOf(size, bs), size, want - |w.recs|);
        parts, ends := [w.recs] + ps, [w.off] + es;
        hide BlocksOf;
        hide DumpFrom;
        FoundFirst(d, bs, start, size, w.recs, w.off, ps, es);
        assert parts[1..] == ps;
      }
    }
  }

  lemma OnePart(rs: seq<Record>)
    ensures Flat([rs]) == rs
  {
    assert [rs][1..] == [];
  }

  lemma NothingFound(b: seq<byte>, w: Walk)
    requires LiesAt(b, 0, w.recs, w.off) && w.recs == []
    ensures w.off == 0
  {
  }

  // ---- pages of any disk ----

  /** One record further, if there is one and it is wanted. */
  lemma ChunkOnce(b: seq<byte>, off: nat, seen: nat, target: nat, offset: nat, limit: nat)
    requires off + 32 <= |b| && limit > 0 && seen < Min(target, offset + limit)
    requires HeaderAt(b, off).magic == RECORD_MAGIC && off + 32 + HeaderAt(b, off).len <= |b|
    ensures var h := HeaderAt(b, off);
            var next := off + 32 + h.len;
            var r := Record(h.seqNo, h.tsc, b[off + 32..next]);
            var w := WalkChunk(b, next, Min(target, offset + limit) - seen - 1);
            var p := PageChunk(b, next, seen + 1, target, Collected(seen + 1, offset), offset, limit);
            && WalkChunk(b, off, Min(target, offset + limit) - seen) == Walk([r] + w.recs, w.off, w.overrun)
            && PageChunk(b, off, seen, target, Collected(seen, offset), offset, limit)
               == p.(recs := if seen >= offset then [r] + p.recs else p.recs)
  {
    hide HeaderAt;
  }

  lemma {:induction false} PageChunkIsWalk(b: seq<byte>, off: nat, seen: nat, target: nat, offset: nat, limit: nat)
    requires off <= |b| && limit > 0 && seen <= Min(target, offset + limit)
    ensures var w := WalkChunk(b, off, Min(target, offset + limit) - seen);
            PageChunk(b, off, seen, target, Collected(seen, offset), offset, limit)
            == PageWalk(Kept(w.recs, seen, offset, |w.recs|), w.off, seen + |w.recs|, w.overrun)
    decreases |b| - off
  {
    hide Kept;
    hide HeaderAt;
    hide WalkChunk;
    hide PageChunk;
    if seen == Min(target, offset + limit) || NoRecordAt(b, off) {
      ChunkEnds(b, off, seen, target, offset, limit);
    } else {
      var next := off + 32 + HeaderAt(b, off).len;
      ChunkOnce(b, off, seen, target, offset, limit);
      PageChunkIsWalk(b, next, seen + 1, target, offset, limit);
      var w := WalkChunk(b, off, Min(target, offset + limit) - seen);
      assert w.recs[1..] == WalkChunk(b, next, Min(target, offset + limit) - seen - 1).recs;
      KeptStep(w.recs, seen, offset, |w.recs|);
    }
  }

  /** No record, or no more wanted. */
  lemma ChunkEnds(b: seq<byte>, off: nat, seen: nat, target: nat, offset: nat, limit: nat)
    requires off <= |b| && limit > 0 && seen <= Min(target, offset + limit)
    requires seen == Min(target, offset + limit) || NoRecordAt(b, off)
    ensures var w := WalkChunk(b, off, Min(target, offset + limit) - seen);
            && w.recs == []
            && PageChunk(b, off, seen, target, Collected(seen, offset), offset, limit)
               == PageWalk(Kept(w.recs, seen, offset, |w.recs|), w.off, seen + |w.recs|, w.overrun)
  {
    hide Kept;
    hide HeaderAt;
    KeptNone([], seen, offset);
  }

  /** A page scan is the dump of the records up to the end of the page, less those in
      front of it; it fails exactly if that dump does. */
  lemma {:induction false} PageFromIsDump(d: Disk, bs: nat, block: nat, chunkBytes: nat,
                                          seen: nat, target: nat, offset: nat, limit: nat)
    requires limit > 0 && seen < Min(target, offset + limit)
    ensures var last := Min(target, offset + limit);
            var r := DumpFrom(d, bs, block, chunkBytes, last - seen);
            PageFrom(d, bs, block, chunkBytes, seen, target, Collected(seen, offset), offset, limit)
            == if r.ok then Scanned(Kept(r.recs, seen, offset, |r.recs|), last) else ScanFailed
    decreases target - seen
  {
    hide WalkChunk;
    hide PageChunk;
    hide ReadChunk;
    hide DumpFrom;
    hide PageFrom;
    hide Kept;
    var last := Min(target, offset + limit);
    var c := ReadChunk(d, bs, block, chunkBytes);
    DumpOnce(d, bs, block, chunkBytes, last - seen);
    PageOnce(d, bs, block, chunkBytes, seen, target, offset, limit);
    if c.Some? {
      var w := WalkChunk(c.value, 0, last - seen);
      PageChunkIsWalk(c.value, 0, seen, target, offset, limit);
      CollectedAfter(w.recs, seen, offset, |w.recs|);
      var next := block + BlocksOf(chunkBytes, bs);
      if !w.overrun && w.recs != [] {
        if |w.recs| == last - seen {
          PageFromFull(d, bs, next, chunkBytes, last, target, offset, limit);
        } else {
          PageFromIsDump(d, bs, next, chunkBytes, seen + |w.recs|, target, offset, limit);
          var rest := DumpFrom(d, bs, next, chunkBytes, last - seen - |w.recs|).recs;
          KeptConcat(w.recs, rest, seen, offset, |rest|);
        }
      }
    }
  }

  lemma DumpOnce(d: Disk, bs: nat, block: nat, size: nat, want: nat)
    requires want > 0
    ensures var c := ReadChunk(d, bs, block, size);
            DumpFrom(d, bs, block, size, want)
            == if c.None? then Dump([], false)
               else var w := WalkChunk(c.value, 0, want);
                    if w.overrun || |w.recs| >= want || w.recs == []
                    then Dump(w.recs, !w.overrun && |w.recs| >= want)
                    else var rest := DumpFrom(d, bs, block + BlocksOf(size, bs), size, want - |w.recs|);
                         Dump(w.recs + rest.recs, rest.ok)
  {
    hide ReadChunk;
    hide WalkChunk;
    hide BlocksOf;
    if ReadChunk(d, bs, block, size).Some? {
      DumpFromUnfold(d, bs, block, size, want);
    }
  }

  lemma PageOnce(d: Disk, bs: nat, block: nat, size: nat, seen: nat, target: nat, offset: nat, limit: nat)
    requires limit > 0 && seen < Min(target, offset + limit)
    ensures var c := ReadChunk(d, bs, block, size);
            PageFrom(d, bs, block, size, seen, target, Collected(seen, offset), offset, limit)
            == if c.None? then ScanFailed
               else var p := PageChunk(c.value, 0, seen, target, Collected(seen, offset), offset, limit);
                    if p.overrun
                       || (p.off == 0 && p.seen < target && Collected(seen, offset) + |p.recs| < limit)
                    then ScanFailed
                    else match PageFrom(d, bs, block + BlocksOf(size, bs), size, p.seen, target,
                                        Collected(seen, offset) + |p.recs|, offset, limit)
                         case ScanFailed => ScanFailed
                         case Scanned(rs, n) => Scanned(p.recs + rs, n)
  {
    hide ReadChunk;
    hide PageChunk;
    hide BlocksOf;
  }

  /** On any disk: a page of a finalized or deleted segment fails exactly if the dump
      of its records up to the end of the page fails, and otherwise it is the end of
      that dump, from the offset on. */
  lemma PageIsDumpOfIts(d: Disk, bs: nat, id: nat, bufSize: nat, offset: nat, limit: nat)
    requires Readable(d, id) && (Classify(EntryAt(d, id)) == Finalized || Classify(EntryAt(d, id)) == Deleted)
    requires offset < EntryAt(d, id).recordCount
    ensures var e := EntryAt(d, id);
            var k := if 1 <= limit <= 2000 then limit else 500;
            var last := Min(e.recordCount, offset + k);
            var r := DumpFrom(d, bs, e.startBlock, ChunkSizeOf(e, bufSize), last);
            && (r.ok ==> offset <= |r.recs|)
            && PageSegment(d, bs, id, bufSize, offset, limit)
               == if r.ok then Page(r.recs[offset..], e.recordCount, last < e.recordCount) else PageReadFailed
  {
    hide DecodeEntry;
    hide DumpFrom;
    hide PageFrom;
    var e := EntryAt(d, id);
    var k := if 1 <= limit <= 2000 then limit else 500;
    PageFromIsDump(d, bs, e.startBlock, ChunkSizeOf(e, bufSize), 0, e.recordCount, offset, k);
    assert NormalLimit(limit) == k;
  }
}
