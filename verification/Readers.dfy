/** The two readers of a recorded segment: the command-line dump and the
    paginated web reader. Both walk write chunks of the size stored in the
    segment's own TOC entry. */
module Readers {
  import opened Bytes
  import opened Record
  import opened Device

  // ---- one chunk ----

  datatype Walk = Walk(recs: seq<Record>, off: nat, overrun: bool)

  /** The loop of dump_chunk_read_complete from byte `off` on, with `want`
      records still to be found. */
  function WalkChunk(b: seq<byte>, off: nat, want: nat): (w: Walk)
    requires off <= |b|
    ensures |w.recs| <= want
    ensures off + RECORD_HDR * |w.recs| <= w.off <= |b|
    ensures w.recs == [] ==> w.off == off
    ensures w.overrun ==> |w.recs| < want
    decreases |b| - off
  {
    if off + RECORD_HDR > |b| || want == 0 then Walk([], off, false)
    else
      var h := HeaderAt(b, off);
      var next := off + RECORD_HDR + h.len;
      if h.magic != RECORD_MAGIC then Walk([], off, false)
      else if next > |b| then Walk([], off, true)
      else
        var rest := WalkChunk(b, next, want - 1);
        Walk([Record(h.seqNo, h.tsc, b[off + RECORD_HDR..next])] + rest.recs, rest.off, rest.overrun)
  }

  /** dump_write_chunk_blocks; no device has a block size of 0. */
  function BlocksOf(bytes: nat, bs: nat): nat {
    if bs == 0 then 0 else bytes / bs
  }

  /** A chunk read: whole blocks inside the device, or an error. */
  function ReadChunk(d: Disk, bs: nat, block: nat, bytes: nat): Option<seq<byte>> {
    if bs > 0 && bytes % bs == 0 && block + BlocksOf(bytes, bs) <= |d|
    then Some(Read(d, block, BlocksOf(bytes, bs))) else None
  }

  // ---- command-line dump ----

  datatype Dump = Dump(recs: seq<Record>, ok: bool)

  /** dump_read_next_chunk and its completion: the records printed, and whether
      the dump ended without an error. */
  function DumpFrom(d: Disk, bs: nat, block: nat, chunkBytes: nat, want: nat): (r: Dump)
    requires want > 0
    ensures |r.recs| <= want
    ensures r.ok <==> |r.recs| == want
    decreases want
  {
    match ReadChunk(d, bs, block, chunkBytes)
    case None => Dump([], false)
    case Some(b) =>
      var w := WalkChunk(b, 0, want);
      if w.overrun then Dump(w.recs, false)
      else if |w.recs| >= want then Dump(w.recs, true)
      else if w.off == 0 then Dump([], false)
      else
        var rest := DumpFrom(d, bs, block + BlocksOf(chunkBytes, bs), chunkBytes, want - |w.recs|);
        Dump(w.recs + rest.recs, rest.ok)
  }

  datatype DumpOutcome = TocReadFailed | NoSuchSegment | NeverFinalized | Dumped(dump: Dump)

  function EntryAt(d: Disk, id: nat): Entry
    requires TOC_START + id < |d| && |d[TOC_START + id]| >= ENTRY_BYTES
  {
    DecodeEntry(d[TOC_START + id])
  }

  predicate Readable(d: Disk, id: nat) {
    TOC_START + id < |d| && |d[TOC_START + id]| >= ENTRY_BYTES
  }

  /** A stored chunk size of 0 means "this process's own". */
  function ChunkSizeOf(e: Entry, bufSize: nat): nat {
    if e.writeChunkBytes != 0 then e.writeChunkBytes else bufSize
  }

  function DumpSegment(d: Disk, bs: nat, id: nat, bufSize: nat): DumpOutcome {
    if !Readable(d, id) then TocReadFailed
    else
      var e := EntryAt(d, id);
      match Classify(e)
      case NotFound => NoSuchSegment
      case Open => NeverFinalized
      case _ =>
        if e.recordCount == 0 then Dumped(Dump([], true))
        else Dumped(DumpFrom(d, bs, e.startBlock, ChunkSizeOf(e, bufSize), e.recordCount))
  }

  // ---- paginated web reader ----

  const RECORDS_LIMIT_MAX: nat := 2000
  const RECORDS_LIMIT_DEFAULT: nat := 500

  function NormalLimit(limit: nat): (k: nat)
    ensures 0 < k <= RECORDS_LIMIT_MAX
  {
    if limit == 0 || limit > RECORDS_LIMIT_MAX then RECORDS_LIMIT_DEFAULT else limit
  }

  datatype PageWalk = PageWalk(recs: seq<Record>, off: nat, seen: nat, overrun: bool)

  /** The loop of admin_records_chunk_read_complete: `seen` records passed so
      far, `got` of them collected. */
  function PageChunk(b: seq<byte>, off: nat, seen: nat, target: nat, got: nat,
                     offset: nat, limit: nat): (w: PageWalk)
    requires off <= |b|
    ensures seen <= w.seen && off + RECORD_HDR * (w.seen - seen) <= w.off <= |b|
    ensures w.seen == seen ==> w.off == off && w.recs == []
    decreases |b| - off
  {
    if off + RECORD_HDR > |b| || seen >= target || got >= limit then PageWalk([], off, seen, false)
    else
      var h := HeaderAt(b, off);
      var next := off + RECORD_HDR + h.len;
      if h.magic != RECORD_MAGIC then PageWalk([], off, seen, false)
      else if next > |b| then PageWalk([], off, seen, true)
      else if seen >= offset then
        var rest := PageChunk(b, next, seen + 1, target, got + 1, offset, limit);
        rest.(recs := [Record(h.seqNo, h.tsc, b[off + RECORD_HDR..next])] + rest.recs)
      else
        PageChunk(b, next, seen + 1, target, got, offset, limit)
  }

  datatype PageScan = ScanFailed | Scanned(recs: seq<Record>, seen: nat)

  function PageFrom(d: Disk, bs: nat, block: nat, chunkBytes: nat, seen: nat, target: nat,
                    got: nat, offset: nat, limit: nat): (s: PageScan)
    ensures s.Scanned? ==> s.seen >= seen && got + |s.recs| >= if s.seen < target then limit else 0
    decreases if seen < target then target - seen else 0
  {
    if seen >= target || got >= limit then Scanned([], seen)
    else
      match ReadChunk(d, bs, block, chunkBytes)
      case None => ScanFailed
      case Some(b) =>
        var w := PageChunk(b, 0, seen, target, got, offset, limit);
        if w.overrun then ScanFailed
        else if w.off == 0 && w.seen < target && got + |w.recs| < limit then ScanFailed
        else
          match PageFrom(d, bs, block + BlocksOf(chunkBytes, bs), chunkBytes, w.seen, target,
                         got + |w.recs|, offset, limit)
          case ScanFailed => ScanFailed
          case Scanned(rs, n) => Scanned(w.recs + rs, n)
  }

  datatype PageOutcome =
    | PageReadFailed
    | PageNoEntry     // -ENOENT
    | PageNotYet      // -EAGAIN
    | Page(recs: seq<Record>, total: nat, hasMore: bool)

  function PageSegment(d: Disk, bs: nat, id: nat, bufSize: nat, offset: nat, limit: nat): PageOutcome {
    if !Readable(d, id) then PageReadFailed
    else
      var e := EntryAt(d, id);
      match Classify(e)
      case NotFound => PageNoEntry
      case Open => PageNotYet
      case _ =>
        if e.recordCount == 0 || offset >= e.recordCount then Page([], e.recordCount, false)
        else
          match PageFrom(d, bs, e.startBlock, ChunkSizeOf(e, bufSize), 0, e.recordCount, 0,
                         offset, NormalLimit(limit))
          case ScanFailed => PageReadFailed
          case Scanned(rs, seen) => Page(rs, e.recordCount, seen < e.recordCount)
  }

  // ---- the two readers agree ----

  /** Records of a run that come before the page's offset, `seen` passed before it. */
  function Skipped(m: nat, seen: nat, offset: nat): (lo: nat)
    ensures lo <= m
  {
    if offset <= seen then 0 else Min(m, offset - seen)
  }

  /** Records a page keeps out of `m` passed when `seen` were passed before. */
  function Kept(recs: seq<Record>, seen: nat, offset: nat, m: nat): seq<Record>
    requires m <= |recs|
  {
    recs[Skipped(m, seen, offset)..m]
  }

  /** How many of `n` further records a page passes before it is full. */
  function Passed(n: nat, seen: nat, offset: nat, limit: nat): nat {
    if seen >= offset + limit then 0 else Min(n, offset + limit - seen)
  }

  /** Records collected once `seen` have been passed. */
  function Collected(seen: nat, offset: nat): nat {
    if seen <= offset then 0 else seen - offset
  }

  /** What a page scan yields when the rest of the segment holds `recs`. */
  function PageOf(recs: seq<Record>, seen: nat, offset: nat, limit: nat): PageScan {
    var m := Passed(|recs|, seen, offset, limit);
    Scanned(Kept(recs, seen, offset, m), seen + m)
  }

  lemma {:induction false} PageChunkIsSlice(b: seq<byte>, off: nat, seen: nat, target: nat,
                                            offset: nat, limit: nat)
    requires off <= |b| && seen <= target && limit > 0
    requires !WalkChunk(b, off, target - seen).overrun
    ensures var w := WalkChunk(b, off, target - seen);
            var m := Passed(|w.recs|, seen, offset, limit);
            var p := PageChunk(b, off, seen, target, Collected(seen, offset), offset, limit);
            !p.overrun && p.seen == seen + m && p.recs == Kept(w.recs, seen, offset, m)
    decreases |b| - off
  {
    hide Kept;
    hide HeaderAt;
    var w := WalkChunk(b, off, target - seen);
    if w.recs == [] || seen >= offset + limit {
      KeptNone(w.recs, seen, offset);
    } else {
      var next := off + RECORD_HDR + HeaderAt(b, off).len;
      var rest := WalkChunk(b, next, target - seen - 1);
      assert w.recs[1..] == rest.recs;
      PageChunkIsSlice(b, next, seen + 1, target, offset, limit);
      KeptStep(w.recs, seen, offset, Passed(|w.recs|, seen, offset, limit));
    }
  }

  lemma KeptNone(recs: seq<Record>, seen: nat, offset: nat)
    ensures Kept(recs, seen, offset, 0) == []
  {
  }

  lemma KeptStep(recs: seq<Record>, seen: nat, offset: nat, m: nat)
    requires 0 < m <= |recs|
    ensures Kept(recs, seen, offset, m)
         == (if seen >= offset then [recs[0]] else []) + Kept(recs[1..], seen + 1, offset, m - 1)
  {
    SliceTail(recs, Skipped(m, seen, offset), m);
    assert seen < offset ==> Skipped(m, seen, offset) == Skipped(m - 1, seen + 1, offset) + 1;
  }

  lemma SliceTail(recs: seq<Record>, lo: nat, m: nat)
    requires lo <= m <= |recs| && 0 < m
    ensures lo == 0 ==> recs[lo..m] == [recs[0]] + recs[1..][0..m - 1]
    ensures lo > 0 ==> recs[lo..m] == recs[1..][lo - 1..m - 1]
  {
    if lo > 0 {
      var tail := recs[1..];
      assert forall k :: lo <= k < m ==> recs[k] == tail[k - 1];
    }
  }

  lemma KeptConcat(a: seq<Record>, b: seq<Record>, seen: nat, offset: nat, m: nat)
    requires m <= |b|
    ensures Kept(a + b, seen, offset, |a| + m)
         == Kept(a, seen, offset, |a|) + Kept(b, seen + |a|, offset, m)
  {
    var lo := Skipped(|a| + m, seen, offset);
    SliceConcat(a, b, lo, m);
  }

  lemma SliceConcat(a: seq<Record>, b: seq<Record>, lo: nat, m: nat)
    requires m <= |b| && lo <= |a| + m
    ensures lo <= |a| ==> (a + b)[lo..|a| + m] == a[lo..|a|] + b[0..m]
    ensures lo >= |a| ==> (a + b)[lo..|a| + m] == a[|a|..|a|] + b[lo - |a|..m]
  {
  }

  /** A page over a chunk and what follows it is the page over the chunk, then
      the page over the rest. */
  lemma PageOfConcat(a: seq<Record>, b: seq<Record>, seen: nat, offset: nat, limit: nat)
    requires limit > 0
    ensures var m := Passed(|a|, seen, offset, limit);
            PageOf(a + b, seen, offset, limit)
            == if m < |a| || seen + |a| >= offset + limit then PageOf(a, seen, offset, limit)
               else Scanned(PageOf(a, seen, offset, limit).recs + PageOf(b, seen + |a|, offset, limit).recs,
                            PageOf(b, seen + |a|, offset, limit).seen)
  {
    var m := Passed(|a|, seen, offset, limit);
    if m < |a| || seen + |a| >= offset + limit {
      KeptPrefix(a, b, seen, offset, m);
    } else {
      KeptConcat(a, b, seen, offset, Passed(|b|, seen + |a|, offset, limit));
    }
    hide Kept;
  }

  lemma KeptPrefix(a: seq<Record>, b: seq<Record>, seen: nat, offset: nat, m: nat)
    requires m <= |a|
    ensures Kept(a + b, seen, offset, m) == Kept(a, seen, offset, m)
  {
    assert (a + b)[..m] == a[..m];
  }

  lemma CollectedAfter(recs: seq<Record>, seen: nat, offset: nat, m: nat)
    requires m <= |recs|
    ensures Collected(seen, offset) + |Kept(recs, seen, offset, m)| == Collected(seen + m, offset)
  {
  }

  /** From any point of the walk: where the dump would succeed, the page takes
      exactly its slice of what the dump would print. */
  lemma {:induction false} PageFromIsSlice(d: Disk, bs: nat, block: nat, chunkBytes: nat,
                                           seen: nat, target: nat, offset: nat, limit: nat)
    requires seen < target && limit > 0
    requires DumpFrom(d, bs, block, chunkBytes, target - seen).ok
    ensures var r := DumpFrom(d, bs, block, chunkBytes, target - seen).recs;
            PageFrom(d, bs, block, chunkBytes, seen, target, Collected(seen, offset), offset, limit)
            == PageOf(r, seen, offset, limit)
    decreases target - seen
  {
    hide WalkChunk;
    hide ReadChunk;
    hide DumpFrom;
    hide PageFrom;
    hide BlocksOf;
    hide Kept;
    if seen >= offset + limit {
      PageFromFull(d, bs, block, chunkBytes, seen, target, offset, limit);
      KeptNone(DumpFrom(d, bs, block, chunkBytes, target - seen).recs, seen, offset);
    } else {
      PageFromFirst(d, bs, block, chunkBytes, seen, target, offset, limit);
      DumpFromRest(d, bs, block, chunkBytes, target - seen);
      var w := WalkChunk(ReadChunk(d, bs, block, chunkBytes).value, 0, target - seen);
      var m := Passed(|w.recs|, seen, offset, limit);
      var next := block + BlocksOf(chunkBytes, bs);
      if |w.recs| >= target - seen || seen + |w.recs| >= offset + limit {
        PageFromFull(d, bs, next, chunkBytes, seen + m, target, offset, limit);
      }
      if |w.recs| < target - seen {
        var rest := DumpFrom(d, bs, next, chunkBytes, target - seen - |w.recs|).recs;
        PageOfConcat(w.recs, rest, seen, offset, limit);
        if seen + |w.recs| < offset + limit {
          PageFromIsSlice(d, bs, next, chunkBytes, seen + |w.recs|, target, offset, limit);
        }
      }
    }
  }

  lemma PageFromFull(d: Disk, bs: nat, block: nat, chunkBytes: nat,
                     seen: nat, target: nat, offset: nat, limit: nat)
    requires seen >= target || seen >= offset + limit
    ensures PageFrom(d, bs, block, chunkBytes, seen, target, Collected(seen, offset), offset, limit)
         == Scanned([], seen)
  {
  }

  lemma DumpFromRest(d: Disk, bs: nat, block: nat, chunkBytes: nat, want: nat)
    requires want > 0
    requires DumpFrom(d, bs, block, chunkBytes, want).ok
    ensures bs > 0 && ReadChunk(d, bs, block, chunkBytes).Some?
    ensures var w := WalkChunk(ReadChunk(d, bs, block, chunkBytes).value, 0, want);
            && !w.overrun && w.recs != []
            && if |w.recs| < want
               then var rest := DumpFrom(d, bs, block + BlocksOf(chunkBytes, bs), chunkBytes, want - |w.recs|);
                    rest.ok && DumpFrom(d, bs, block, chunkBytes, want).recs == w.recs + rest.recs
               else DumpFrom(d, bs, block, chunkBytes, want).recs == w.recs
  {
  }

  /** The first chunk of a page scan, where the dump reads that chunk soundly. */
  lemma PageFromFirst(d: Disk, bs: nat, block: nat, chunkBytes: nat,
                      seen: nat, target: nat, offset: nat, limit: nat)
    requires seen < target && limit > 0 && seen < offset + limit
    requires DumpFrom(d, bs, block, chunkBytes, target - seen).ok
    ensures bs > 0 && ReadChunk(d, bs, block, chunkBytes).Some?
    ensures var w := WalkChunk(ReadChunk(d, bs, block, chunkBytes).value, 0, target - seen);
            var m := Passed(|w.recs|, seen, offset, limit);
            PageFrom(d, bs, block, chunkBytes, seen, target, Collected(seen, offset), offset, limit)
            == match PageFrom(d, bs, block + BlocksOf(chunkBytes, bs), chunkBytes, seen + m, target,
                              Collected(seen + m, offset), offset, limit)
               case ScanFailed => ScanFailed
               case Scanned(rs, n) => Scanned(Kept(w.recs, seen, offset, m) + rs, n)
  {
    hide WalkChunk;
    hide ReadChunk;
    hide PageChunk;
    hide DumpFrom;
    hide PageFrom;
    DumpFromRest(d, bs, block, chunkBytes, target - seen);
    var b := ReadChunk(d, bs, block, chunkBytes).value;
    var w := WalkChunk(b, 0, target - seen);
    PageChunkIsSlice(b, 0, seen, target, offset, limit);
    CollectedAfter(w.recs, seen, offset, Passed(|w.recs|, seen, offset, limit));
    PageFromUnfold(d, bs, block, chunkBytes, seen, target, offset, limit);
  }

  /** One chunk of a page scan, when that chunk is sound and not empty. */
  lemma PageFromUnfold(d: Disk, bs: nat, block: nat, chunkBytes: nat,
                       seen: nat, target: nat, offset: nat, limit: nat)
    requires seen < target && Collected(seen, offset) < limit
    requires ReadChunk(d, bs, block, chunkBytes).Some?
    requires var p := PageChunk(ReadChunk(d, bs, block, chunkBytes).value, 0, seen, target,
                                Collected(seen, offset), offset, limit);
             !p.overrun && p.seen > seen
    ensures var p := PageChunk(ReadChunk(d, bs, block, chunkBytes).value, 0, seen, target,
                               Collected(seen, offset), offset, limit);
            PageFrom(d, bs, block, chunkBytes, seen, target, Collected(seen, offset), offset, limit)
            == match PageFrom(d, bs, block + BlocksOf(chunkBytes, bs), chunkBytes, p.seen, target,
                              Collected(seen, offset) + |p.recs|, offset, limit)
               case ScanFailed => ScanFailed
               case Scanned(rs, n) => Scanned(p.recs + rs, n)
  {
  }

  /** The records [offset, min(offset + k, total)) of a list. */
  function Slice(rs: seq<Record>, offset: nat, k: nat): seq<Record> {
    if offset >= |rs| then [] else rs[offset..Min(offset + k, |rs|)]
  }

  /** Page equals slice: whenever the dump of a segment succeeds, every page is
      the matching slice of it, with the right total and has_more. A limit from 1
      to 2000 is taken as it is; any other means 500. */
  lemma PageIsSlice(d: Disk, bs: nat, id: nat, bufSize: nat, offset: nat, limit: nat, log: seq<Record>)
    requires DumpSegment(d, bs, id, bufSize) == Dumped(Dump(log, true))
    ensures var k := if 1 <= limit <= 2000 then limit else 500;
            PageSegment(d, bs, id, bufSize, offset, limit)
            == Page(Slice(log, offset, k), |log|, offset + k < |log|)
  {
    hide DecodeEntry;
    hide DumpFrom;
    hide PageFrom;
    hide Kept;
    var e := EntryAt(d, id);
    var k := NormalLimit(limit);
    assert |log| == e.recordCount;
    if offset < |log| {
      PageFromIsSlice(d, bs, e.startBlock, ChunkSizeOf(e, bufSize), 0, |log|, offset, k);
      KeptFromStart(log, offset, k);
    }
  }

  lemma KeptFromStart(log: seq<Record>, offset: nat, k: nat)
    requires offset < |log|
    ensures PageOf(log, 0, offset, k) == Scanned(Slice(log, offset, k), Min(|log|, offset + k))
  {
  }

  /** Following has_more from `offset` on, page after page. */
  function AllPages(d: Disk, bs: nat, id: nat, bufSize: nat, offset: nat, limit: nat): seq<Record>
    requires PageSegment(d, bs, id, bufSize, offset, limit).Page?
    decreases if Readable(d, id) && EntryAt(d, id).recordCount > offset
              then EntryAt(d, id).recordCount - offset else 0
  {
    var p := PageSegment(d, bs, id, bufSize, offset, limit);
    var next := offset + NormalLimit(limit);
    if p.hasMore && PageSegment(d, bs, id, bufSize, next, limit).Page?
    then p.recs + AllPages(d, bs, id, bufSize, next, limit)
    else p.recs
  }

  /** Successive pages concatenate to exactly what the dump prints. */
  lemma {:induction false} PagesConcatenate(d: Disk, bs: nat, id: nat, bufSize: nat,
                                            offset: nat, limit: nat, log: seq<Record>)
    requires DumpSegment(d, bs, id, bufSize) == Dumped(Dump(log, true))
    requires offset <= |log|
    ensures PageSegment(d, bs, id, bufSize, offset, limit).Page?
    ensures AllPages(d, bs, id, bufSize, offset, limit) == log[offset..]
    decreases |log| - offset
  {
    hide PageSegment;
    hide DumpSegment;
    var k := NormalLimit(limit);
    PageIsSlice(d, bs, id, bufSize, offset, limit, log);
    if offset + k < |log| {
      PagesConcatenate(d, bs, id, bufSize, offset + k, limit, log);
      assert log[offset..] == log[offset..offset + k] + log[offset + k..];
    }
  }

  // ---- a page is exact or an error, whatever the bytes are ----

  lemma {:induction false} PageChunkCounts(b: seq<byte>, off: nat, seen: nat, target: nat,
                                           offset: nat, limit: nat)
    requires off <= |b| && seen <= target && seen <= offset + limit
    ensures var p := PageChunk(b, off, seen, target, Collected(seen, offset), offset, limit);
            && p.seen <= Min(target, offset + limit)
            && Collected(seen, offset) + |p.recs| == Collected(p.seen, offset)
    decreases |b| - off
  {
    hide HeaderAt;
    if off + RECORD_HDR <= |b| && seen < target && Collected(seen, offset) < limit {
      var next := off + RECORD_HDR + HeaderAt(b, off).len;
      if next <= |b| {
        PageChunkCounts(b, next, seen + 1, target, offset, limit);
      }
    }
  }

  lemma {:induction false} PageFromCounts(d: Disk, bs: nat, block: nat, chunkBytes: nat,
                                          seen: nat, target: nat, offset: nat, limit: nat)
    requires seen <= target && seen <= offset + limit && limit > 0
    ensures var s := PageFrom(d, bs, block, chunkBytes, seen, target, Collected(seen, offset), offset, limit);
            s.Scanned? ==>
              && s.seen == Min(target, offset + limit)
              && Collected(seen, offset) + |s.recs| == Collected(s.seen, offset)
    decreases target - seen
  {
    hide PageChunk;
    hide BlocksOf;
    var c := ReadChunk(d, bs, block, chunkBytes);
    hide ReadChunk;
    if seen < target && Collected(seen, offset) < limit && c.Some? {
      PageChunkCounts(c.value, 0, seen, target, offset, limit);
      var p := PageChunk(c.value, 0, seen, target, Collected(seen, offset), offset, limit);
      if p.seen > seen {
        PageFromCounts(d, bs, block + BlocksOf(chunkBytes, bs), chunkBytes, p.seen, target, offset, limit);
      }
    }
  }

  /** On arbitrary disk bytes a page is an error or holds exactly the number of
      records asked for, 500 where that is not from 1 to 2000, with the has_more
      that belongs to it. */
  lemma PageIsExact(d: Disk, bs: nat, id: nat, bufSize: nat, offset: nat, limit: nat)
    ensures var p := PageSegment(d, bs, id, bufSize, offset, limit);
            var k := if 1 <= limit <= 2000 then limit else 500;
            p.Page? ==>
              && |p.recs| == (if offset < p.total then Min(k, p.total - offset) else 0)
              && (p.hasMore <==> offset + k < p.total)
  {
    hide PageFrom;
    if Readable(d, id) {
      var e := EntryAt(d, id);
      if offset < e.recordCount {
        PageFromCounts(d, bs, e.startBlock, ChunkSizeOf(e, bufSize), 0, e.recordCount, offset,
                       NormalLimit(limit));
      }
    }
  }

  // ---- the writer's layout is what the readers invert ----

  lemma MultipleBelow(k: int, bs: nat)
    requires bs > 0 && 0 <= k * bs < bs
    ensures k == 0
  {
  }

  lemma WholeBlocks(n: nat, bs: nat)
    requires bs > 0
    ensures (n * bs) % bs == 0 && (n * bs) / bs == n
  {
    var x := n * bs;
    var q, r := x / bs, x % bs;
    assert x == q * bs + r;
    assert (n - q) * bs == r;
    MultipleBelow(n - q, bs);
  }

  /** The block a segment's chunk i starts at. */
  function ChunkBlock(start: nat, i: nat, n: nat): nat {
    start + i * n
  }

  lemma NextChunk(start: nat, i: nat, n: nat)
    ensures ChunkBlock(start, i + 1, n) == ChunkBlock(start, i, n) + n
  {
  }

  /** A chunk of `size` bytes holding the zero-padded records `rs`. */
  ghost predicate ChunkOnDisk(d: Disk, bs: nat, block: nat, size: nat, rs: seq<Record>) {
    && rs != [] && AllWellSized(rs)
    && |EncodeAll(rs)| <= size
    && ReadChunk(d, bs, block, size) == Some(ChunkBytes(rs, size))
  }

  ghost predicate ChunksOnDisk(d: Disk, bs: nat, start: nat, size: nat, placed: seq<seq<Record>>) {
    forall i :: 0 <= i < |placed| ==>
      ChunkOnDisk(d, bs, ChunkBlock(start, i, BlocksOf(size, bs)), size, placed[i])
  }

  /** The first record of an encoded run is found, and the walk goes on after it. */
  lemma WalkFirst(pre: seq<byte>, r: Record, tail: seq<byte>, want: nat)
    requires WellSized(r) && want > 0
    ensures var b := (pre + Encode(r)) + tail;
            var rest := WalkChunk(b, |pre| + |Encode(r)|, want - 1);
            WalkChunk(b, |pre|, want) == Walk([r] + rest.recs, rest.off, rest.overrun)
  {
    hide HeaderAt;
    hide EncodeHeader;
    var b := (pre + Encode(r)) + tail;
    assert b == pre + EncodeHeader(r) + (r.payload + tail);
    HeaderRoundTrip(r, pre, r.payload + tail);
    assert b[|pre| + RECORD_HDR..|pre| + |Encode(r)|] == r.payload;
  }

  /** Padding stops the walk, and so does having found enough. */
  lemma WalkNothing(pre: seq<byte>, rs: seq<Record>, pad: nat, want: nat)
    requires rs == [] || want == 0
    ensures WalkChunk(pre + EncodeAll(rs) + Zeros(pad), |pre|, want) == Walk([], |pre|, false)
  {
    hide HeaderAt;
    if want > 0 {
      assert pre + EncodeAll(rs) + Zeros(pad) == pre + Zeros(pad);
      if pad >= RECORD_HDR {
        ZeroHeader(pre, pad);
      }
    }
  }

  lemma Regroup(a: seq<byte>, b: seq<byte>, c: seq<byte>, z: seq<byte>)
    ensures a + (b + c) + z == (a + b) + (c + z) == (a + b) + c + z
  {
  }

  lemma EncodedSplit(pre: seq<byte>, rs: seq<Record>, pad: nat)
    requires rs != []
    ensures var pre' := pre + Encode(rs[0]);
            && pre + EncodeAll(rs) + Zeros(pad) == pre' + (EncodeAll(rs[1..]) + Zeros(pad))
            && pre + EncodeAll(rs) + Zeros(pad) == pre' + EncodeAll(rs[1..]) + Zeros(pad)
  {
    hide Encode;
    Regroup(pre, Encode(rs[0]), EncodeAll(rs[1..]), Zeros(pad));
  }

  lemma {:induction false} WalkEncoded(pre: seq<byte>, rs: seq<Record>, pad: nat, want: nat)
    requires AllWellSized(rs)
    ensures var w := WalkChunk(pre + EncodeAll(rs) + Zeros(pad), |pre|, want);
            !w.overrun && w.recs == rs[..Min(want, |rs|)]
    decreases |rs|
  {
    hide WalkChunk;
    hide Encode;
    if rs == [] || want == 0 {
      WalkNothing(pre, rs, pad, want);
    } else {
      EncodedSplit(pre, rs, pad);
      WalkFirst(pre, rs[0], EncodeAll(rs[1..]) + Zeros(pad), want);
      WalkEncoded(pre + Encode(rs[0]), rs[1..], pad, want - 1);
      assert rs[..Min(want, |rs|)] == [rs[0]] + rs[1..][..Min(want - 1, |rs| - 1)];
    }
  }

  lemma WalkWrittenChunk(rs: seq<Record>, size: nat, want: nat)
    requires AllWellSized(rs) && |EncodeAll(rs)| <= size
    ensures var w := WalkChunk(ChunkBytes(rs, size), 0, want);
            !w.overrun && w.recs == rs[..Min(want, |rs|)]
  {
    hide WalkChunk;
    hide EncodeAll;
    WalkEncoded([], rs, size - |EncodeAll(rs)|, want);
    assert ChunkBytes(rs, size) == [] + EncodeAll(rs) + Zeros(size - |EncodeAll(rs)|);
  }

  /** Dumping from chunk i of a written segment succeeds and prints the first
      records placed from chunk i on, as many as asked for. */
  lemma {:induction false} DumpWritten(d: Disk, bs: nat, start: nat, size: nat,
                                       placed: seq<seq<Record>>, i: nat, want: nat)
    requires i < |placed| && ChunksOnDisk(d, bs, start, size, placed)
    requires 0 < want <= |Flat(placed[i..])|
    ensures DumpFrom(d, bs, ChunkBlock(start, i, BlocksOf(size, bs)), size, want).ok
    ensures DumpFrom(d, bs, ChunkBlock(start, i, BlocksOf(size, bs)), size, want).recs <= Flat(placed[i..])
    decreases |placed| - i
  {
    hide WalkChunk;
    hide DumpFrom;
    hide ChunkBlock;
    hide BlocksOf;
    hide ChunkOnDisk;
    var rs := placed[i];
    FlatFrom(placed, i);
    DumpChunk(d, bs, ChunkBlock(start, i, BlocksOf(size, bs)), size, rs, want);
    if want > |rs| {
      NextChunk(start, i, BlocksOf(size, bs));
      DumpWritten(d, bs, start, size, placed, i + 1, want - |rs|);
    }
  }

  lemma FlatFrom(placed: seq<seq<Record>>, i: nat)
    requires i < |placed|
    ensures Flat(placed[i..]) == placed[i] + Flat(placed[i + 1..])
    ensures i + 1 == |placed| ==> Flat(placed[i + 1..]) == []
  {
    assert placed[i..][1..] == placed[i + 1..];
  }

  /** Dumping one written chunk: its records, then whatever the next chunk gives. */
  lemma DumpChunk(d: Disk, bs: nat, block: nat, size: nat, rs: seq<Record>, want: nat)
    requires want > 0 && ChunkOnDisk(d, bs, block, size, rs)
    ensures want <= |rs| ==> DumpFrom(d, bs, block, size, want) == Dump(rs[..want], true)
    ensures want > |rs| ==>
              var rest := DumpFrom(d, bs, block + BlocksOf(size, bs), size, want - |rs|);
              DumpFrom(d, bs, block, size, want) == Dump(rs + rest.recs, rest.ok)
  {
    hide WalkChunk;
    hide ChunkOnDisk;
    hide ReadChunk;
    hide BlocksOf;
    hide DumpFrom;
    WalkChunkOnDisk(d, bs, block, size, rs, want);
    DumpFromUnfold(d, bs, block, size, want);
  }

  lemma WalkChunkOnDisk(d: Disk, bs: nat, block: nat, size: nat, rs: seq<Record>, want: nat)
    requires ChunkOnDisk(d, bs, block, size, rs)
    ensures rs != [] && ReadChunk(d, bs, block, size).Some?
    ensures var w := WalkChunk(ReadChunk(d, bs, block, size).value, 0, want);
            !w.overrun && w.recs == rs[..Min(want, |rs|)]
  {
    hide WalkChunk;
    hide ReadChunk;
    WalkWrittenChunk(rs, size, want);
  }

  lemma DumpFromUnfold(d: Disk, bs: nat, block: nat, size: nat, want: nat)
    requires want > 0 && ReadChunk(d, bs, block, size).Some?
    ensures var w := WalkChunk(ReadChunk(d, bs, block, size).value, 0, want);
            DumpFrom(d, bs, block, size, want)
            == if w.overrun || |w.recs| >= want || w.recs == []
               then Dump(w.recs, !w.overrun && |w.recs| >= want)
               else var rest := DumpFrom(d, bs, block + BlocksOf(size, bs), size, want - |w.recs|);
                    Dump(w.recs + rest.recs, rest.ok)
  {
    hide ReadChunk;
    hide BlocksOf;
    var w := WalkChunk(ReadChunk(d, bs, block, size).value, 0, want);
    assert w.off == 0 <==> w.recs == [];
  }
}
