/** The on-disk structures of record.h, byte for byte: record headers, the
    volume header in block 0 and the table-of-contents entries. */
module Record {
  import opened Bytes

  // ---- records and write chunks ----

  const RECORD_MAGIC: nat := 0x2031_4345_5252_4843 // "CHRREC1 "
  const RECORD_HDR: nat := 32
  const RECORD_WIDTHS: seq<nat> := [8, 8, 8, 4, 4]

  datatype Record = Record(seqNo: nat, tsc: nat, payload: seq<byte>)

  /** The record fits the field widths of its on-disk header. */
  ghost predicate WellSized(r: Record) {
    Fits(RECORD_WIDTHS, HeaderFields(r))
  }

  ghost predicate AllWellSized(rs: seq<Record>) {
    forall i :: 0 <= i < |rs| ==> WellSized(rs[i])
  }

  function HeaderFields(r: Record): seq<nat> {
    [RECORD_MAGIC, r.seqNo, r.tsc, |r.payload|, 0]
  }

  function EncodeHeader(r: Record): (b: seq<byte>)
    ensures |b| == RECORD_HDR
  {
    StructWidths();
    Pack(RECORD_WIDTHS, HeaderFields(r))
  }

  function Encode(r: Record): (b: seq<byte>)
    ensures |b| == RECORD_HDR + |r.payload|
  {
    EncodeHeader(r) + r.payload
  }

  function EncodeAll(rs: seq<Record>): seq<byte> {
    if rs == [] then [] else Encode(rs[0]) + EncodeAll(rs[1..])
  }

  /** What a handed-off buffer holds: its records, then zeros. */
  function ChunkBytes(rs: seq<Record>, size: nat): (b: seq<byte>)
    requires |EncodeAll(rs)| <= size
    ensures |b| == size
  {
    EncodeAll(rs) + Zeros(size - |EncodeAll(rs)|)
  }

  function Flat(chunks: seq<seq<Record>>): seq<Record> {
    if chunks == [] then [] else chunks[0] + Flat(chunks[1..])
  }

  lemma {:induction false} EncodeAllConcat(a: seq<Record>, b: seq<Record>)
    ensures EncodeAll(a + b) == EncodeAll(a) + EncodeAll(b)
  {
    if a == [] {
      assert a + b == b;
    } else {
      assert (a + b)[1..] == a[1..] + b;
      EncodeAllConcat(a[1..], b);
    }
  }

  lemma EncodeAllSnoc(a: seq<Record>, r: Record)
    ensures EncodeAll(a + [r]) == EncodeAll(a) + Encode(r)
  {
    EncodeAllConcat(a, [r]);
    assert EncodeAll([r]) == Encode(r) + EncodeAll([]);
  }

  /** Every record takes at least its 32-byte header. */
  lemma {:induction false} EncodeAllLength(rs: seq<Record>)
    ensures |EncodeAll(rs)| >= RECORD_HDR * |rs|
  {
    if rs != [] {
      EncodeAllLength(rs[1..]);
    }
  }

  lemma {:induction false} FlatConcat(a: seq<seq<Record>>, b: seq<seq<Record>>)
    ensures Flat(a + b) == Flat(a) + Flat(b)
  {
    if a == [] {
      assert a + b == b;
    } else {
      assert (a + b)[1..] == a[1..] + b;
      FlatConcat(a[1..], b);
    }
  }

  lemma FlatSnoc(a: seq<seq<Record>>, rs: seq<Record>)
    ensures Flat(a + [rs]) == Flat(a) + rs
  {
    FlatConcat(a, [rs]);
    assert Flat([rs]) == rs + Flat([]);
  }

  // ---- reading a record header ----

  datatype RawHeader = RawHeader(magic: nat, seqNo: nat, tsc: nat, len: nat)

  /** The header found at byte `off` of a chunk, whatever the bytes are. */
  function HeaderAt(b: seq<byte>, off: nat): RawHeader
    requires off + RECORD_HDR <= |b|
  {
    StructWidths();
    var fs := Unpack(RECORD_WIDTHS, b[off..]);
    RawHeader(fs[0], fs[1], fs[2], fs[3])
  }

  lemma HeaderRoundTrip(r: Record, pre: seq<byte>, rest: seq<byte>)
    requires WellSized(r)
    ensures HeaderAt(pre + EncodeHeader(r) + rest, |pre|)
         == RawHeader(RECORD_MAGIC, r.seqNo, r.tsc, |r.payload|)
  {
    var h := EncodeHeader(r);
    assert (pre + h + rest)[|pre|..] == h + rest;
    PackRoundTrip(RECORD_WIDTHS, HeaderFields(r), rest);
  }

  lemma ZeroHeader(pre: seq<byte>, n: nat)
    requires n >= RECORD_HDR
    ensures HeaderAt(pre + Zeros(n), |pre|).magic == 0
  {
    StructWidths();
    assert (pre + Zeros(n))[|pre|..] == Zeros(n);
    UnpackZeros(RECORD_WIDTHS, n);
  }

  // ---- volume header and table of contents ----

  const VOLUME_MAGIC: nat := 0x2032_4C4F_5652_4843  // "CHRVOL2 "
  const SEGMENT_MAGIC: nat := 0x2031_4745_5352_4843 // "CHRSEG1 "
  const FORMAT_VERSION: nat := 2
  const TOC_SLOT_COUNT: nat := 4096
  const HEADER_BLOCK: nat := 0
  const TOC_START: nat := 1
  const DATA_START: nat := 4097

  const STATE_FREE: nat := 0
  const STATE_OPEN: nat := 1
  const STATE_FINALIZED: nat := 2
  const STATE_DELETED: nat := 3

  datatype Volume = Volume(
    magic: nat, version: nat, blockSize: nat, tocSlotCount: nat, nextSegmentId: nat,
    tocStartBlock: nat, dataStartBlock: nat, nextDataBlock: nat, initSec: nat)

  // The last field is reserved[4].
  const VOLUME_IDENT: seq<nat> := [8, 4, 4, 4, 4]
  const VOLUME_PLACE: seq<nat> := [8, 8, 8, 8, 32]
  const VOLUME_WIDTHS: seq<nat> := VOLUME_IDENT + VOLUME_PLACE
  const VOLUME_BYTES: nat := 88

  datatype Entry = Entry(
    magic: nat, segmentId: nat, state: nat, startBlock: nat, blockCount: nat,
    writeChunkBytes: nat, recordCount: nat, droppedCount: nat, firstTsc: nat, lastTsc: nat,
    tscHz: nat, startSec: nat, startNsec: nat, endSec: nat, endNsec: nat)

  // Three 4-byte alignment gaps: after write_chunk_bytes, wall_clock_start_nsec
  // and wall_clock_end_nsec.
  const ENTRY_PLACE: seq<nat> := [8, 4, 4, 8, 8, 4, 4]
  const ENTRY_COUNTS: seq<nat> := [8, 8, 8, 8, 8]
  const ENTRY_CLOCK: seq<nat> := [8, 4, 4, 8, 4, 4]
  const ENTRY_WIDTHS: seq<nat> := ENTRY_PLACE + ENTRY_COUNTS + ENTRY_CLOCK
  const ENTRY_BYTES: nat := 112

  function VolumeFields(v: Volume): (fs: seq<nat>)
    ensures |fs| == 10
  {
    [v.magic, v.version, v.blockSize, v.tocSlotCount, v.nextSegmentId,
     v.tocStartBlock, v.dataStartBlock, v.nextDataBlock, v.initSec, 0]
  }

  function VolumeOf(fs: seq<nat>): Volume
    requires |fs| == 10
  {
    Volume(fs[0], fs[1], fs[2], fs[3], fs[4], fs[5], fs[6], fs[7], fs[8])
  }

  function EntryFields(e: Entry): (fs: seq<nat>)
    ensures |fs| == 18
  {
    [e.magic, e.segmentId, e.state, e.startBlock, e.blockCount, e.writeChunkBytes, 0,
     e.recordCount, e.droppedCount, e.firstTsc, e.lastTsc, e.tscHz,
     e.startSec, e.startNsec, 0, e.endSec, e.endNsec, 0]
  }

  function EntryOf(fs: seq<nat>): Entry
    requires |fs| == 18
  {
    Entry(fs[0], fs[1], fs[2], fs[3], fs[4], fs[5], fs[7], fs[8], fs[9], fs[10], fs[11],
          fs[12], fs[13], fs[15], fs[16])
  }

  lemma WidthAt(ws: seq<nat>, i: nat)
    requires i < |ws|
    ensures Width(ws[i..]) == ws[i] + Width(ws[i + 1..])
  {
    assert ws[i..][1..] == ws[i + 1..];
  }

  lemma {:induction false} WidthConcat(a: seq<nat>, b: seq<nat>)
    ensures Width(a + b) == Width(a) + Width(b)
  {
    if a == [] {
      assert a + b == b;
    } else {
      assert (a + b)[1..] == a[1..] + b;
      WidthConcat(a[1..], b);
    }
  }

  lemma EntryWidths()
    ensures Width(ENTRY_WIDTHS) == ENTRY_BYTES
  {
    var a, b, c := ENTRY_PLACE, ENTRY_COUNTS, ENTRY_CLOCK;
    assert Width(a) == 40 by {
      WidthAt(a, 0); WidthAt(a, 1); WidthAt(a, 2); WidthAt(a, 3); WidthAt(a, 4); WidthAt(a, 5); WidthAt(a, 6);
    }
    assert Width(b) == 40 by {
      WidthAt(b, 0); WidthAt(b, 1); WidthAt(b, 2); WidthAt(b, 3); WidthAt(b, 4);
    }
    assert Width(c) == 32 by {
      WidthAt(c, 0); WidthAt(c, 1); WidthAt(c, 2); WidthAt(c, 3); WidthAt(c, 4); WidthAt(c, 5);
    }
    WidthConcat(a, b);
    WidthConcat(a + b, c);
  }

  lemma VolumeWidths()
    ensures Width(VOLUME_WIDTHS) == VOLUME_BYTES
  {
    var a, b := VOLUME_IDENT, VOLUME_PLACE;
    assert Width(a) == 24 by {
      WidthAt(a, 0); WidthAt(a, 1); WidthAt(a, 2); WidthAt(a, 3); WidthAt(a, 4);
    }
    assert Width(b) == 64 by {
      WidthAt(b, 0); WidthAt(b, 1); WidthAt(b, 2); WidthAt(b, 3); WidthAt(b, 4);
    }
    WidthConcat(a, b);
  }

  lemma StructWidths()
    ensures Width(RECORD_WIDTHS) == RECORD_HDR
    ensures Width(VOLUME_WIDTHS) == VOLUME_BYTES
    ensures Width(ENTRY_WIDTHS) == ENTRY_BYTES
  {
    var ws := RECORD_WIDTHS;
    WidthAt(ws, 0); WidthAt(ws, 1); WidthAt(ws, 2); WidthAt(ws, 3); WidthAt(ws, 4);
    EntryWidths();
    VolumeWidths();
  }

  function EncodeVolume(v: Volume): seq<byte> {
    Pack(VOLUME_WIDTHS, VolumeFields(v))
  }

  function EncodeEntry(e: Entry): seq<byte> {
    Pack(ENTRY_WIDTHS, EntryFields(e))
  }

  function DecodeVolume(b: seq<byte>): Volume
    requires VOLUME_BYTES <= |b|
  {
    StructWidths();
    VolumeOf(Unpack(VOLUME_WIDTHS, b))
  }

  function DecodeEntry(b: seq<byte>): Entry
    requires ENTRY_BYTES <= |b|
  {
    StructWidths();
    EntryOf(Unpack(ENTRY_WIDTHS, b))
  }

  ghost predicate FitsVolume(v: Volume) {
    Fits(VOLUME_WIDTHS, VolumeFields(v))
  }

  ghost predicate FitsEntry(e: Entry) {
    Fits(ENTRY_WIDTHS, EntryFields(e))
  }

  /** A header block (struct, then zero padding) reads back exactly. */
  lemma VolumeRoundTrip(v: Volume, pad: seq<byte>)
    requires FitsVolume(v)
    ensures |EncodeVolume(v)| == VOLUME_BYTES
    ensures DecodeVolume(EncodeVolume(v) + pad) == v
  {
    StructWidths();
    PackRoundTrip(VOLUME_WIDTHS, VolumeFields(v), pad);
    assert Unpack(VOLUME_WIDTHS, EncodeVolume(v) + pad) == VolumeFields(v);
  }

  lemma EntryRoundTrip(e: Entry, pad: seq<byte>)
    requires FitsEntry(e)
    ensures |EncodeEntry(e)| == ENTRY_BYTES
    ensures DecodeEntry(EncodeEntry(e) + pad) == e
  {
    StructWidths();
    PackRoundTrip(ENTRY_WIDTHS, EntryFields(e), pad);
    assert Unpack(ENTRY_WIDTHS, EncodeEntry(e) + pad) == EntryFields(e);
  }

  function VolumeBlock(v: Volume, bs: nat): (b: seq<byte>)
    requires VOLUME_BYTES <= bs
    ensures |b| == bs
  {
    StructWidths();
    EncodeVolume(v) + Zeros(bs - VOLUME_BYTES)
  }

  function EntryBlock(e: Entry, bs: nat): (b: seq<byte>)
    requires ENTRY_BYTES <= bs
    ensures |b| == bs
  {
    StructWidths();
    EncodeEntry(e) + Zeros(bs - ENTRY_BYTES)
  }

  // ---- how readers treat a slot ----

  datatype View = NotFound | Open | Finalized | Deleted

  /** chrono_segment_classify. */
  function Classify(e: Entry): View {
    if e.magic != SEGMENT_MAGIC || e.state == STATE_FREE then NotFound
    else if e.state == STATE_FINALIZED then Finalized
    else if e.state == STATE_DELETED then Deleted
    else Open
  }

  /** volume_header_is_valid. */
  predicate VolumeIsValid(v: Volume) {
    v.magic == VOLUME_MAGIC && v.version == FORMAT_VERSION
  }

  /** A zero-filled TOC block is a FREE slot, and no other slot state looks free. */
  lemma ZeroBlockIsFree(n: nat)
    requires ENTRY_BYTES <= n
    ensures Classify(DecodeEntry(Zeros(n))) == NotFound
    ensures DecodeEntry(Zeros(n)).magic == 0
  {
    StructWidths();
    UnpackZeros(ENTRY_WIDTHS, n);
  }
}
