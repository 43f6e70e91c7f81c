/** Where each field of record.h lies on the disk, byte by byte, for any bytes at
    all: what another program has to know to read a volume. */
module RecordLayout {
  import opened Bytes
  import opened Record

  /** Four bytes, least significant first. */
  function Le32(b: seq<byte>, off: nat): nat
    requires off + 4 <= |b|
  {
    b[off] as int + 0x100 * (b[off + 1] as int) + 0x1_0000 * (b[off + 2] as int) + 0x100_0000 * (b[off + 3] as int)
  }

  function Le64(b: seq<byte>, off: nat): nat
    requires off + 8 <= |b|
  {
    Le32(b, off) + 0x1_0000_0000 * Le32(b, off + 4)
  }

  lemma FromLEStep(b: seq<byte>, w: nat, off: nat)
    requires 0 < w && off + w <= |b|
    ensures FromLE(b[off..off + w]) == b[off] + 256 * FromLE(b[off + 1..off + w])
  {
    assert b[off..off + w][1..] == b[off + 1..off + w];
  }

  lemma FourBytes(b: seq<byte>, off: nat)
    requires off + 4 <= |b|
    ensures FromLE(b[off..off + 4]) == Le32(b, off)
  {
    FromLEStep(b, 4, off);
    FromLEStep(b, 3, off + 1);
    FromLEStep(b, 2, off + 2);
    FromLEStep(b, 1, off + 3);
    assert b[off + 4..off + 4] == [];
    hide FromLE;
  }

  lemma EightBytes(b: seq<byte>, off: nat)
    requires off + 8 <= |b|
    ensures FromLE(b[off..off + 8]) == Le64(b, off)
  {
    FourBytes(b, off + 4);
    FromLEStep(b, 8, off);
    FromLEStep(b, 7, off + 1);
    FromLEStep(b, 6, off + 2);
    FromLEStep(b, 5, off + 3);
    hide FromLE;
  }

  /** Where field i begins. */
  function Offset(ws: seq<nat>, i: nat): nat
    requires i <= |ws|
  {
    if i == 0 then 0 else Offset(ws, i - 1) + ws[i - 1]
  }

  lemma {:induction false} OffsetOfTail(ws: seq<nat>, i: nat)
    requires 0 < i <= |ws|
    ensures Offset(ws, i) == ws[0] + Offset(ws[1..], i - 1)
  {
    if i > 1 {
      OffsetOfTail(ws, i - 1);
    }
  }

  /** Field i of a struct is read from its own bytes. */
  lemma {:induction false} FieldAt(ws: seq<nat>, b: seq<byte>, i: nat)
    requires i < |ws| && Width(ws) <= |b|
    ensures Offset(ws, i) + ws[i] <= |b|
    ensures Unpack(ws, b)[i] == FromLE(b[Offset(ws, i)..Offset(ws, i) + ws[i]])
  {
    hide FromLE;
    if i > 0 {
      assert Width(ws) == ws[0] + Width(ws[1..]);
      var tail := b[ws[0]..];
      FieldAt(ws[1..], tail, i - 1);
      OffsetOfTail(ws, i);
      var o := Offset(ws[1..], i - 1);
      assert tail[o..o + ws[i]] == b[ws[0] + o..ws[0] + o + ws[i]];
    }
  }

  lemma Field32(ws: seq<nat>, b: seq<byte>, i: nat, off: nat)
    requires i < |ws| && Width(ws) <= |b| && ws[i] == 4 && Offset(ws, i) == off && off + 4 <= |b|
    ensures Unpack(ws, b)[i] == Le32(b, off)
  {
    FieldAt(ws, b, i);
    FourBytes(b, off);
  }

  lemma Field64(ws: seq<nat>, b: seq<byte>, i: nat, off: nat)
    requires i < |ws| && Width(ws) <= |b| && ws[i] == 8 && Offset(ws, i) == off && off + 8 <= |b|
    ensures Unpack(ws, b)[i] == Le64(b, off)
  {
    FieldAt(ws, b, i);
    EightBytes(b, off);
  }

  lemma RecordOffsets()
    ensures var ws := RECORD_WIDTHS;
            Offset(ws, 0) == 0 && Offset(ws, 1) == 8 && Offset(ws, 2) == 16 && Offset(ws, 3) == 24
            && Offset(ws, 4) == 28
  {
    var ws := RECORD_WIDTHS;
    assert Offset(ws, 1) == 8;
    assert Offset(ws, 2) == 16;
    assert Offset(ws, 3) == 24;
    assert Offset(ws, 4) == 28;
  }

  lemma VolumeOffsets()
    ensures var ws := VOLUME_WIDTHS;
            && Offset(ws, 0) == 0 && Offset(ws, 1) == 8 && Offset(ws, 2) == 12 && Offset(ws, 3) == 16
            && Offset(ws, 4) == 20 && Offset(ws, 5) == 24 && Offset(ws, 6) == 32 && Offset(ws, 7) == 40
            && Offset(ws, 8) == 48 && Offset(ws, 9) == 56
  {
    var ws := VOLUME_WIDTHS;
    assert ws == [8, 4, 4, 4, 4, 8, 8, 8, 8, 32];
    assert Offset(ws, 1) == 8;
    assert Offset(ws, 2) == 12;
    assert Offset(ws, 3) == 16;
    assert Offset(ws, 4) == 20;
    assert Offset(ws, 5) == 24;
    assert Offset(ws, 6) == 32;
    assert Offset(ws, 7) == 40;
    assert Offset(ws, 8) == 48;
    assert Offset(ws, 9) == 56;
  }

  lemma EntryOffsets()
    ensures var ws := ENTRY_WIDTHS;
            && Offset(ws, 0) == 0 && Offset(ws, 1) == 8 && Offset(ws, 2) == 12 && Offset(ws, 3) == 16
            && Offset(ws, 4) == 24 && Offset(ws, 5) == 32 && Offset(ws, 6) == 36 && Offset(ws, 7) == 40
            && Offset(ws, 8) == 48 && Offset(ws, 9) == 56 && Offset(ws, 10) == 64 && Offset(ws, 11) == 72
            && Offset(ws, 12) == 80 && Offset(ws, 13) == 88 && Offset(ws, 14) == 92 && Offset(ws, 15) == 96
            && Offset(ws, 16) == 104 && Offset(ws, 17) == 108
  {
    var ws := ENTRY_WIDTHS;
    assert ws == [8, 4, 4, 8, 8, 4, 4, 8, 8, 8, 8, 8, 8, 4, 4, 8, 4, 4];
    assert Offset(ws, 1) == 8;
    assert Offset(ws, 2) == 12;
    assert Offset(ws, 3) == 16;
    assert Offset(ws, 4) == 24;
    assert Offset(ws, 5) == 32;
    assert Offset(ws, 6) == 36;
    assert Offset(ws, 7) == 40;
    assert Offset(ws, 8) == 48;
    assert Offset(ws, 9) == 56;
    assert Offset(ws, 10) == 64;
    assert Offset(ws, 11) == 72;
    assert Offset(ws, 12) == 80;
    assert Offset(ws, 13) == 88;
    assert Offset(ws, 14) == 92;
    assert Offset(ws, 15) == 96;
    assert Offset(ws, 16) == 104;
    assert Offset(ws, 17) == 108;
  }

  // ---- the three structs ----

  lemma UnpackFrom(ws: seq<nat>, b: seq<byte>, off: nat, i: nat, at: nat)
    requires i < |ws| && off <= |b| && Width(ws) <= |b| - off && Offset(ws, i) == at
    requires at + ws[i] <= |b| - off
    ensures ws[i] == 4 ==> Unpack(ws, b[off..])[i] == Le32(b, off + at)
    ensures ws[i] == 8 ==> Unpack(ws, b[off..])[i] == Le64(b, off + at)
  {
    var c := b[off..];
    if ws[i] == 4 {
      Field32(ws, c, i, at);
      assert forall k :: at <= k < at + 4 ==> c[k] == b[off + k];
    } else if ws[i] == 8 {
      Field64(ws, c, i, at);
      assert forall k :: at <= k < at + 8 ==> c[k] == b[off + k];
    }
  }

  /** struct chrono_record_hdr: 32 bytes, anywhere in a chunk. */
  lemma RecordHeaderLayout(b: seq<byte>, off: nat)
    requires off + 32 <= |b|
    ensures HeaderAt(b, off) == RawHeader(Le64(b, off), Le64(b, off + 8), Le64(b, off + 16), Le32(b, off + 24))
  {
    StructWidths();
    RecordOffsets();
    hide Offset;
    hide Width;
    hide Unpack;
    hide Le64;
    hide Le32;
    UnpackFrom(RECORD_WIDTHS, b, off, 0, 0);
    UnpackFrom(RECORD_WIDTHS, b, off, 1, 8);
    UnpackFrom(RECORD_WIDTHS, b, off, 2, 16);
    UnpackFrom(RECORD_WIDTHS, b, off, 3, 24);
  }

  /** An encoded record: "CHRREC1 ", its number, its tsc, its length, four bytes of
      zeros, then the payload. */
  lemma RecordBytes(r: Record)
    requires WellSized(r)
    ensures var b := Encode(r);
            && |b| == 32 + |r.payload| && b[..8] == [67, 72, 82, 82, 69, 67, 49, 32]
            && Le64(b, 8) == r.seqNo && Le64(b, 16) == r.tsc && Le32(b, 24) == |r.payload|
            && b[28..32] == [0, 0, 0, 0] && b[32..] == r.payload
  {
    EncodedFields(r);
    hide EncodeHeader;
    hide Le32;
    hide Le64;
    var b := Encode(r);
    Magics();
    EightIff(b, 0, [67, 72, 82, 82, 69, 67, 49, 32]);
    ZerosAre();
    FourIff(b, 28, [0, 0, 0, 0]);
  }

  lemma ZerosAre()
    ensures Le32([0, 0, 0, 0], 0) == 0
  {
  }

  lemma EncodedFields(r: Record)
    requires WellSized(r)
    ensures var b := Encode(r);
            && Le64(b, 0) == RECORD_MAGIC && Le64(b, 8) == r.seqNo && Le64(b, 16) == r.tsc
            && Le32(b, 24) == |r.payload| && Le32(b, 28) == 0
  {
    StructWidths();
    RecordOffsets();
    PackRoundTrip(RECORD_WIDTHS, HeaderFields(r), r.payload);
    hide Offset;
    hide Width;
    hide Pack;
    hide Unpack;
    hide Le32;
    hide Le64;
    var ws, b := RECORD_WIDTHS, Encode(r);
    assert b[0..] == b == Pack(ws, HeaderFields(r)) + r.payload;
    UnpackFrom(ws, b, 0, 0, 0);
    UnpackFrom(ws, b, 0, 1, 8);
    UnpackFrom(ws, b, 0, 2, 16);
    UnpackFrom(ws, b, 0, 3, 24);
    UnpackFrom(ws, b, 0, 4, 28);
  }

  /** The bytes of a number are determined by it. */
  lemma EightIff(b: seq<byte>, off: nat, c: seq<byte>)
    requires off + 8 <= |b| && |c| == 8
    ensures Le64(b, off) == Le64(c, 0) <==> b[off..off + 8] == c
  {
    FourIff(b, off, c[..4]);
    FourIff(b, off + 4, c[4..]);
    assert b[off..off + 8] == b[off..off + 4] + b[off + 4..off + 8];
    assert c == c[..4] + c[4..];
    assert Le32(c[..4], 0) == Le32(c, 0) && Le32(c[4..], 0) == Le32(c, 4);
    Below32(b, off);
    Below32(c, 0);
    hide Le32;
  }

  lemma Below32(b: seq<byte>, off: nat)
    requires off + 4 <= |b|
    ensures Le32(b, off) < 0x1_0000_0000
  {
  }

  lemma FourIff(b: seq<byte>, off: nat, c: seq<byte>)
    requires off + 4 <= |b| && |c| == 4
    ensures Le32(b, off) == Le32(c, 0) <==> b[off..off + 4] == c
  {
    DigitsIff(b[off], b[off + 1], b[off + 2], b[off + 3], c[0], c[1], c[2], c[3]);
    var d := b[off..off + 4];
    assert d[0] == b[off] && d[1] == b[off + 1] && d[2] == b[off + 2] && d[3] == b[off + 3];
  }

  lemma DigitsIff(a0: byte, a1: byte, a2: byte, a3: byte, c0: byte, c1: byte, c2: byte, c3: byte)
    ensures a0 as int + 0x100 * (a1 as int) + 0x1_0000 * (a2 as int) + 0x100_0000 * (a3 as int)
         == c0 as int + 0x100 * (c1 as int) + 0x1_0000 * (c2 as int) + 0x100_0000 * (c3 as int)
       <==> a0 == c0 && a1 == c1 && a2 == c2 && a3 == c3
  {
  }

  /** struct chrono_volume_header: 88 bytes at the start of block 0. */
  lemma VolumeLayout(b: seq<byte>)
    requires 88 <= |b|
    ensures DecodeVolume(b)
         == Volume(Le64(b, 0), Le32(b, 8), Le32(b, 12), Le32(b, 16), Le32(b, 20),
                   Le64(b, 24), Le64(b, 32), Le64(b, 40), Le64(b, 48))
  {
    StructWidths();
    VolumeOffsets();
    hide Offset;
    hide Width;
    hide Unpack;
    hide Le64;
    hide Le32;
    var ws := VOLUME_WIDTHS;
    assert ws == [8, 4, 4, 4, 4, 8, 8, 8, 8, 32] && b[0..] == b;
    UnpackFrom(ws, b, 0, 0, 0);
    UnpackFrom(ws, b, 0, 1, 8);
    UnpackFrom(ws, b, 0, 2, 12);
    UnpackFrom(ws, b, 0, 3, 16);
    UnpackFrom(ws, b, 0, 4, 20);
    UnpackFrom(ws, b, 0, 5, 24);
    UnpackFrom(ws, b, 0, 6, 32);
    UnpackFrom(ws, b, 0, 7, 40);
    UnpackFrom(ws, b, 0, 8, 48);
  }

  /** struct chrono_segment_entry: 112 bytes at the start of its TOC block. */
  lemma EntryLayout(b: seq<byte>)
    requires 112 <= |b|
    ensures DecodeEntry(b)
         == Entry(Le64(b, 0), Le32(b, 8), Le32(b, 12), Le64(b, 16), Le64(b, 24), Le32(b, 32),
                  Le64(b, 40), Le64(b, 48), Le64(b, 56), Le64(b, 64), Le64(b, 72),
                  Le64(b, 80), Le32(b, 88), Le64(b, 96), Le32(b, 104))
  {
    StructWidths();
    EntryOffsets();
    hide Offset;
    hide Width;
    hide Unpack;
    hide Le64;
    hide Le32;
    var ws := ENTRY_WIDTHS;
    assert ws == [8, 4, 4, 8, 8, 4, 4, 8, 8, 8, 8, 8, 8, 4, 4, 8, 4, 4] && b[0..] == b;
    UnpackFrom(ws, b, 0, 0, 0);
    UnpackFrom(ws, b, 0, 1, 8);
    UnpackFrom(ws, b, 0, 2, 12);
    UnpackFrom(ws, b, 0, 3, 16);
    UnpackFrom(ws, b, 0, 4, 24);
    UnpackFrom(ws, b, 0, 5, 32);
    UnpackFrom(ws, b, 0, 7, 40);
    UnpackFrom(ws, b, 0, 8, 48);
    UnpackFrom(ws, b, 0, 9, 56);
    UnpackFrom(ws, b, 0, 10, 64);
    UnpackFrom(ws, b, 0, 11, 72);
    UnpackFrom(ws, b, 0, 12, 80);
    UnpackFrom(ws, b, 0, 13, 88);
    UnpackFrom(ws, b, 0, 15, 96);
    UnpackFrom(ws, b, 0, 16, 104);
  }

  /** The three alignment gaps of an entry are written as zeros. */
  lemma EntryGaps(e: Entry)
    requires FitsEntry(e)
    ensures |EncodeEntry(e)| == 112
    ensures var b := EncodeEntry(e); Le32(b, 36) == 0 && Le32(b, 92) == 0 && Le32(b, 108) == 0
  {
    StructWidths();
    EntryOffsets();
    hide Offset;
    hide Width;
    hide Unpack;
    hide Pack;
    hide Le32;
    hide Fits;
    hide Pow256;
    PackRoundTrip(ENTRY_WIDTHS, EntryFields(e), []);
    var ws, b := ENTRY_WIDTHS, EncodeEntry(e);
    assert ws == [8, 4, 4, 8, 8, 4, 4, 8, 8, 8, 8, 8, 8, 4, 4, 8, 4, 4] && b[0..] == b == b + [];
    UnpackFrom(ws, b, 0, 6, 36);
    UnpackFrom(ws, b, 0, 14, 92);
    UnpackFrom(ws, b, 0, 17, 108);
  }

  lemma {:induction false} ZeroFromLE(b: seq<byte>, k: nat)
    requires FromLE(b) == 0 && k < |b|
    ensures b[k] == 0
  {
    if k > 0 {
      ZeroFromLE(b[1..], k - 1);
    }
  }

  /** Behind its fields a volume header is all zeros, the reserved words included, and
      so is a TOC block behind its entry. */
  lemma BlocksArePadded(v: Volume, e: Entry, bs: nat)
    requires FitsVolume(v) && FitsEntry(e) && 112 <= bs
    ensures forall k :: 56 <= k < bs ==> VolumeBlock(v, bs)[k] == 0
    ensures forall k :: 112 <= k < bs ==> EntryBlock(e, bs)[k] == 0
  {
    StructWidths();
    VolumeOffsets();
    hide Offset;
    hide Width;
    hide Unpack;
    hide Pack;
    hide Fits;
    hide FromLE;
    var ws, b := VOLUME_WIDTHS, EncodeVolume(v);
    PackRoundTrip(ws, VolumeFields(v), []);
    assert b + [] == b && |ws| == 10 && ws[9] == 32;
    FieldAt(ws, b, 9);
    forall k | 56 <= k < 88 ensures b[k] == 0 {
      ZeroFromLE(b[56..88], k - 56);
    }
  }

  // ---- what the numbers in it mean ----

  /** The magics are the texts "CHRREC1 ", "CHRVOL2 " and "CHRSEG1 ". */
  lemma Magics()
    ensures Le64([67, 72, 82, 82, 69, 67, 49, 32], 0) == RECORD_MAGIC
    ensures Le64([67, 72, 82, 86, 79, 76, 50, 32], 0) == VOLUME_MAGIC
    ensures Le64([67, 72, 82, 83, 69, 71, 49, 32], 0) == SEGMENT_MAGIC
  {
  }

  /** A slot is free unless it is marked "CHRSEG1 " and its state is not 0; then 2 is
      a finalized segment, 3 a deleted one, and any other state an open one. */
  lemma SlotMeans(b: seq<byte>)
    requires 112 <= |b|
    ensures var used := b[..8] == [67, 72, 82, 83, 69, 71, 49, 32] && b[12..16] != [0, 0, 0, 0];
            && (Classify(DecodeEntry(b)) == NotFound <==> !used)
            && (Classify(DecodeEntry(b)) == Finalized <==> used && b[12..16] == [2, 0, 0, 0])
            && (Classify(DecodeEntry(b)) == Deleted <==> used && b[12..16] == [3, 0, 0, 0])
  {
    EntryLayout(b);
    Magics();
    hide Le32;
    hide Le64;
    EightIff(b, 0, [67, 72, 82, 83, 69, 71, 49, 32]);
    StateIs(b, 0);
    StateIs(b, 2);
    StateIs(b, 3);
  }

  lemma StateIs(b: seq<byte>, k: byte)
    requires 112 <= |b|
    ensures Le32(b, 12) == k <==> b[12..16] == [k, 0, 0, 0]
  {
    FourIff(b, 12, [k, 0, 0, 0]);
  }

  /** Block 0 is accepted exactly if it is marked "CHRVOL2 " and version 2. */
  lemma ValidVolumeMeans(b: seq<byte>)
    requires 88 <= |b|
    ensures VolumeIsValid(DecodeVolume(b))
       <==> b[..8] == [67, 72, 82, 86, 79, 76, 50, 32] && b[8..12] == [2, 0, 0, 0]
  {
    VolumeLayout(b);
    Magics();
    assert Le32([2, 0, 0, 0], 0) == 2;
    hide Le32;
    hide Le64;
    EightIff(b, 0, [67, 72, 82, 86, 79, 76, 50, 32]);
    FourIff(b, 8, [2, 0, 0, 0]);
  }
}
