/** The in-place half of common.c: writing a frame into a byte buffer and the
    two checksum loops, proved against the frame and checksums of Packet. */
module PacketBuilder {
  import opened Bytes
  import opened Packet

  // ---- writes into a buffer ----

  /** `now` is `was` with `bs` put at `off`. */
  ghost predicate Patched(was: seq<byte>, now: seq<byte>, off: nat, bs: seq<byte>) {
    off + |bs| <= |was| && now == was[..off] + bs + was[off + |bs|..]
  }

  /** Adjacent writes are one write. */
  lemma PatchNext(a: seq<byte>, b: seq<byte>, c: seq<byte>, off: nat, x: seq<byte>, y: seq<byte>)
    requires Patched(a, b, off, x) && Patched(b, c, off + |x|, y)
    ensures Patched(a, c, off, x + y)
  {
    assert b[..off + |x|] == a[..off] + x;
    assert b[off + |x| + |y|..] == a[off + |x| + |y|..];
  }

  /** A later write over the middle of an earlier one replaces that part. */
  lemma PatchInside(a: seq<byte>, b: seq<byte>, c: seq<byte>, off: nat,
                    x: seq<byte>, z: seq<byte>, y: seq<byte>, z': seq<byte>)
    requires Patched(a, b, off, x + z + y) && Patched(b, c, off + |x|, z') && |z'| == |z|
    ensures Patched(a, c, off, x + z' + y)
  {
    assert b[..off + |x|] == a[..off] + x;
    assert b[off + |x| + |z|..] == y + a[off + |x + z + y|..];
  }

  lemma PatchedSlice(was: seq<byte>, now: seq<byte>, off: nat, bs: seq<byte>)
    requires Patched(was, now, off, bs)
    ensures now[off..off + |bs|] == bs
  {
  }

  /** memcpy into the buffer. */
  method CopyInto(buf: array<byte>, off: nat, src: seq<byte>)
    requires off + |src| <= buf.Length
    modifies buf
    ensures Patched(old(buf[..]), buf[..], off, src)
  {
    forall k | 0 <= k < |src| {
      buf[off + k] := src[k];
    }
    assert buf[..off] == old(buf[..])[..off];
    assert buf[off..off + |src|] == src;
    assert buf[off + |src|..] == old(buf[..])[off + |src|..];
  }

  method PutBe16(buf: array<byte>, off: nat, v: nat)
    requires off + 2 <= buf.Length
    modifies buf
    ensures Patched(old(buf[..]), buf[..], off, Be16(v))
  {
    buf[off] := LowByte(v / 0x100);
    buf[off + 1] := LowByte(v);
  }

  method PutBe32(buf: array<byte>, off: nat, v: nat)
    requires off + 4 <= buf.Length
    modifies buf
    ensures Patched(old(buf[..]), buf[..], off, Be32(v))
  {
    buf[off] := LowByte(v / 0x100_0000);
    buf[off + 1] := LowByte(v / 0x1_0000);
    buf[off + 2] := LowByte(v / 0x100);
    buf[off + 3] := LowByte(v);
  }

  method PutBe64(buf: array<byte>, off: nat, v: u64)
    requires off + 8 <= buf.Length
    modifies buf
    ensures Patched(old(buf[..]), buf[..], off, Be64(v))
  {
    PutBe32(buf, off, v / WORD32 % WORD32);
    ghost var b := buf[..];
    PutBe32(buf, off + 4, v % WORD32);
    PatchNext(old(buf[..]), b, buf[..], off, Be32(v / WORD32 % WORD32), Be32(v % WORD32));
  }

  // ---- checksum loops ----

  /** The 16-bit words of buf[from..from + len], added to `start` in 32 bits. */
  method AddWords(buf: array<byte>, from: nat, len: nat, start: nat) returns (sum: nat)
    requires from + len <= buf.Length && start < WORD32
    ensures sum == (start + Sum16(buf[from..from + len])) % WORD32
  {
    hide Sum16;
    sum := start;
    var i := 0;
    ghost var d := buf[from..from + len];
    SumEnds(d);
    while i + 1 < len
      invariant i % 2 == 0 && i <= len
      invariant sum == (start + Sum16(d[..i])) % WORD32
    {
      SumPrefix(d, i);
      WrapAdd(start + Sum16(d[..i]), GetBe16(d, i));
      sum := (sum + (0x100 * (buf[from + i] as int) + buf[from + i + 1] as int)) % WORD32;
      i := i + 2;
    }
    if len % 2 == 1 {
      WrapAdd(start + Sum16(d[..i]), 0x100 * (d[i] as int));
      sum := (sum + 0x100 * (buf[from + len - 1] as int)) % WORD32;
    }
  }

  /** The empty prefix, the full one, and a last odd byte. */
  lemma SumEnds(d: seq<byte>)
    ensures Sum16(d[..0]) == 0 && d[..|d|] == d
    ensures |d| % 2 == 1 ==> Sum16(d) == Sum16(d[..|d| - 1]) + 0x100 * (d[|d| - 1] as int)
  {
    if |d| % 2 == 1 {
      var i := |d| - 1;
      assert d == d[..i] + [d[i]];
      Sum16Concat(d[..i], [d[i]]);
    }
  }

  lemma SumPrefix(d: seq<byte>, i: nat)
    requires i + 2 <= |d| && i % 2 == 0
    ensures Sum16(d[..i + 2]) == Sum16(d[..i]) + GetBe16(d, i)
  {
    assert d[..i + 2] == d[..i] + d[i..i + 2];
    Sum16Concat(d[..i], d[i..i + 2]);
    GetBe16Slice(d, i);
    assert d[i..i + 2][2..] == [];
  }

  lemma WrapAdd(a: nat, w: nat)
    ensures (a % WORD32 + w) % WORD32 == (a + w) % WORD32
  {
  }

  /** The carry-folding loop, then the complement. */
  method FoldAndInvert(start: nat) returns (c: u16)
    ensures c == Invert16(Fold(start))
  {
    var sum := start;
    while sum / 0x1_0000 != 0
      invariant Fold(sum) == Fold(start)
      decreases sum
    {
      sum := sum % 0x1_0000 + sum / 0x1_0000;
    }
    c := 0xFFFF - sum;
  }

  method ComputeIpChecksum(buf: array<byte>, from: nat, len: nat) returns (c: u16)
    requires from + len <= buf.Length
    ensures c == IpChecksum(buf[from..from + len])
  {
    var sum := AddWords(buf, from, len, 0);
    c := FoldAndInvert(sum);
  }

  method ComputeUdpChecksum(srcIp: seq<byte>, dstIp: seq<byte>, buf: array<byte>, from: nat, len: u32)
    returns (c: u16)
    requires |srcIp| == 4 && |dstIp| == 4
    requires from + len <= buf.Length
    ensures c == UdpChecksum(srcIp, dstIp, buf[from..from + len])
  {
    hide Fold;
    hide Sum16;
    var pseudo := PseudoSum(srcIp, dstIp, len);
    var sum := AddWords(buf, from, len, pseudo % WORD32);
    WrapAdd(pseudo, Sum16(buf[from..from + len]));
    c := FoldAndInvert(sum);
    c := if c == 0 then 0xFFFF else c;
  }

  // ---- the frame, header by header, in the order the source writes it ----

  method WriteEthernet(buf: array<byte>, a: Addressing)
    requires ValidAddressing(a) && 14 <= buf.Length
    modifies buf
    ensures Patched(old(buf[..]), buf[..], 0, EthHeader(a))
  {
    hide Be16;
    ghost var b0 := buf[..];
    CopyInto(buf, 0, a.dstMac);
    ghost var b1 := buf[..];
    CopyInto(buf, 6, a.srcMac);
    ghost var b2 := buf[..];
    PutBe16(buf, 12, 0x0800);
    PatchNext(b0, b1, b2, 0, a.dstMac, a.srcMac);
    PatchNext(b0, b2, buf[..], 0, a.dstMac + a.srcMac, Be16(0x0800));
  }

  method WriteIpv4Front(buf: array<byte>, len: nat)
    requires 24 <= buf.Length
    modifies buf
    ensures Patched(old(buf[..]), buf[..], 14, Ipv4Front(len))
  {
    hide Be16;
    ghost var b0 := buf[..];
    CopyInto(buf, 14, [0x45, 0x00]);
    ghost var b1 := buf[..];
    PutBe16(buf, 16, len);
    ghost var b2 := buf[..];
    PutBe16(buf, 18, 0);
    ghost var b3 := buf[..];
    PutBe16(buf, 20, 0);
    ghost var b4 := buf[..];
    CopyInto(buf, 22, [64, 17]);
    PatchNext(b0, b1, b2, 14, [0x45, 0], Be16(len));
    PatchNext(b0, b2, b3, 14, [0x45, 0] + Be16(len), Be16(0));
    PatchNext(b0, b3, b4, 14, [0x45, 0] + Be16(len) + Be16(0), Be16(0));
    PatchNext(b0, b4, buf[..], 14, [0x45, 0] + Be16(len) + Be16(0) + Be16(0), [64, 17]);
  }

  method WriteIpv4(buf: array<byte>, a: Addressing, total: nat)
    requires ValidAddressing(a) && 42 <= total <= buf.Length
    modifies buf
    ensures Patched(old(buf[..]), buf[..], 14, Ipv4Of(a, total))
  {
    hide Be16;
    hide Ipv4Front;
    hide IpChecksum;
    var len := total - ETH_HDR_LEN;
    ghost var b0 := buf[..];
    WriteIpv4Front(buf, len);
    ghost var b1 := buf[..];
    PutBe16(buf, 24, 0);
    ghost var b2 := buf[..];
    CopyInto(buf, 26, a.srcIp);
    ghost var b3 := buf[..];
    CopyInto(buf, 30, a.dstIp);
    ghost var b4 := buf[..];
    PatchNext(b0, b1, b2, 14, Ipv4Front(len), Be16(0));
    PatchNext(b2, b3, b4, 26, a.srcIp, a.dstIp);
    PatchNext(b0, b2, b4, 14, Ipv4Front(len) + Be16(0), a.srcIp + a.dstIp);
    PatchedSlice(b0, b4, 14, Ipv4Header(a, len, 0));
    var c := ComputeIpChecksum(buf, 14, IPV4_HDR_LEN);
    PutBe16(buf, 24, c);
    PatchInside(b0, b4, buf[..], 14, Ipv4Front(len), Be16(0), a.srcIp + a.dstIp, Be16(c));
  }

  method WriteUdpFront(buf: array<byte>, a: Addressing, len: nat)
    requires 42 <= buf.Length
    modifies buf
    ensures Patched(old(buf[..]), buf[..], 34, UdpFront(a, len) + Be16(0))
  {
    hide Be16;
    ghost var b0 := buf[..];
    PutBe16(buf, 34, a.srcPort);
    ghost var b1 := buf[..];
    PutBe16(buf, 36, a.dstPort);
    ghost var b2 := buf[..];
    PutBe16(buf, 38, len);
    ghost var b3 := buf[..];
    PutBe16(buf, 40, 0);
    PatchNext(b0, b1, b2, 34, Be16(a.srcPort), Be16(a.dstPort));
    PatchNext(b0, b2, b3, 34, Be16(a.srcPort) + Be16(a.dstPort), Be16(len));
    PatchNext(b0, b3, buf[..], 34, UdpFront(a, len), Be16(0));
  }

  lemma PatchNothing(b: seq<byte>, off: nat)
    requires off <= |b|
    ensures Patched(b, b, off, [])
  {
  }

  method WriteSeq(buf: array<byte>, withSeq: bool, seqNo: u64)
    requires AppHdrLen(withSeq) <= buf.Length
    modifies buf
    ensures Patched(old(buf[..]), buf[..], 42, SeqPrefix(withSeq, seqNo))
  {
    hide Be64;
    if withSeq {
      PutBe64(buf, 42, seqNo);
    } else {
      PatchNothing(buf[..], 42);
    }
  }

  method WriteBody(buf: array<byte>, total: nat, withSeq: bool, seqNo: u64, payload: seq<byte>)
    requires AppHdrLen(withSeq) + |payload| <= total <= buf.Length
    modifies buf
    ensures Patched(old(buf[..]), buf[..], 42, Body(total, withSeq, seqNo, payload))
  {
    hide SeqPrefix;
    hide Zeros;
    ghost var b0 := buf[..];
    WriteSeq(buf, withSeq, seqNo);
    ghost var b1 := buf[..];
    var at := 42 + (if withSeq then SEQ_LEN else 0);
    PatchNothing(b1, at);
    if |payload| > 0 {
      CopyInto(buf, at, payload);
    }
    ghost var b2 := buf[..];
    PatchNext(b0, b1, b2, 42, SeqPrefix(withSeq, seqNo), payload);
    var used := AppHdrLen(withSeq) + |payload|;
    PatchNothing(b2, used);
    if used < total {
      CopyInto(buf, used, Zeros(total - used));
    }
    PatchNext(b0, b2, buf[..], 42, SeqPrefix(withSeq, seqNo) + payload, Zeros(total - used));
  }

  method WriteUdp(buf: array<byte>, a: Addressing, total: u32, withSeq: bool, seqNo: u64,
                  payload: seq<byte>)
    requires ValidAddressing(a)
    requires AppHdrLen(withSeq) + |payload| <= total <= buf.Length
    modifies buf
    ensures Patched(old(buf[..]), buf[..], 34,
                    UdpOf(a, total, Body(total, withSeq, seqNo, payload)))
  {
    hide Be16;
    hide UdpFront;
    hide UdpChecksum;
    hide Body;
    var len := total - ETH_HDR_LEN - IPV4_HDR_LEN;
    ghost var body := Body(total, withSeq, seqNo, payload);
    ghost var b0 := buf[..];
    WriteUdpFront(buf, a, len);
    ghost var b1 := buf[..];
    WriteBody(buf, total, withSeq, seqNo, payload);
    ghost var b2 := buf[..];
    PatchNext(b0, b1, b2, 34, UdpFront(a, len) + Be16(0), body);
    assert UdpFront(a, len) + Be16(0) + body == UdpSegment(a, len, 0, body);
    PatchedSlice(b0, b2, 34, UdpSegment(a, len, 0, body));
    var c := ComputeUdpChecksum(a.srcIp, a.dstIp, buf, 34, len);
    PutBe16(buf, 40, c);
    PatchInside(b0, b2, buf[..], 34, UdpFront(a, len), Be16(0), body, Be16(c));
  }

  /** app_build_packet: refuses a frame that cannot hold its contents or does
      not fit the buffer, and otherwise writes exactly the frame. */
  method BuildPacket(buf: array<byte>, capacity: u32, total: u32, a: Addressing, withSeq: bool,
                     seqNo: u64, payload: seq<byte>) returns (rc: int)
    requires ValidAddressing(a) && capacity <= buf.Length
    requires |payload| < WORD32
    requires AppHdrLen(withSeq) + |payload| >= WORD32 ==>
               total < (AppHdrLen(withSeq) + |payload|) % WORD32 || total > capacity
    modifies buf
    ensures rc == 0 || rc == -1
    ensures rc == 0 <==> AppHdrLen(withSeq) + |payload| <= total <= capacity
    ensures rc == -1 ==> buf[..] == old(buf[..])
    ensures rc == 0 ==>
              && buf[..total] == Frame(a, total, Body(total, withSeq, seqNo, payload))
              && buf[total..] == old(buf[..])[total..]
  {
    hide EthHeader;
    hide Ipv4Of;
    hide UdpOf;
    hide Body;
    if total < (AppHdrLen(withSeq) + |payload|) % WORD32 || total > capacity {
      return -1;
    }
    ghost var body := Body(total, withSeq, seqNo, payload);
    FrameLength(a, total, body);
    ghost var b0 := buf[..];
    WriteEthernet(buf, a);
    ghost var b1 := buf[..];
    WriteIpv4(buf, a, total);
    ghost var b2 := buf[..];
    WriteUdp(buf, a, total, withSeq, seqNo, payload);
    PatchNext(b0, b1, b2, 0, EthHeader(a), Ipv4Of(a, total));
    PatchNext(b0, b2, buf[..], 0, EthHeader(a) + Ipv4Of(a, total), UdpOf(a, total, body));
    FrameIs(a, total, body);
    rc := 0;
  }
}
