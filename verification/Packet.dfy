/** common.c: the Ethernet/IPv4/UDP frame builder and parser, and the two
    one's-complement checksums. */
module Packet {
  import opened Bytes

  const ETHER_ADDR_LEN: nat := 6
  const ETH_HDR_LEN: nat := 14
  const IPV4_HDR_LEN: nat := 20
  const UDP_HDR_LEN: nat := 8
  const SEQ_LEN: nat := 8
  const MAX_IP_LEN: nat := 65535
  const MAX_PARSED: nat := ETH_HDR_LEN + IPV4_HDR_LEN + MAX_IP_LEN // largest frame whose UDP length fits
  const WORD32: nat := 0x1_0000_0000

  function AppHdrLen(withSeq: bool): (n: nat)
    ensures n == 42 || n == 50
  {
    ETH_HDR_LEN + IPV4_HDR_LEN + UDP_HDR_LEN + (if withSeq then SEQ_LEN else 0)
  }

  // ---- big-endian fields ----

  function LowByte(v: nat): byte {
    v % 0x100
  }

  function Be16(v: nat): (b: seq<byte>)
    ensures |b| == 2
  {
    [LowByte(v / 0x100), LowByte(v)]
  }

  function Be32(v: nat): (b: seq<byte>)
    ensures |b| == 4
  {
    [LowByte(v / 0x100_0000), LowByte(v / 0x1_0000), LowByte(v / 0x100), LowByte(v)]
  }

  function Be64(v: nat): (b: seq<byte>)
    ensures |b| == 8
  {
    Be32(v / WORD32 % WORD32) + Be32(v % WORD32)
  }

  function GetBe16(b: seq<byte>, off: nat): u16
    requires off + 2 <= |b|
  {
    0x100 * (b[off] as int) + b[off + 1] as int
  }

  function GetBe32(b: seq<byte>, off: nat): u32
    requires off + 4 <= |b|
  {
    0x100_0000 * (b[off] as int) + 0x1_0000 * (b[off + 1] as int)
    + 0x100 * (b[off + 2] as int) + b[off + 3] as int
  }

  function GetBe64(b: seq<byte>, off: nat): u64
    requires off + 8 <= |b|
  {
    WORD32 * GetBe32(b, off) + GetBe32(b, off + 4)
  }

  lemma Be16RoundTrip(v: nat)
    ensures GetBe16(Be16(v), 0) == v % 0x1_0000
  {
  }

  lemma Be32RoundTrip(v: u32)
    ensures GetBe32(Be32(v), 0) == v
  {
    var a := v / 0x100;
    var b := a / 0x100;
    assert v / 0x1_0000 == b;
    assert v / 0x100_0000 == b / 0x100;
    assert v == 0x100 * a + v % 0x100;
    assert a == 0x100 * b + a % 0x100;
    assert b == 0x100 * (b / 0x100) + b % 0x100;
  }

  lemma Be64RoundTrip(v: u64)
    ensures GetBe64(Be64(v), 0) == v
  {
    hide Be32;
    var hi, lo := v / WORD32, v % WORD32;
    assert v == WORD32 * hi + lo && hi < WORD32;
    Be32RoundTrip(hi);
    Be32RoundTrip(lo);
    assert GetBe32(Be64(v), 0) == GetBe32(Be32(hi), 0);
    assert GetBe32(Be64(v), 4) == GetBe32(Be32(lo), 0);
  }

  // ---- one's-complement sums ----

  /** The sum of 16-bit big-endian words; a last odd byte counts as a high byte. */
  function Sum16(b: seq<byte>): nat {
    if |b| == 0 then 0
    else if |b| == 1 then 0x100 * b[0]
    else GetBe16(b, 0) + Sum16(b[2..])
  }

  /** The carry-folding loop shared by both checksums. */
  function Fold(s: nat): (r: nat)
    ensures r < 0x1_0000
    ensures r % 0xFFFF == s % 0xFFFF
    ensures r == 0 <==> s == 0
    decreases s
  {
    if s < 0x1_0000 then s
    else
      assert s == 0x1_0000 * (s / 0x1_0000) + s % 0x1_0000;
      assert s % 0x1_0000 + s / 0x1_0000 == s - 0xFFFF * (s / 0x1_0000);
      FoldStep(s);
      Fold(s % 0x1_0000 + s / 0x1_0000)
  }

  lemma FoldStep(s: nat)
    ensures (s % 0x1_0000 + s / 0x1_0000) % 0xFFFF == s % 0xFFFF
  {
    var q := s / 0x1_0000;
    assert s == (s % 0x1_0000 + q) + 0xFFFF * q;
  }

  function Invert16(s: nat): u16
    requires s < 0x1_0000
  {
    0xFFFF - s
  }

  /** ip_checksum, in 32-bit arithmetic. */
  function IpChecksum(hdr: seq<byte>): u16 {
    Invert16(Fold(Sum16(hdr) % WORD32))
  }

  /** The UDP pseudo-header of the Fields section of RFC 768. */
  function PseudoSum(srcIp: seq<byte>, dstIp: seq<byte>, udpLen: nat): nat
    requires |srcIp| == 4 && |dstIp| == 4
  {
    GetBe16(srcIp, 0) + GetBe16(srcIp, 2) + GetBe16(dstIp, 0) + GetBe16(dstIp, 2) + 17 + udpLen
  }

  /** udp_checksum, in 32-bit arithmetic; a result of 0 goes out as all ones. */
  function UdpChecksum(srcIp: seq<byte>, dstIp: seq<byte>, udp: seq<byte>): (c: u16)
    requires |srcIp| == 4 && |dstIp| == 4
    ensures c != 0
  {
    var c := Invert16(Fold((PseudoSum(srcIp, dstIp, |udp|) + Sum16(udp)) % WORD32));
    if c == 0 then 0xFFFF else c
  }

  lemma {:induction false} Sum16Concat(a: seq<byte>, b: seq<byte>)
    requires |a| % 2 == 0
    ensures Sum16(a + b) == Sum16(a) + Sum16(b)
    decreases |a|
  {
    if a == [] {
      assert a + b == b;
    } else {
      assert (a + b)[2..] == a[2..] + b;
      Sum16Concat(a[2..], b);
    }
  }

  lemma {:induction false} Sum16Bound(b: seq<byte>)
    ensures 2 * Sum16(b) <= 0xFFFF * (|b| + 1)
    decreases |b|
  {
    if |b| >= 2 {
      Sum16Bound(b[2..]);
    }
  }

  lemma Sum16Word(v: u16)
    ensures Sum16(Be16(v)) == v
  {
    assert Be16(v)[2..] == [];
  }

  /** Filling a zeroed checksum word raises the sum by exactly that word. */
  lemma SumWithChecksum(a: seq<byte>, c: u16, b: seq<byte>)
    requires |a| % 2 == 0
    ensures Sum16(a + Be16(c) + b) == Sum16(a + Be16(0) + b) + c
  {
    Sum16Word(c);
    Sum16Word(0);
    Sum16Concat(a, Be16(c));
    Sum16Concat(a, Be16(0));
    Sum16Concat(a + Be16(c), b);
    Sum16Concat(a + Be16(0), b);
  }

  /** A positive sum completed by the complement of its fold folds to all ones. */
  lemma ComplementVerifies(s: nat, c: nat)
    requires s > 0
    requires c == 0xFFFF - Fold(s) || (Fold(s) == 0xFFFF && c == 0xFFFF)
    ensures Fold(s + c) == 0xFFFF
  {
    hide Fold;
    var f := Fold(s);
    assert s == 0xFFFF * (s / 0xFFFF) + s % 0xFFFF;
    assert f == 0xFFFF * (f / 0xFFFF) + s % 0xFFFF;
    assert s + c == 0xFFFF * (s / 0xFFFF - f / 0xFFFF) + f + c;
    assert (s + c) % 0xFFFF == 0;
    var r := Fold(s + c);
    assert r % 0xFFFF == 0 && 0 < r < 0x1_0000;
  }

  // ---- the frame ----

  datatype Addressing = Addressing(
    dstMac: seq<byte>, srcMac: seq<byte>, srcIp: seq<byte>, dstIp: seq<byte>,
    srcPort: u16, dstPort: u16)

  ghost predicate ValidAddressing(a: Addressing) {
    && |a.dstMac| == ETHER_ADDR_LEN && |a.srcMac| == ETHER_ADDR_LEN
    && |a.srcIp| == 4 && |a.dstIp| == 4
  }

  function EthHeader(a: Addressing): seq<byte> {
    a.dstMac + a.srcMac + Be16(0x0800)
  }

  function Ipv4Front(len: nat): (b: seq<byte>)
    ensures |b| == 10
  {
    [0x45, 0] + Be16(len) + Be16(0) + Be16(0) + [64, 17]
  }

  function Ipv4Header(a: Addressing, len: nat, checksum: nat): seq<byte> {
    Ipv4Front(len) + Be16(checksum) + (a.srcIp + a.dstIp)
  }

  function UdpFront(a: Addressing, len: nat): (b: seq<byte>)
    ensures |b| == 6
  {
    Be16(a.srcPort) + Be16(a.dstPort) + Be16(len)
  }

  function UdpSegment(a: Addressing, len: nat, checksum: nat, body: seq<byte>): (b: seq<byte>)
    ensures |b| == 8 + |body|
  {
    UdpFront(a, len) + Be16(checksum) + body
  }

  function SeqPrefix(withSeq: bool, seqNo: u64): (b: seq<byte>)
    ensures |b| == if withSeq then SEQ_LEN else 0
  {
    if withSeq then Be64(seqNo) else []
  }

  /** Sequence prefix, payload, zero padding up to the total length. */
  function Body(total: nat, withSeq: bool, seqNo: u64, payload: seq<byte>): (b: seq<byte>)
    requires AppHdrLen(withSeq) + |payload| <= total
    ensures |b| == total - 42
  {
    SeqPrefix(withSeq, seqNo) + payload + Zeros(total - AppHdrLen(withSeq) - |payload|)
  }

  function Ipv4Of(a: Addressing, total: nat): seq<byte>
    requires total >= 42
  {
    Ipv4Header(a, total - 14, IpChecksum(Ipv4Header(a, total - 14, 0)))
  }

  function UdpOf(a: Addressing, total: nat, body: seq<byte>): seq<byte>
    requires |a.srcIp| == 4 && |a.dstIp| == 4 && total >= 42
  {
    UdpSegment(a, total - 34, UdpChecksum(a.srcIp, a.dstIp, UdpSegment(a, total - 34, 0, body)), body)
  }

  /** The whole frame app_build_packet writes. */
  function Frame(a: Addressing, total: nat, body: seq<byte>): seq<byte>
    requires |a.srcIp| == 4 && |a.dstIp| == 4 && total >= 42
  {
    EthHeader(a) + Ipv4Of(a, total) + UdpOf(a, total, body)
  }

  // ---- checksums of a built frame verify ----

  /** RFC 791, section 3.1, with the arithmetic of RFC 1071: the header sum,
      checksum included, folds to all ones. */
  lemma Ipv4ChecksumVerifies(a: Addressing, total: nat)
    requires ValidAddressing(a) && total >= 42
    ensures Fold(Sum16(Ipv4Of(a, total))) == 0xFFFF
  {
    var h0 := Ipv4Header(a, total - 14, 0);
    var c := IpChecksum(h0);
    var rest := a.srcIp + a.dstIp;
    hide Ipv4Front;
    hide Sum16;
    hide Fold;
    hide Be16;
    SumWithChecksum(Ipv4Front(total - 14), c, rest);
    assert |h0| == 20;
    Sum16Bound(h0);
    assert Sum16(h0) % WORD32 == Sum16(h0);
    Ipv4SumPositive(a, total - 14);
    ComplementVerifies(Sum16(h0), c);
  }

  lemma Ipv4SumPositive(a: Addressing, len: nat)
    ensures Sum16(Ipv4Header(a, len, 0)) > 0
  {
    assert GetBe16(Ipv4Header(a, len, 0), 0) == 0x4500;
  }

  /** RFC 768, Fields: the sum over pseudo-header and segment, checksum
      included, folds to all ones, and the transmitted checksum is never 0.
      The 32-bit accumulator does not overflow at any 16-bit length. */
  lemma UdpChecksumVerifies(a: Addressing, total: nat, body: seq<byte>)
    requires ValidAddressing(a)
    requires 42 <= total <= MAX_PARSED && |body| == total - 42
    ensures var seg0 := UdpSegment(a, total - 34, 0, body);
            PseudoSum(a.srcIp, a.dstIp, total - 34) + Sum16(seg0) < WORD32
    ensures UdpChecksum(a.srcIp, a.dstIp, UdpSegment(a, total - 34, 0, body)) != 0
    ensures Fold(PseudoSum(a.srcIp, a.dstIp, total - 34) + Sum16(UdpOf(a, total, body))) == 0xFFFF
  {
    var seg0 := UdpSegment(a, total - 34, 0, body);
    var c := UdpChecksum(a.srcIp, a.dstIp, seg0);
    var s := PseudoSum(a.srcIp, a.dstIp, total - 34) + Sum16(seg0);
    hide UdpFront;
    hide Sum16;
    hide Fold;
    hide Be16;
    Sum16Bound(seg0);
    SmallModulo(s);
    SumWithChecksum(UdpFront(a, total - 34), c, body);
    ComplementVerifies(s, c);
  }

  lemma SmallModulo(s: nat)
    requires s < WORD32
    ensures s % WORD32 == s
  {
  }

  // ---- parsing ----

  datatype Parsed = Parsed(dstPort: u16, seqNo: u64, payload: seq<byte>)

  /** app_parse_packet on the `|b|` bytes of a frame; None is its -1. */
  function Parse(b: seq<byte>, withSeq: bool): (p: Option<Parsed>)
    ensures p.Some? ==> |p.value.payload| + AppHdrLen(withSeq) <= |b| && |p.value.payload| <= MAX_IP_LEN
  {
    var seqLen := if withSeq then SEQ_LEN else 0;
    if |b| < ETH_HDR_LEN + IPV4_HDR_LEN then None
    else if GetBe16(b, 12) != 0x0800 then None
    else if b[14] / 16 != 4 then None
    else
      var ihl := b[14] % 16 * 4;
      if ihl < IPV4_HDR_LEN || |b| < ETH_HDR_LEN + ihl + UDP_HDR_LEN then None
      else if b[23] != 17 then None
      else
        var udp := ETH_HDR_LEN + ihl;
        var udpLen := GetBe16(b, udp + 4);
        if udpLen < UDP_HDR_LEN + seqLen || udp + udpLen > |b| then None
        else
          var body := udp + UDP_HDR_LEN;
          Some(Parsed(GetBe16(b, udp + 2), if withSeq then GetBe64(b, body) else 0,
                      b[body + seqLen..udp + udpLen]))
  }

  /** `b` carries an IPv4 UDP datagram from byte `udp` on, inside the frame, that
      is addressed to `p`'s port and holds its sequence number and its payload. */
  ghost predicate Carries(b: seq<byte>, withSeq: bool, udp: nat, p: Parsed) {
    var from := udp + UDP_HDR_LEN + if withSeq then SEQ_LEN else 0;
    && ETH_HDR_LEN + IPV4_HDR_LEN <= udp && from + |p.payload| <= |b|
    && GetBe16(b, 12) == 0x0800 && b[23] == 17
    && b[ETH_HDR_LEN] == 0x40 + (udp - ETH_HDR_LEN) / 4 && (udp - ETH_HDR_LEN) % 4 == 0 && udp - ETH_HDR_LEN <= 60
    && GetBe16(b, udp + 2) == p.dstPort
    && GetBe16(b, udp + 4) == from - udp + |p.payload|
    && p.seqNo == (if withSeq then GetBe64(b, udp + UDP_HDR_LEN) else 0)
    && b[from..from + |p.payload|] == p.payload
  }

  /** Whatever the bytes: a frame is parsed exactly if it carries a datagram, and
      then to that datagram's port, sequence number and payload. */
  lemma ParsesIffCarries(b: seq<byte>, withSeq: bool, p: Parsed)
    ensures Parse(b, withSeq) == Some(p) <==> exists udp: nat :: Carries(b, withSeq, udp, p)
  {
    hide GetBe16;
    hide GetBe64;
    if Parse(b, withSeq) == Some(p) {
      ParsedIsCarried(b, withSeq, p);
    }
    if udp: nat :| Carries(b, withSeq, udp, p) {
      CarriedIsParsed(b, withSeq, udp, p);
    }
  }

  lemma ParsedIsCarried(b: seq<byte>, withSeq: bool, p: Parsed)
    requires Parse(b, withSeq) == Some(p)
    ensures exists udp: nat :: Carries(b, withSeq, udp, p)
  {
    hide GetBe16;
    hide GetBe64;
    assert Carries(b, withSeq, ETH_HDR_LEN + b[14] % 16 * 4, p);
  }

  lemma CarriedIsParsed(b: seq<byte>, withSeq: bool, udp: nat, p: Parsed)
    requires Carries(b, withSeq, udp, p)
    ensures Parse(b, withSeq) == Some(p)
  {
    hide GetBe16;
    hide GetBe64;
    var words := (udp - ETH_HDR_LEN) / 4;
    assert udp == ETH_HDR_LEN + words * 4 && 5 <= words <= 15;
    assert b[14] / 16 == 4 && b[14] % 16 == words;
  }

  lemma FrameLength(a: Addressing, total: nat, body: seq<byte>)
    requires ValidAddressing(a) && total >= 42 && |body| == total - 42
    ensures |EthHeader(a)| == 14 && |Ipv4Of(a, total)| == 20 && |UdpOf(a, total, body)| == total - 34
    ensures |Frame(a, total, body)| == total
  {
  }

  /** Where the parser looks, a built frame holds what the builder was given. */
  lemma FrameFields(a: Addressing, total: nat, body: seq<byte>)
    requires ValidAddressing(a) && total >= 42 && |body| == total - 42
    ensures var f := Frame(a, total, body);
            && |f| == total
            && GetBe16(f, 12) == 0x0800 && f[14] == 0x45 && f[23] == 17
            && GetBe16(f, 36) == a.dstPort
            && GetBe16(f, 38) == (total - 34) % 0x1_0000
            && f[42..] == body
  {
    hide EthHeader;
    hide Ipv4Of;
    hide UdpOf;
    hide Be16;
    FrameLength(a, total, body);
    SegmentFields(a, total, body);
    var eth, ip, udp := EthHeader(a), Ipv4Of(a, total), UdpOf(a, total, body);
    Concat3(eth, ip, udp);
    var f := Frame(a, total, body);
    assert f[12..14] == eth[12..];
    assert f[14] == ip[0] && f[23] == ip[9];
    assert f[36..38] == udp[2..4] && f[38..40] == udp[4..6];
    GetBe16Slice(f, 12);
    GetBe16Slice(f, 36);
    GetBe16Slice(f, 38);
    Be16RoundTrip(0x0800);
    Be16RoundTrip(a.dstPort);
    Be16RoundTrip(total - 34);
  }

  lemma FrameIs(a: Addressing, total: nat, body: seq<byte>)
    requires |a.srcIp| == 4 && |a.dstIp| == 4 && total >= 42
    ensures Frame(a, total, body) == EthHeader(a) + Ipv4Of(a, total) + UdpOf(a, total, body)
  {
  }

  lemma Concat3(a: seq<byte>, b: seq<byte>, c: seq<byte>)
    ensures var f := a + b + c;
            && f[..|a|] == a && f[|a|..|a| + |b|] == b && f[|a| + |b|..] == c
            && (forall k :: 0 <= k < |b| ==> f[|a| + k] == b[k])
  {
  }

  lemma GetBe16Slice(b: seq<byte>, off: nat)
    requires off + 2 <= |b|
    ensures GetBe16(b, off) == GetBe16(b[off..off + 2], 0)
  {
  }

  lemma SegmentFields(a: Addressing, total: nat, body: seq<byte>)
    requires ValidAddressing(a) && total >= 42
    ensures EthHeader(a)[12..] == Be16(0x0800)
    ensures Ipv4Of(a, total)[0] == 0x45 && Ipv4Of(a, total)[9] == 17
    ensures UdpOf(a, total, body)[2..4] == Be16(a.dstPort)
    ensures UdpOf(a, total, body)[4..6] == Be16(total - 34)
    ensures UdpOf(a, total, body)[8..] == body
  {
    hide Sum16;
    hide UdpChecksum;
    hide IpChecksum;
    hide Be16;
  }

  /** What a successful parse of a built frame has to return: the destination
      port, the sequence number (0 without one) and the payload, zero-padded to
      the total length. */
  function Sent(a: Addressing, total: nat, withSeq: bool, seqNo: u64, payload: seq<byte>): Parsed
    requires AppHdrLen(withSeq) + |payload| <= total
  {
    Parsed(a.dstPort, if withSeq then seqNo else 0,
           payload + Zeros(total - AppHdrLen(withSeq) - |payload|))
  }

  /** The builder cuts the IP total length to 16 bits, so the header tells the
      truth exactly up to 14 + 65535 bytes. The parser never looks at it. */
  lemma IpLengthField(a: Addressing, total: nat, body: seq<byte>)
    requires ValidAddressing(a) && total >= 42 && |body| == total - 42
    ensures GetBe16(Ipv4Of(a, total), 2) == total - ETH_HDR_LEN <==> total <= ETH_HDR_LEN + MAX_IP_LEN
  {
    hide Be16;
    hide Sum16;
    hide IpChecksum;
    var ip := Ipv4Of(a, total);
    assert ip[2..4] == Be16(total - 14);
    GetBe16Slice(ip, 2);
    Be16RoundTrip(total - 14);
  }

  /** Packet round trip, with its exact limit: a built frame parses back to
      what was sent if and only if its UDP length fits the 16-bit field. */
  lemma PacketRoundTrip(a: Addressing, total: nat, withSeq: bool, seqNo: u64, payload: seq<byte>)
    requires ValidAddressing(a) && AppHdrLen(withSeq) + |payload| <= total
    ensures var f := Frame(a, total, Body(total, withSeq, seqNo, payload));
            Parse(f, withSeq) == Some(Sent(a, total, withSeq, seqNo, payload))
            <==> total <= MAX_PARSED
  {
    hide Frame;
    hide Body;
    hide Zeros;
    hide Be64;
    hide GetBe64;
    var body := Body(total, withSeq, seqNo, payload);
    var f := Frame(a, total, body);
    FrameFields(a, total, body);
    if total <= MAX_PARSED {
      ParseFits(f, total, withSeq);
      BodyParts(total, withSeq, seqNo, payload);
      var seqLen := if withSeq then SEQ_LEN else 0;
      assert f[42 + seqLen..total] == f[42..][seqLen..];
      if withSeq {
        assert f[42..50] == f[42..][..8] == Be64(seqNo);
        Be64RoundTrip(seqNo);
        GetBe64Slice(f, 42);
      }
    } else {
      assert (total - 34) % 0x1_0000 < total - 34;
      assert |Sent(a, total, withSeq, seqNo, payload).payload| == total - AppHdrLen(withSeq);
    }
  }

  lemma ParseFits(f: seq<byte>, total: nat, withSeq: bool)
    requires |f| == total && AppHdrLen(withSeq) <= total <= MAX_PARSED
    requires GetBe16(f, 12) == 0x0800 && f[14] == 0x45 && f[23] == 17
    requires GetBe16(f, 38) == total - 34
    ensures var seqLen := if withSeq then SEQ_LEN else 0;
            Parse(f, withSeq) == Some(Parsed(GetBe16(f, 36), if withSeq then GetBe64(f, 42) else 0,
                                             f[42 + seqLen..total]))
  {
    hide GetBe64;
  }

  lemma BodyParts(total: nat, withSeq: bool, seqNo: u64, payload: seq<byte>)
    requires AppHdrLen(withSeq) + |payload| <= total
    ensures var body := Body(total, withSeq, seqNo, payload);
            var seqLen := if withSeq then SEQ_LEN else 0;
            && body[..seqLen] == SeqPrefix(withSeq, seqNo)
            && body[seqLen..] == payload + Zeros(total - AppHdrLen(withSeq) - |payload|)
  {
    hide Zeros;
  }

  lemma GetBe64Slice(b: seq<byte>, off: nat)
    requires off + 8 <= |b|
    ensures GetBe64(b, off) == GetBe64(b[off..off + 8], 0)
  {
    var c := b[off..off + 8];
    assert forall k :: 0 <= k < 8 ==> c[k] == b[off + k];
  }
}
