/** A built frame as any other receiver sees it: where each field lies, and the
    checksums checked on the bytes of the frame itself. */
module FrameLayout {
  import opened Bytes
  import opened Packet

  // ---- fields ----

  /** Ethernet II, IPv4 without options, UDP, every field at its place: addresses in
      the order destination, source on Ethernet and source, destination in IPv4. */
  lemma EveryField(a: Addressing, total: nat, body: seq<byte>)
    requires ValidAddressing(a) && total >= 42 && |body| == total - 42
    ensures var f := Frame(a, total, body);
            && |f| == total
            && f[0..6] == a.dstMac && f[6..12] == a.srcMac && f[12..14] == [0x08, 0x00]
            && f[14..16] == [0x45, 0x00] && GetBe16(f, 16) == (total - 14) % 0x1_0000
            && f[18..24] == [0, 0, 0, 0, 64, 17]
            && f[26..30] == a.srcIp && f[30..34] == a.dstIp
            && GetBe16(f, 34) == a.srcPort && GetBe16(f, 36) == a.dstPort
            && GetBe16(f, 38) == (total - 34) % 0x1_0000
            && f[42..] == body
  {
    hide Frame;
    hide EthHeader;
    hide Ipv4Of;
    hide UdpOf;
    hide Be16;
    hide GetBe16;
    FrameParts(a, total, body);
    EthFields(a);
    IpFields(a, total);
    UdpFields(a, total, body);
    var f := Frame(a, total, body);
    GetBe16Slice(f, 16);
    GetBe16Slice(f, 34);
    GetBe16Slice(f, 36);
    GetBe16Slice(f, 38);
    Be16RoundTrip(total - 14);
    Be16RoundTrip(a.srcPort);
    Be16RoundTrip(a.dstPort);
    Be16RoundTrip(total - 34);
  }

  /** The three headers inside the frame. */
  lemma FrameParts(a: Addressing, total: nat, body: seq<byte>)
    requires ValidAddressing(a) && total >= 42 && |body| == total - 42
    ensures var f := Frame(a, total, body);
            var eth, ip, udp := EthHeader(a), Ipv4Of(a, total), UdpOf(a, total, body);
            && |f| == total && |eth| == 14 && |ip| == 20 && |udp| == total - 34
            && f[0..6] == eth[0..6] && f[6..12] == eth[6..12] && f[12..14] == eth[12..14]
            && f[14..34] == ip
            && f[14..16] == ip[0..2] && f[16..18] == ip[2..4] && f[18..24] == ip[4..10]
            && f[26..30] == ip[12..16] && f[30..34] == ip[16..20]
            && f[34..] == udp
            && f[34..36] == udp[0..2] && f[36..38] == udp[2..4] && f[38..40] == udp[4..6]
            && f[40..42] == udp[6..8] && f[42..] == udp[8..]
  {
    hide EthHeader;
    hide Ipv4Of;
    hide UdpOf;
    FrameLength(a, total, body);
    Concat3(EthHeader(a), Ipv4Of(a, total), UdpOf(a, total, body));
  }

  lemma EthFields(a: Addressing)
    requires ValidAddressing(a)
    ensures var eth := EthHeader(a);
            |eth| == 14 && eth[0..6] == a.dstMac && eth[6..12] == a.srcMac && eth[12..14] == [0x08, 0x00]
  {
  }

  lemma IpFields(a: Addressing, total: nat)
    requires ValidAddressing(a) && total >= 42
    ensures var ip := Ipv4Of(a, total);
            && |ip| == 20 && ip[0..2] == [0x45, 0x00] && ip[2..4] == Be16(total - 14)
            && ip[4..10] == [0, 0, 0, 0, 64, 17]
            && ip[12..16] == a.srcIp && ip[16..20] == a.dstIp
  {
    hide IpChecksum;
    hide Sum16;
    var ip := Ipv4Of(a, total);
    var front := Ipv4Front(total - 14);
    assert Be16(0) == [0, 0];
    hide Be16;
    assert front[4..10] == [0, 0, 0, 0, 64, 17];
    assert ip[4..10] == front[4..10];
  }

  lemma UdpFields(a: Addressing, total: nat, body: seq<byte>)
    requires ValidAddressing(a) && total >= 42
    ensures var udp := UdpOf(a, total, body);
            && |udp| == 8 + |body| && udp[0..2] == Be16(a.srcPort) && udp[2..4] == Be16(a.dstPort)
            && udp[4..6] == Be16(total - 34) && udp[8..] == body
  {
    hide UdpChecksum;
    hide Sum16;
    hide Be16;
  }

  /** What follows the UDP header: the sequence number, most significant byte first,
      where there is one, the payload, zeros. */
  lemma BodyLayout(total: nat, withSeq: bool, seqNo: u64, payload: seq<byte>)
    requires AppHdrLen(withSeq) + |payload| <= total
    ensures var body := Body(total, withSeq, seqNo, payload);
            var at := if withSeq then 8 else 0;
            && |body| == total - 42 && at + |payload| <= |body|
            && (withSeq ==> GetBe64(body, 0) == seqNo)
            && body[at..at + |payload|] == payload
            && forall k :: at + |payload| <= k < |body| ==> body[k] == 0
  {
    hide Be64;
    hide GetBe64;
    var body := Body(total, withSeq, seqNo, payload);
    if withSeq {
      assert body[0..8] == Be64(seqNo);
      Be64RoundTrip(seqNo);
      GetBe64Slice(body, 0);
    }
  }

  // ---- checksums ----

  /** Word k of a range, big-endian; a last odd byte is followed by a zero byte. */
  function WordAt(b: seq<byte>, k: nat): nat
    requires 2 * k < |b|
  {
    0x100 * (b[2 * k] as int) + (if 2 * k + 1 < |b| then b[2 * k + 1] as int else 0)
  }

  function WordSum(b: seq<byte>, n: nat): nat
    requires 2 * n <= |b| + 1
  {
    if n == 0 then 0 else WordSum(b, n - 1) + WordAt(b, n - 1)
  }

  /** The sum of all the words of a range. */
  function Words(b: seq<byte>): nat {
    WordSum(b, (|b| + 1) / 2)
  }

  lemma {:induction false} WordSumTail(b: seq<byte>, n: nat)
    requires 0 < n && 2 * n <= |b| + 1 && 2 <= |b|
    ensures WordSum(b, n) == WordAt(b, 0) + WordSum(b[2..], n - 1)
  {
    if n > 1 {
      WordSumTail(b, n - 1);
      assert WordAt(b, n - 1) == WordAt(b[2..], n - 2);
    }
  }

  /** The summing loop of both checksums adds up the words. */
  lemma {:induction false} Sum16IsWords(b: seq<byte>)
    ensures Sum16(b) == Words(b)
    decreases |b|
  {
    if |b| == 1 {
      assert WordSum(b, 1) == WordAt(b, 0);
    } else if |b| >= 2 {
      Sum16IsWords(b[2..]);
      WordSumTail(b, (|b| + 1) / 2);
    }
  }

  lemma FoldsToOnes(s: nat)
    requires Fold(s) == 0xFFFF
    ensures s > 0 && s % 0xFFFF == 0
  {
    hide Fold;
    assert Fold(s) % 0xFFFF == s % 0xFFFF;
  }

  /** A receiver's checks, on the bytes of the frame. The words of the IPv4 header add
      up to a positive multiple of 65535 (RFC 1071). So do the words of the two
      addresses, the protocol number 17, the UDP length and the words of the whole
      segment, and the UDP checksum is not 0, "no checksum" (RFC 768, Fields). */
  lemma ChecksumsHold(a: Addressing, total: nat, body: seq<byte>)
    requires ValidAddressing(a) && 42 <= total <= MAX_PARSED && |body| == total - 42
    ensures var f := Frame(a, total, body);
            && |f| == total
            && Words(f[14..34]) > 0 && Words(f[14..34]) % 0xFFFF == 0
            && GetBe16(f, 40) != 0
            && (var s := Words(f[26..34]) + 17 + GetBe16(f, 38) + Words(f[34..]);
                s > 0 && s % 0xFFFF == 0)
  {
    hide Words;
    hide Frame;
    hide GetBe16;
    FrameParts(a, total, body);
    HeaderHolds(a, total);
    SegmentHolds(a, total, body);
    EveryField(a, total, body);
    var f := Frame(a, total, body);
    assert f[26..34] == a.srcIp + a.dstIp by { AddressesAre(f, a); }
    assert (total - 34) % 0x1_0000 == total - 34;
    GetBe16Slice(f, 40);
    GetBe16Slice(UdpOf(a, total, body), 6);
    hide EthHeader;
    hide Ipv4Of;
    hide UdpOf;
  }

  lemma AddressesAre(f: seq<byte>, a: Addressing)
    requires 34 <= |f| && f[26..30] == a.srcIp && f[30..34] == a.dstIp
    ensures f[26..34] == a.srcIp + a.dstIp
  {
    assert f[26..34] == f[26..30] + f[30..34];
  }

  lemma HeaderHolds(a: Addressing, total: nat)
    requires ValidAddressing(a) && total >= 42
    ensures Words(Ipv4Of(a, total)) > 0 && Words(Ipv4Of(a, total)) % 0xFFFF == 0
  {
    hide Ipv4Of;
    hide Words;
    hide Sum16;
    hide Fold;
    Ipv4ChecksumVerifies(a, total);
    Sum16IsWords(Ipv4Of(a, total));
    FoldsToOnes(Sum16(Ipv4Of(a, total)));
  }

  lemma SegmentHolds(a: Addressing, total: nat, body: seq<byte>)
    requires ValidAddressing(a) && 42 <= total <= MAX_PARSED && |body| == total - 42
    ensures var udp := UdpOf(a, total, body);
            var s := Words(a.srcIp + a.dstIp) + 17 + (total - 34) + Words(udp);
            GetBe16(udp, 6) != 0 && s > 0 && s % 0xFFFF == 0
  {
    hide UdpOf;
    hide Words;
    hide Sum16;
    hide Fold;
    hide UdpChecksum;
    var udp := UdpOf(a, total, body);
    UdpChecksumVerifies(a, total, body);
    Sum16IsWords(udp);
    AddressWords(a.srcIp, a.dstIp);
    FoldsToOnes(PseudoSum(a.srcIp, a.dstIp, total - 34) + Sum16(udp));
    ChecksumField(a, total, body);
  }

  lemma AddressWords(srcIp: seq<byte>, dstIp: seq<byte>)
    requires |srcIp| == 4 && |dstIp| == 4
    ensures Words(srcIp + dstIp)
         == GetBe16(srcIp, 0) + GetBe16(srcIp, 2) + GetBe16(dstIp, 0) + GetBe16(dstIp, 2)
  {
    var b := srcIp + dstIp;
    assert WordSum(b, 1) == WordAt(b, 0);
    assert WordSum(b, 2) == WordSum(b, 1) + WordAt(b, 1);
    assert WordSum(b, 3) == WordSum(b, 2) + WordAt(b, 2);
  }

  lemma ChecksumField(a: Addressing, total: nat, body: seq<byte>)
    requires ValidAddressing(a) && total >= 42
    ensures GetBe16(UdpOf(a, total, body), 6)
         == UdpChecksum(a.srcIp, a.dstIp, UdpSegment(a, total - 34, 0, body))
  {
    hide UdpChecksum;
    hide Sum16;
    hide Be16;
    var c := UdpChecksum(a.srcIp, a.dstIp, UdpSegment(a, total - 34, 0, body));
    var udp := UdpOf(a, total, body);
    assert udp[6..8] == Be16(c);
    GetBe16Slice(udp, 6);
    Be16RoundTrip(c);
  }
}
