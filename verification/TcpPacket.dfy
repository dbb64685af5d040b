/** The packets of internal/tunproxy/proxy_interface.go: how `constructTCPPacket` builds them and
    how `SendPacket` takes them apart (section 3.1 of RFC 791, section 3.1 of RFC 9293). */
module TcpPacket {
  import opened Bytes
  import opened Checksum

  /** `ip.To4()`; empty where Go returns nil. */
  function To4(ip: seq<byte>): (a: seq<byte>)
    ensures |a| == 4 || a == []
  {
    if |ip| == 4 then ip
    else if |ip| == 16 && ip[..12] == [0, 0, 0, 0, 0, 0, 0, 0, 0, 0, 0xFF, 0xFF] then ip[12..]
    else []
  }

  /** The four address bytes of a header: zero for an address that is not IPv4. */
  function Addr4(ip: seq<byte>): (a: seq<byte>)
    ensures |a| == 4
  {
    if To4(ip) == [] then [0, 0, 0, 0] else To4(ip)
  }

  // What is built, as byte strings

  function IpHeader(totalLen: nat, c: uint16, src: seq<byte>, dst: seq<byte>): seq<byte> {
    [0x45, 0x00] + Be16(totalLen) + [0x00, 0x00, 0x40, 0x00, 64, 6] + Be16(c) + (Addr4(src) + Addr4(dst))
  }

  function PseudoHeader(src: seq<byte>, dst: seq<byte>, tcpLen: nat): seq<byte> {
    Addr4(src) + Addr4(dst) + [0, 6] + Be16(tcpLen)
  }

  function TcpFields(srcPort: uint16, dstPort: uint16, seqNum: uint32, ackNum: uint32, flags: byte): seq<byte> {
    Be16(srcPort) + Be16(dstPort) + Be32(seqNum) + Be32(ackNum) + [0x50, flags, 0x00, 0x00]
  }

  function TcpHeader(srcPort: uint16, dstPort: uint16, seqNum: uint32, ackNum: uint32, flags: byte, c: uint16): seq<byte> {
    TcpFields(srcPort, dstPort, seqNum, ackNum, flags) + Be16(c) + [0x00, 0x00]
  }

  datatype Segment = Segment(srcIP: seq<byte>, srcPort: uint16, dstIP: seq<byte>, dstPort: uint16,
                             seqNum: uint32, ackNum: uint32, flags: byte, payload: seq<byte>)

  function IpPart(s: Segment): seq<byte> {
    var totalLen := 40 + |s.payload|;
    IpHeader(totalLen, Sum(IpHeader(totalLen, 0, s.srcIP, s.dstIP)), s.srcIP, s.dstIP)
  }

  function TcpPart(s: Segment): seq<byte> {
    TcpHeader(s.srcPort, s.dstPort, s.seqNum, s.ackNum, s.flags, TcpSum(s))
  }

  /** The checksum over pseudo-header, TCP header and payload. */
  function TcpSum(s: Segment): uint16 {
    Sum(PseudoHeader(s.srcIP, s.dstIP, 20 + |s.payload|)
        + TcpHeader(s.srcPort, s.dstPort, s.seqNum, s.ackNum, s.flags, 0) + s.payload)
  }

  function PacketBytes(s: Segment): seq<byte> {
    IpPart(s) + TcpPart(s) + s.payload
  }

  // The builder

  predicate ZeroFrom(a: array<byte>, at: nat)
    reads a
  {
    forall j :: at <= j < a.Length ==> a[j] == 0
  }

  /** Writes the next bytes of a header. */
  method PutBytes(a: array<byte>, at: nat, s: seq<byte>)
    requires at + |s| <= a.Length && ZeroFrom(a, at)
    modifies a
    ensures a[..at + |s|] == old(a[..at]) + s && ZeroFrom(a, at + |s|)
  {
    CopyTo(a, at, s);
  }

  /** `copy(a[at:at+4], ip.To4())`, which copies nothing when there is no IPv4 address. */
  method PutAddress(a: array<byte>, at: nat, ip: seq<byte>)
    requires at + 4 <= a.Length && ZeroFrom(a, at)
    modifies a
    ensures a[..at + 4] == old(a[..at]) + Addr4(ip) && ZeroFrom(a, at + 4)
  {
    CopyTo(a, at, To4(ip));
    assert a[..at + 4] == a[..at] + a[at..at + 4];
  }

  /** Overwrites two bytes, high byte first. */
  method PutBe16(a: array<byte>, at: nat, n: uint16)
    requires at + 2 <= a.Length
    modifies a
    ensures a[..] == old(a[..at]) + Be16(n) + old(a[at + 2..])
  {
    a[at], a[at + 1] := Low(n / 0x100), Low(n);
  }

  method BuildIpHeader(src: seq<byte>, dst: seq<byte>, totalLen: nat) returns (h: array<byte>)
    ensures fresh(h) && h[..] == IpHeader(totalLen, Sum(IpHeader(totalLen, 0, src, dst)), src, dst)
  {
    h := new byte[20](_ => 0);
    PutBytes(h, 0, [0x45, 0x00]);
    PutBytes(h, 2, Be16(totalLen));
    PutBytes(h, 4, [0x00, 0x00, 0x40, 0x00, 64, 6]);
    PutBytes(h, 10, Be16(0));
    PutAddress(h, 12, src);
    PutAddress(h, 16, dst);
    WholeIpHeader(h[..], totalLen, 0, src, dst);
    var c := CalculateChecksum(h[..]);
    PutBe16(h, 10, c);
    IpHeaderWithSum(totalLen, c, src, dst);
  }

  lemma WholeIpHeader(h: seq<byte>, totalLen: nat, c: uint16, src: seq<byte>, dst: seq<byte>)
    requires h == [] + [0x45, 0x00] + Be16(totalLen) + [0x00, 0x00, 0x40, 0x00, 64, 6] + Be16(c) + Addr4(src) + Addr4(dst)
    ensures h == IpHeader(totalLen, c, src, dst)
  {
  }

  lemma IpHeaderWithSum(totalLen: nat, c: uint16, src: seq<byte>, dst: seq<byte>)
    ensures var h := IpHeader(totalLen, 0, src, dst);
            |h| == 20 && h[..10] + Be16(c) + h[12..] == IpHeader(totalLen, c, src, dst)
  {
  }

  method BuildPseudoHeader(src: seq<byte>, dst: seq<byte>, tcpLen: nat) returns (h: array<byte>)
    ensures fresh(h) && h[..] == PseudoHeader(src, dst, tcpLen)
  {
    h := new byte[12](_ => 0);
    PutAddress(h, 0, src);
    PutAddress(h, 4, dst);
    PutBytes(h, 8, [0, 6]);
    PutBytes(h, 10, Be16(tcpLen));
    assert h[..] == h[..12] && h[..0] == [];
  }

  method BuildTcpHeader(s: Segment) returns (h: array<byte>)
    ensures fresh(h) && h[..] == TcpHeader(s.srcPort, s.dstPort, s.seqNum, s.ackNum, s.flags, 0)
  {
    h := new byte[20](_ => 0);
    PutBytes(h, 0, Be16(s.srcPort));
    PutBytes(h, 2, Be16(s.dstPort));
    PutBytes(h, 4, Be32(s.seqNum));
    PutBytes(h, 8, Be32(s.ackNum));
    PutBytes(h, 12, [0x50, s.flags, 0x00, 0x00]);
    PutBytes(h, 16, Be16(0));
    PutBytes(h, 18, [0x00, 0x00]);
    assert h[..] == h[..20] && h[..0] == [];
  }

  /** `constructTCPPacket`. */
  method ConstructTCPPacket(s: Segment) returns (packetData: seq<byte>)
    ensures packetData == PacketBytes(s)
  {
    var ipHeader := BuildIpHeader(s.srcIP, s.dstIP, 40 + |s.payload|);
    var tcpHeader := BuildTcpHeader(s);
    var pseudoHeader := BuildPseudoHeader(s.srcIP, s.dstIP, 20 + |s.payload|);
    var c := CalculateChecksum(pseudoHeader[..] + tcpHeader[..] + s.payload);
    PutBe16(tcpHeader, 16, c);
    TcpHeaderWithSum(s, c);
    packetData := ipHeader[..] + tcpHeader[..] + s.payload;
  }

  lemma TcpHeaderWithSum(s: Segment, c: uint16)
    ensures var h := TcpHeader(s.srcPort, s.dstPort, s.seqNum, s.ackNum, s.flags, 0);
            |h| == 20 && h[..16] + Be16(c) + h[18..] == TcpHeader(s.srcPort, s.dstPort, s.seqNum, s.ackNum, s.flags, c)
  {
    var f := TcpFields(s.srcPort, s.dstPort, s.seqNum, s.ackNum, s.flags);
    assert |f| == 16;
    PrefixOfAppend(f, Be16(0) + [0x00, 0x00]);
    Assoc(f, Be16(0), [0x00, 0x00]);
  }

  // The parser at the head of `SendPacket`

  datatype Parsed = Tcp(segment: Segment) | NotTcp | UnknownVersion | TooShort | OutOfBounds

  /** What `SendPacket` makes of a packet.  It indexes the first byte of an empty packet, and the
      fixed fields of an IPv4 packet that is shorter than 20 bytes but not than the length its
      first byte claims: `OutOfBounds` is a run-time panic. */
  function Parse(p: seq<byte>): Parsed {
    if p == [] then OutOfBounds
    else if p[0] / 16 == 4 then
      var ipHeaderLen := p[0] as int % 16 * 4;
      if |p| < ipHeaderLen then TooShort
      else if |p| < 20 then OutOfBounds
      else if p[9] != 6 then NotTcp
      else if |p| < ipHeaderLen + 20 then TooShort
      else Tcp(ParseTcp(p[12..16], p[16..20], p[ipHeaderLen..]))
    else if p[0] / 16 == 6 then
      if |p| < 40 then TooShort
      else if p[6] != 6 then NotTcp
      else if |p| < 60 then TooShort
      else Tcp(ParseTcp(p[8..24], p[24..40], p[40..]))
    else UnknownVersion
  }

  /** A header that claims to be longer than the packet leaves no payload. */
  function ParseTcp(src: seq<byte>, dst: seq<byte>, h: seq<byte>): Segment
    requires |h| >= 20
  {
    var tcpHeaderLen := h[12] as int / 16 * 4;
    Segment(src, FromBe16(h[0], h[1]), dst, FromBe16(h[2], h[3]), FromBe32(h[4..8]), FromBe32(h[8..12]), h[13],
            if |h| >= tcpHeaderLen then h[tcpHeaderLen..] else [])
  }

  lemma ParseTcpBuilt(src: seq<byte>, dst: seq<byte>, s: Segment)
    ensures |TcpPart(s)| == 20 && ParseTcp(src, dst, TcpPart(s) + s.payload) == s.(srcIP := src, dstIP := dst)
  {
    var h, sp, dp := TcpPart(s) + s.payload, Be16(s.srcPort), Be16(s.dstPort);
    var sn, an := Be32(s.seqNum), Be32(s.ackNum);
    assert h[0] == sp[0] && h[1] == sp[1] && h[2] == dp[0] && h[3] == dp[1];
    assert h[4..8] == sn && h[8..12] == an;
    BigEndian16(s.srcPort);
    BigEndian16(s.dstPort);
    BigEndian32(s.seqNum);
    BigEndian32(s.ackNum);
    assert h[12] == 0x50 && h[13] == s.flags;
    PrefixOfAppend(TcpPart(s), s.payload);
  }

  lemma IpFields(s: Segment, rest: seq<byte>)
    ensures var p := IpPart(s) + rest;
            && |IpPart(s)| == 20 && p[0] == 0x45 && p[9] == 6 && p[20..] == rest
            && p[12..16] == Addr4(s.srcIP) && p[16..20] == Addr4(s.dstIP)
  {
    PrefixOfAppend(IpPart(s), rest);
  }

  /** Parsing a built packet gives back every field and the payload; an address that is not IPv4
      comes back as zeros, an IPv4-mapped one as its four bytes. */
  lemma ParseBuilt(s: Segment)
    ensures Parse(PacketBytes(s)) == Tcp(s.(srcIP := Addr4(s.srcIP), dstIP := Addr4(s.dstIP)))
  {
    Assoc(IpPart(s), TcpPart(s), s.payload);
    IpFields(s, TcpPart(s) + s.payload);
    ParseTcpBuilt(Addr4(s.srcIP), Addr4(s.dstIP), s);
  }

  /** An IPv4 header of `ihl` words and a TCP segment behind it, as any host may send them: the parser takes
      both addresses and what follows the options. */
  lemma ParsesAnyV4(ihl: nat, head: seq<byte>, src: seq<byte>, dst: seq<byte>, options: seq<byte>, h: seq<byte>)
    requires 5 <= ihl <= 15 && |head| == 12 && |src| == |dst| == 4 && |options| == 4 * ihl - 20
    requires head[0] as int == 0x40 + ihl && head[9] == 6
    ensures Parse(head + src + dst + options + h) == if |h| < 20 then TooShort else Tcp(ParseTcp(src, dst, h))
  {
    hide ParseTcp;
    var p := head + src + dst + options + h;
    assert p[12..16] == src && p[16..20] == dst && p[4 * ihl..] == h;
    assert p[0] == head[0] && p[9] == 6;
  }

  /** The same for an IPv6 header. */
  lemma ParsesAnyV6(head: seq<byte>, src: seq<byte>, dst: seq<byte>, h: seq<byte>)
    requires |head| == 8 && |src| == |dst| == 16 && head[0] / 16 == 6 && head[6] == 6
    ensures Parse(head + src + dst + h) == if |h| < 20 then TooShort else Tcp(ParseTcp(src, dst, h))
  {
    var p := head + src + dst + h;
    assert p[8..24] == src && p[24..40] == dst && p[40..] == h;
  }

  /** A TCP header of `words` words: every field comes back, and the payload behind the options. */
  lemma ParsesAnyTcp(src: seq<byte>, dst: seq<byte>, s: Segment, words: nat, low: nat, middle: seq<byte>, options: seq<byte>)
    requires 5 <= words <= 15 && low < 16 && |middle| == 6 && |options| == 4 * words - 20
    ensures var h := Be16(s.srcPort) + Be16(s.dstPort) + Be32(s.seqNum) + Be32(s.ackNum)
                     + [(16 * words + low) as byte, s.flags] + middle + options + s.payload;
            |h| >= 20 && ParseTcp(src, dst, h) == s.(srcIP := src, dstIP := dst)
  {
    var sp, dp, sn, an := Be16(s.srcPort), Be16(s.dstPort), Be32(s.seqNum), Be32(s.ackNum);
    var h := sp + dp + sn + an + [(16 * words + low) as byte, s.flags] + middle + options + s.payload;
    BigEndian16(s.srcPort);
    BigEndian16(s.dstPort);
    BigEndian32(s.seqNum);
    BigEndian32(s.ackNum);
    assert h[0] == sp[0] && h[1] == sp[1] && h[2] == dp[0] && h[3] == dp[1];
    assert h[4..8] == sn && h[8..12] == an && h[13] == s.flags && h[12] as int / 16 == words;
    assert h[4 * words..] == s.payload;
  }

  /** Where it refuses: it panics on an empty packet and on an IPv4 packet of fewer than 20 bytes whose first byte
      claims no more than there are, ignores what is not TCP, and reports the rest. */
  lemma ParseRefuses(p: seq<byte>)
    ensures Parse(p) == OutOfBounds <==> p == [] || (0x40 <= p[0] < 0x50 && 4 * (p[0] as int - 0x40) <= |p| < 20)
    ensures Parse(p) == UnknownVersion <==> p != [] && !(0x40 <= p[0] < 0x50) && !(0x60 <= p[0] < 0x70)
    ensures Parse(p) == NotTcp <==>
            || (|p| >= 20 && 0x40 <= p[0] < 0x50 && 4 * (p[0] as int - 0x40) <= |p| && p[9] != 6)
            || (|p| >= 40 && 0x60 <= p[0] < 0x70 && p[6] != 6)
  {
    hide ParseTcp;
  }

  /** The address bytes of a header: four bytes as they are, those of an IPv4-mapped address, or zeros. */
  lemma AddressForms(ip: seq<byte>, v4: seq<byte>)
    ensures |ip| == 4 ==> Addr4(ip) == ip
    ensures |v4| == 4 ==> Addr4([0, 0, 0, 0, 0, 0, 0, 0, 0, 0, 255, 255] + v4) == v4
    ensures |ip| != 4 && !(|ip| == 16 && [0, 0, 0, 0, 0, 0, 0, 0, 0, 0, 255, 255] <= ip) ==> Addr4(ip) == [0, 0, 0, 0]
  {
    var mapped := [0, 0, 0, 0, 0, 0, 0, 0, 0, 0, 255, 255];
    assert (mapped + v4)[..12] == mapped && (mapped + v4)[12..] == v4;
  }

  // The receiver's checks

  /** What a receiver of an IPv4 packet without options checks: the length field, the header
      checksum, and the TCP checksum under the pseudo-header that it forms itself. */
  predicate Accepted(p: seq<byte>) {
    && |p| >= 40 && FromBe16(p[2], p[3]) == |p|
    && Sum(p[..20]) == 0
    && Sum(p[12..16] + p[16..20] + [0, 6] + Be16(|p| - 20) + p[20..]) == 0
  }

  lemma IpSumVerifies(s: Segment)
    ensures Sum(IpPart(s)) == 0
  {
    var totalLen := 40 + |s.payload|;
    var before := [0x45, 0x00] + Be16(totalLen) + [0x00, 0x00, 0x40, 0x00, 64, 6];
    var after := Addr4(s.srcIP) + Addr4(s.dstIP);
    assert Be16(0) == [0, 0];
    StoredChecksumVerifies(before, after);
  }

  /** The checksum field behind `b`, with two more zero bytes and `d` after it. */
  lemma InnerChecksumVerifies(a: seq<byte>, b: seq<byte>, d: seq<byte>)
    requires |a| % 2 == 0 && |b| % 2 == 0 && |a| + |b| + 4 + |d| <= MAX_SUMMED
    ensures var c := Sum(a + (b + Be16(0) + [0x00, 0x00]) + d);
            Sum(a + ((b + Be16(c) + [0x00, 0x00]) + d)) == 0
  {
    var c := Sum(a + (b + Be16(0) + [0x00, 0x00]) + d);
    assert Be16(0) == [0, 0];
    FieldInside(a, b, Be16(0), d);
    FieldInside(a, b, Be16(c), d);
    StoredChecksumVerifies(a + b, [0x00, 0x00] + d);
    Assoc(a, b + Be16(c) + [0x00, 0x00], d);
  }

  lemma FieldInside(a: seq<byte>, b: seq<byte>, c: seq<byte>, d: seq<byte>)
    ensures a + (b + c + [0x00, 0x00]) + d == (a + b) + c + ([0x00, 0x00] + d)
  {
  }

  lemma TcpSumVerifies(s: Segment)
    requires |s.payload| <= MAX_SUMMED - 32
    ensures Sum(PseudoHeader(s.srcIP, s.dstIP, 20 + |s.payload|) + (TcpPart(s) + s.payload)) == 0
  {
    var ph := PseudoHeader(s.srcIP, s.dstIP, 20 + |s.payload|);
    var f := TcpFields(s.srcPort, s.dstPort, s.seqNum, s.ackNum, s.flags);
    assert |ph| == 12 && |f| == 16;
    InnerChecksumVerifies(ph, f, s.payload);
  }

  /** For every payload, odd or even, a built packet passes all of the receiver's checks exactly when
      its length fits the 16-bit length field. */
  lemma BuiltIsAccepted(s: Segment)
    ensures Accepted(PacketBytes(s)) <==> |s.payload| <= 65495
  {
    var p, rest := PacketBytes(s), TcpPart(s) + s.payload;
    Assoc(IpPart(s), TcpPart(s), s.payload);
    IpFields(s, rest);
    ParseTcpBuilt([], [], s);
    assert |p| == 40 + |s.payload| && p[2] == Be16(|p|)[0] && p[3] == Be16(|p|)[1];
    if |s.payload| <= 65495 {
      BigEndian16(|p|);
      PrefixOfAppend(IpPart(s), rest);
      IpSumVerifies(s);
      TcpSumVerifies(s);
    }
  }
}
