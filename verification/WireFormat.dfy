/** Frames byte by byte, as the standards lay them out: Ethernet II, section 3.1 of RFC 791, section 3.1 of
    RFC 793, RFC 768 and RFC 792. Offsets and values are written out here, as a reference for what the
    builder, the mutator and the rewrite produce. */
module WireFormats {
  import opened Words
  import opened FlowKeys
  import opened Checksums
  import opened Packets
  import opened PacketProofs

  // ---------------------------------------------------------------- the reference

  /** A field of two or four bytes, most significant first. */
  predicate Field16(g: seq<u8>, at: nat, v: int) {
    at + 2 <= |g| && 0x100 * (g[at] as int) + g[at + 1] == v
  }

  predicate Field32(g: seq<u8>, at: nat, v: int) {
    at + 4 <= |g| && 0x1_0000 * (0x100 * (g[at] as int) + g[at + 1]) + 0x100 * (g[at + 2] as int) + g[at + 3] == v
  }

  /** An address, kept in network order and so read least significant first on the host. */
  predicate Address(g: seq<u8>, at: nat, v: int) {
    at + 4 <= |g| && g[at] + 0x100 * (g[at + 1] as int) + 0x1_0000 * (g[at + 2] + 0x100 * (g[at + 3] as int)) == v
  }

  /** Destination, source, and the type of IPv4. */
  ghost predicate EthernetHeader(g: seq<u8>, src: Mac, dst: Mac) {
    |g| >= 14 && g[..6] == dst && g[6..12] == src && g[12] == 0x08 && g[13] == 0x00
  }

  /** Version 4 with five words, no fragmentation, 64 hops, protocol, addresses. */
  ghost predicate IpHeaderOf(g: seq<u8>, key: FlowKey, protocol: u8) {
    && |g| >= 34 && g[14] == 0x45 && g[15] == g[20] == g[21] == 0 && g[22] == 64 && g[23] == protocol
    && Address(g, 26, key.srcIp) && Address(g, 30, key.dstIp)
  }

  ghost predicate Ports(g: seq<u8>, key: FlowKey) {
    Field16(g, 34, key.srcPort) && Field16(g, 36, key.dstPort)
  }

  /** Five words of header, no window, no urgent pointer. */
  ghost predicate TcpHeaderOf(g: seq<u8>, key: FlowKey) {
    |g| >= 54 && Ports(g, key) && g[46] == 0x50 && g[48] == g[49] == 0 && g[52] == g[53] == 0
  }

  /** An echo request without checksum, identifier and number. */
  ghost predicate EchoHeader(g: seq<u8>) {
    |g| >= 42 && g[34] == 8 && forall i :: 35 <= i < 42 ==> g[i] == 0
  }

  /** What every frame of a flow has in common. */
  ghost predicate HeadersOf(g: seq<u8>, key: FlowKey, protocol: string, src: Mac, dst: Mac) {
    && EthernetHeader(g, src, dst)
    && ((protocol == "tcp" && IpHeaderOf(g, key, 6) && TcpHeaderOf(g, key))
        || (protocol == "udp" && IpHeaderOf(g, key, 17) && Ports(g, key) && |g| >= 42)
        || (protocol == "icmp" && IpHeaderOf(g, key, 1) && EchoHeader(g)))
  }

  /** Where the payload begins. */
  function PayloadAt(protocol: string): nat {
    if protocol == "tcp" then 54 else 42
  }

  ghost predicate ZeroFrom(g: seq<u8>, n: nat) {
    forall i :: n <= i < |g| ==> g[i] == 0
  }

  /** Of the two one's complement encodings of a checksum, the one the standards ask for: never all ones, except
      that UDP's is never zero, which would mean that there is none. */
  ghost predicate CanonicalSums(g: seq<u8>, protocol: string) {
    && |g| >= 42 && !Field16(g, 24, 0xFFFF)
    && (protocol == "tcp" ==> !Field16(g, 50, 0xFFFF))
    && (protocol == "udp" ==> !Field16(g, 40, 0))
  }

  /** The bytes the two checksums sit in. */
  predicate SumByte(protocol: string, i: nat) {
    i in {24, 25} || (protocol == "tcp" && i in {50, 51}) || (protocol == "udp" && i in {40, 41})
  }

  // ---------------------------------------------------------------- templates

  lemma NetworkBytes(key: FlowKey, size: u32, protocol: string, src: Mac, dst: Mac)
    requires size >= 34
    ensures var f := NetworkHeaders(key, size, protocol, src, dst);
            && EthernetHeader(f, src, dst) && IpHeaderOf(f, key, ProtocolNumber(protocol))
            && Field16(f, 16, (size - 14) % 0x1_0000) && Field16(f, 18, 0) && ZeroFrom(f, 34)
  {
    NetworkHeadersFields(key, size, protocol, src, dst);
    NetworkKeepsEthernet(key, size, protocol, src, dst);
    var f := NetworkHeaders(key, size, protocol, src, dst);
    FirstFourteen(f, src, dst);
    NetworkRest(key, size, protocol, src, dst);
  }

  lemma FirstFourteen(f: seq<u8>, src: Mac, dst: Mac)
    requires |f| >= 14 && f[..14] == dst + src + [0x08, 0x00]
    ensures EthernetHeader(f, src, dst)
  {
    assert f[..6] == f[..14][..6] && f[6..12] == f[..14][6..12];
    assert f[12] == f[..14][12] && f[13] == f[..14][13];
  }

  lemma NetworkRest(key: FlowKey, size: u32, protocol: string, src: Mac, dst: Mac)
    requires size >= 34
    ensures var f := NetworkHeaders(key, size, protocol, src, dst);
            Field16(f, 18, 0) && ZeroFrom(f, 34)
  {
  }

  lemma TransportBytes(f: seq<u8>, key: FlowKey, protocol: string)
    requires TransportSize(protocol).Some? && |f| >= L4 + TransportSize(protocol).value && ZeroFrom(f, 34)
    ensures PayloadAt(protocol) == L4 + TransportSize(protocol).value
    ensures var g := PutTransport(f, key, protocol);
            && (forall i :: 0 <= i < 34 ==> g[i] == f[i]) && ZeroFrom(g, PayloadAt(protocol))
            && (protocol == "tcp" ==> TcpHeaderOf(g, key) && Field32(g, 38, 0) && Field32(g, 42, 0) && g[47] == 0)
            && (protocol == "udp" ==> Ports(g, key) && Field16(g, 38, (|f| - 34) % 0x1_0000))
            && (protocol == "icmp" ==> EchoHeader(g))
  {
  }

  lemma SealBytes(g: seq<u8>, protocol: string)
    requires |g| >= L4 + UDP_SIZE && (protocol == "tcp" ==> |g| >= L4 + TCP_SIZE)
    requires ETHER + Get16(g, TOTAL_LENGTH) <= |g|
    ensures var h := FixIpChecksum(SealTransport(g, protocol));
            forall i :: 0 <= i < |g| && !SumByte(protocol, i) ==> h[i] == g[i]
  {
  }

  /** Every template, byte by byte but for its checksums. */
  lemma TemplateBytes(key: FlowKey, size: u32, protocol: string, src: Mac, dst: Mac)
    requires TemplateFor(key, size, protocol, src, dst).Some?
    ensures var g := TemplateFor(key, size, protocol, src, dst).value.data;
            && |g| == size && HeadersOf(g, key, protocol, src, dst) && ZeroFrom(g, PayloadAt(protocol))
            && Field16(g, 16, (size - 14) % 0x1_0000) && Field16(g, 18, 0)
            && (protocol == "tcp" ==> Field32(g, 38, 0) && Field32(g, 42, 0) && g[47] == 0)
            && (protocol == "udp" ==> Field16(g, 38, (size - 34) % 0x1_0000))
  {
    var f := NetworkHeaders(key, size, protocol, src, dst);
    NetworkLength(key, size, protocol, src, dst);
    NetworkBytes(key, size, protocol, src, dst);
    FinishedIs(f, key, size, protocol, src, dst);
  }

  lemma FinishedIs(f: seq<u8>, key: FlowKey, size: u32, protocol: string, src: Mac, dst: Mac)
    requires TransportSize(protocol).Some? && |f| >= L4 + TransportSize(protocol).value
    requires ETHER + Get16(f, TOTAL_LENGTH) <= |f|
    requires EthernetHeader(f, src, dst) && IpHeaderOf(f, key, ProtocolNumber(protocol)) && ZeroFrom(f, 34)
    requires |f| == size && Field16(f, 16, (size - 14) % 0x1_0000) && Field16(f, 18, 0)
    ensures var g := Finished(f, key, protocol);
            && HeadersOf(g, key, protocol, src, dst) && ZeroFrom(g, PayloadAt(protocol))
            && Field16(g, 16, (size - 14) % 0x1_0000) && Field16(g, 18, 0)
            && (protocol == "tcp" ==> Field32(g, 38, 0) && Field32(g, 42, 0) && g[47] == 0)
            && (protocol == "udp" ==> Field16(g, 38, (size - 34) % 0x1_0000))
  {
    TransportKeepsLength(f, key, protocol);
    TransportBytes(f, key, protocol);
    var g := PutTransport(f, key, protocol);
    SealBytes(g, protocol);
    FinishedBytes(f, g, Finished(f, key, protocol), key, protocol, src, dst);
  }

  lemma FinishedBytes(f: seq<u8>, g: seq<u8>, h: seq<u8>, key: FlowKey, protocol: string, src: Mac, dst: Mac)
    requires TransportSize(protocol).Some? && |f| == |g| == |h| >= PayloadAt(protocol)
    requires EthernetHeader(f, src, dst) && IpHeaderOf(f, key, ProtocolNumber(protocol))
    requires (forall i :: 0 <= i < 34 ==> g[i] == f[i]) && ZeroFrom(g, PayloadAt(protocol))
    requires protocol == "tcp" ==> TcpHeaderOf(g, key)
    requires protocol == "udp" ==> Ports(g, key)
    requires protocol == "icmp" ==> EchoHeader(g)
    requires forall i :: 0 <= i < |g| && !SumByte(protocol, i) ==> h[i] == g[i]
    ensures HeadersOf(h, key, protocol, src, dst) && ZeroFrom(h, PayloadAt(protocol))
    ensures h[16] == f[16] && h[17] == f[17] && h[18] == f[18] && h[19] == f[19]
    ensures protocol == "tcp" ==> forall i :: 38 <= i < 48 ==> h[i] == g[i]
    ensures protocol == "udp" ==> h[38] == g[38] && h[39] == g[39]
  {
    assert h[..6] == f[..6] && h[6..12] == f[6..12];
  }

  // ---------------------------------------------------------------- copies

  /** Which bytes of the headers a copy has of its own before its checksums. */
  predicate OwnByte(protocol: string, i: nat) {
    16 <= i < 20 || (protocol == "tcp" && 38 <= i < 42) || (protocol == "udp" && 38 <= i < 40)
  }

  lemma AddressedBytesKept(t: Template, protocol: string, size: u32, seqNum: u32, ipId: u16)
    requires Built(t, protocol) && t.payloadOffset <= size < TWO_16
    ensures Usable(t.(totalSize := size)) && t.payloadOffset == PayloadAt(protocol)
    ensures var f := Addressed(t.(totalSize := size), seqNum, ipId);
            && |f| == size && ZeroFrom(f, PayloadAt(protocol))
            && (forall i :: 0 <= i < PayloadAt(protocol) && !OwnByte(protocol, i) ==> f[i] == t.data[i])
            && Field16(f, 16, size - 14) && Field16(f, 18, ipId)
            && (protocol == "tcp" ==> Field32(f, 38, seqNum)) && (protocol == "udp" ==> Field16(f, 38, size - 34))
  {
    ProtocolSizes(protocol);
  }

  lemma SealedBytes(f: seq<u8>, protocol: string)
    requires TransportSize(protocol).Some? && |f| >= PayloadAt(protocol) && f[23] == ProtocolNumber(protocol)
    requires Get16(f, TOTAL_LENGTH) == |f| - ETHER
    ensures forall i :: 0 <= i < |f| && !SumByte(protocol, i) ==> Sealed(f)[i] == f[i]
  {
    ProtocolSizes(protocol);
    SealedVerifies(f);
  }

  /** Which bytes of the headers a copy, or its rewrite for a connection, may change. */
  predicate Changing(protocol: string, i: nat) {
    OwnByte(protocol, i) || SumByte(protocol, i) || (protocol == "tcp" && (42 <= i < 46 || i == 47))
  }

  /** The headers carry over to a frame that differs in those bytes only. */
  lemma HeadersCarry(d: seq<u8>, g: seq<u8>, key: FlowKey, protocol: string, src: Mac, dst: Mac)
    requires HeadersOf(d, key, protocol, src, dst) && |g| >= PayloadAt(protocol)
    requires forall i :: 0 <= i < PayloadAt(protocol) && !Changing(protocol, i) ==> g[i] == d[i]
    ensures HeadersOf(g, key, protocol, src, dst)
  {
    assert g[..6] == d[..6] && g[6..12] == d[6..12];
  }

  /** Every copy of a template that has the headers of its flow, byte by byte but for the checksums. */
  lemma CopyBytes(t: Template, protocol: string, size: u32, seqNum: u32, ipId: u16, src: Mac, dst: Mac)
    requires Built(t, protocol) && HeadersOf(t.data, t.key, protocol, src, dst) && t.payloadOffset <= size < TWO_16
    ensures Usable(t.(totalSize := size)) && size >= PayloadAt(protocol)
    ensures var g := Mutated(t.(totalSize := size), seqNum, ipId, true);
            && |g| == size && HeadersOf(g, t.key, protocol, src, dst)
            && (protocol == "tcp" ==> forall i :: 42 <= i < 48 ==> g[i] == t.data[i])
            && Field16(g, 16, size - 14) && Field16(g, 18, ipId) && ZeroFrom(g, PayloadAt(protocol))
            && (protocol == "tcp" ==> Field32(g, 38, seqNum)) && (protocol == "udp" ==> Field16(g, 38, size - 34))
  {
    ProtocolSizes(protocol);
    var f := Addressed(t.(totalSize := size), seqNum, ipId);
    AddressedBytesKept(t, protocol, size, seqNum, ipId);
    AddressedLength(t.(totalSize := size), seqNum, ipId);
    SealedBytes(f, protocol);
    SealedCarries(t.data, f, Sealed(f), t.key, protocol, src, dst);
  }

  lemma SealedCarries(d: seq<u8>, f: seq<u8>, g: seq<u8>, key: FlowKey, protocol: string, src: Mac, dst: Mac)
    requires HeadersOf(d, key, protocol, src, dst) && PayloadAt(protocol) <= |f| == |g| && PayloadAt(protocol) <= |d|
    requires forall i :: 0 <= i < PayloadAt(protocol) && !OwnByte(protocol, i) ==> f[i] == d[i]
    requires (forall i :: 0 <= i < |f| && !SumByte(protocol, i) ==> g[i] == f[i]) && ZeroFrom(f, PayloadAt(protocol))
    ensures HeadersOf(g, key, protocol, src, dst) && ZeroFrom(g, PayloadAt(protocol))
    ensures protocol == "tcp" ==> forall i :: 42 <= i < 48 ==> g[i] == d[i]
    ensures g[16] == f[16] && g[17] == f[17] && g[18] == f[18] && g[19] == f[19]
    ensures protocol == "tcp" ==> g[38] == f[38] && g[39] == f[39] && g[40] == f[40] && g[41] == f[41]
    ensures protocol == "udp" ==> g[38] == f[38] && g[39] == f[39]
  {
    HeadersCarry(d, g, key, protocol, src, dst);
  }

  // ---------------------------------------------------------------- the rewrite

  lemma RewrittenBytes(f: seq<u8>, sendSeq: u32, sendAck: u32)
    requires |f| >= 54 && Field16(f, 16, |f| - 14)
    ensures ETHER + Get16(f, TOTAL_LENGTH) <= |f|
    ensures var g := Rewritten(f, sendSeq, sendAck);
            && |g| == |f| && Field32(g, 38, sendSeq) && Field32(g, 42, sendAck) && g[47] == 0x10
            && forall i :: 0 <= i < |f| && !(38 <= i < 46) && i !in {47, 50, 51} ==> g[i] == f[i]
  {
    var c := Put32(Put32(f[TCP_FLAGS := ACK_FLAG], TCP_SEQ, sendSeq), TCP_ACK, sendAck);
    assert Get16(c, TOTAL_LENGTH) == Get16(f, TOTAL_LENGTH);
    FixL4IsLocal(c, TCP_CKSUM);
    NumbersPut(f, sendSeq, sendAck);
  }

  lemma NumbersPut(f: seq<u8>, sendSeq: u32, sendAck: u32)
    requires |f| >= 54
    ensures var c := Put32(Put32(f[TCP_FLAGS := ACK_FLAG], TCP_SEQ, sendSeq), TCP_ACK, sendAck);
            && Field32(c, 38, sendSeq) && Field32(c, 42, sendAck) && c[47] == 0x10
            && forall i :: 0 <= i < |f| && !(38 <= i < 46) && i != 47 ==> c[i] == f[i]
  {
  }

  // ---------------------------------------------------------------- canonical checksums

  lemma NonzeroSum(s: seq<u8>, k: nat)
    requires k < |s| && s[k] != 0
    ensures Checksum(s) != 0xFFFF
  {
    PositiveSum(s, k);
    OnesSumIsFoldedSum(s);
  }

  lemma {:induction false} PositiveSum(s: seq<u8>, k: nat)
    requires k < |s| && s[k] != 0
    ensures WordSum(s) > 0
    decreases |s|
  {
    if k >= 2 {
      PositiveSum(Rest(s), k - 2);
    }
  }

  lemma FixedIpIsCanonical(f: seq<u8>)
    requires |f| >= 34 && f[14] != 0
    ensures !Field16(FixIpChecksum(f), 24, 0xFFFF)
  {
    var z := Put16(f, IP_CKSUM, 0);
    assert IpHeader(z)[0] == f[14];
    NonzeroSum(IpHeader(z), 0);
  }

  lemma L4ChecksumIsCanonical(z: seq<u8>)
    requires HoldsDatagram(z) && z[23] != 0
    ensures L4Checksum(z) != 0xFFFF || z[23] == 17
    ensures z[23] == 17 ==> L4Checksum(z) != 0
  {
    assert Covered(z)[9] == z[23];
    NonzeroSum(Covered(z), 9);
  }

  lemma FixedL4IsCanonical(f: seq<u8>, at: nat)
    requires HoldsDatagram(f) && 34 <= at && at + 1 < |f| && f[23] != 0
    ensures f[23] != 17 ==> !Field16(FixL4Checksum(f, at), at, 0xFFFF)
    ensures f[23] == 17 ==> !Field16(FixL4Checksum(f, at), at, 0)
  {
    var z := Put16(f, at, 0);
    assert Get16(z, TOTAL_LENGTH) == Get16(f, TOTAL_LENGTH);
    L4ChecksumIsCanonical(z);
  }

  lemma SealedIsCanonical(f: seq<u8>, protocol: string)
    requires TransportSize(protocol).Some? && |f| >= PayloadAt(protocol) && f[14] == 0x45
    requires f[23] == ProtocolNumber(protocol) && Get16(f, TOTAL_LENGTH) == |f| - ETHER
    ensures CanonicalSums(Sealed(f), protocol)
  {
    ProtocolSizes(protocol);
    FixedIpIsCanonical(f);
    var a := FixIpChecksum(f);
    assert Get16(a, TOTAL_LENGTH) == Get16(f, TOTAL_LENGTH);
    if protocol == "tcp" {
      FixedL4IsCanonical(a, TCP_CKSUM);
      FixL4IsLocal(a, TCP_CKSUM);
    } else if protocol == "udp" {
      FixedL4IsCanonical(a, UDP_CKSUM);
      FixL4IsLocal(a, UDP_CKSUM);
    }
  }

  lemma CopyIsCanonical(t: Template, protocol: string, size: u32, seqNum: u32, ipId: u16)
    requires Built(t, protocol) && t.payloadOffset <= size < TWO_16
    ensures Usable(t.(totalSize := size))
    ensures CanonicalSums(Mutated(t.(totalSize := size), seqNum, ipId, true), protocol)
  {
    ProtocolSizes(protocol);
    AddressedBytesKept(t, protocol, size, seqNum, ipId);
    AddressedLength(t.(totalSize := size), seqNum, ipId);
    SealedIsCanonical(Addressed(t.(totalSize := size), seqNum, ipId), protocol);
  }

  lemma RewriteIsCanonical(f: seq<u8>, sendSeq: u32, sendAck: u32)
    requires |f| >= 54 && Field16(f, 16, |f| - 14) && f[23] == 6 && CanonicalSums(f, "tcp")
    ensures ETHER + Get16(f, TOTAL_LENGTH) <= |f| && CanonicalSums(Rewritten(f, sendSeq, sendAck), "tcp")
  {
    RewrittenBytes(f, sendSeq, sendAck);
    var c := Put32(Put32(f[TCP_FLAGS := ACK_FLAG], TCP_SEQ, sendSeq), TCP_ACK, sendAck);
    NumbersPut(f, sendSeq, sendAck);
    FixedL4IsCanonical(c, TCP_CKSUM);
  }
}
