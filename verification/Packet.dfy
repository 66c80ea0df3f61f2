/** Frames: the template builder, the mutator that stamps copies of a template into buffers, the TCP
    rewrite of stateful flows and the receive-side parser. Each in-place method is proved against a
    function on byte sequences; the properties of those functions are in PacketProofs. */
module Packets {
  import opened Words
  import opened FlowKeys
  import opened Checksums

  type Mac = m: seq<u8> | |m| == 6 witness [0, 0, 0, 0, 0, 0]

  const ETHER: nat := 14
  const IPV4: nat := 20
  const TCP_SIZE: nat := 20
  const UDP_SIZE: nat := 8
  const ICMP_SIZE: nat := 8
  const L4: nat := 34

  const IPPROTO_ICMP: u8 := 1
  const IPPROTO_TCP: u8 := 6
  const IPPROTO_UDP: u8 := 17

  const ACK_FLAG: u8 := 0x10

  // Offsets of header fields in a frame.
  const VERSION_IHL: nat := 14
  const TOTAL_LENGTH: nat := 16
  const PACKET_ID: nat := 18
  const NEXT_PROTO: nat := 23
  const IP_CKSUM: nat := 24
  const SRC_ADDR: nat := 26
  const DST_ADDR: nat := 30
  const SRC_PORT: nat := 34
  const DST_PORT: nat := 36
  const TCP_SEQ: nat := 38
  const TCP_ACK: nat := 42
  const TCP_DATA_OFF: nat := 46
  const TCP_FLAGS: nat := 47
  const TCP_CKSUM: nat := 50
  const UDP_LEN: nat := 38
  const UDP_CKSUM: nat := 40

  // ---------------------------------------------------------------- fields

  function Put16(f: seq<u8>, at: nat, v: u16): (g: seq<u8>)
    requires at + 1 < |f|
    ensures |g| == |f|
  {
    f[at := v / 256][at + 1 := v % 256]
  }

  function Get16(f: seq<u8>, at: nat): u16
    requires at + 1 < |f|
  {
    Word(f[at], f[at + 1])
  }

  function Put32(f: seq<u8>, at: nat, v: u32): (g: seq<u8>)
    requires at + 3 < |f|
    ensures |g| == |f|
  {
    Put16(Put16(f, at, v / TWO_16), at + 2, v % TWO_16)
  }

  function Get32(f: seq<u8>, at: nat): u32
    requires at + 3 < |f|
  {
    TWO_16 * Get16(f, at) + Get16(f, at + 2)
  }

  /** A 32-bit value stored raw by a little-endian host. */
  function PutRaw32(f: seq<u8>, at: nat, v: u32): (g: seq<u8>)
    requires at + 3 < |f|
    ensures |g| == |f|
  {
    f[at := v % 256][at + 1 := v / 256 % 256][at + 2 := v / TWO_16 % 256][at + 3 := v / 0x100_0000]
  }

  function GetRaw32(f: seq<u8>, at: nat): u32
    requires at + 3 < |f|
  {
    Word(f[at + 3], f[at + 2]) * TWO_16 + Word(f[at + 1], f[at])
  }

  // ---------------------------------------------------------------- headers

  function PutMac(f: seq<u8>, at: nat, m: Mac): (g: seq<u8>)
    requires at + 5 < |f|
    ensures |g| == |f|
  {
    f[at := m[0]][at + 1 := m[1]][at + 2 := m[2]][at + 3 := m[3]][at + 4 := m[4]][at + 5 := m[5]]
  }

  function PutEthernet(f: seq<u8>, src: Mac, dst: Mac): (g: seq<u8>)
    requires |f| >= ETHER
    ensures |g| == |f|
  {
    Put16(PutMac(PutMac(f, 0, dst), 6, src), 12, 0x0800)
  }

  function PutIp(f: seq<u8>, src: u32, dst: u32, protocol: u8, totalLen: u16): (g: seq<u8>)
    requires |f| >= L4
    ensures |g| == |f|
  {
    PutIpAddresses(PutIpStart(f, totalLen)[22 := 64][NEXT_PROTO := protocol], src, dst)
  }

  function PutIpStart(f: seq<u8>, totalLen: u16): (g: seq<u8>)
    requires |f| >= L4
    ensures |g| == |f|
  {
    Put16(Put16(Put16(f[VERSION_IHL := 0x45][15 := 0], TOTAL_LENGTH, totalLen), PACKET_ID, 0), 20, 0)
  }

  function PutIpAddresses(f: seq<u8>, src: u32, dst: u32): (g: seq<u8>)
    requires |f| >= L4
    ensures |g| == |f|
  {
    Put16(PutRaw32(PutRaw32(f, SRC_ADDR, src), DST_ADDR, dst), IP_CKSUM, 0)
  }

  function PutTcp(f: seq<u8>, srcPort: u16, dstPort: u16): (g: seq<u8>)
    requires |f| >= L4 + TCP_SIZE
    ensures |g| == |f|
  {
    var a := Put32(Put32(Put16(Put16(f, SRC_PORT, srcPort), DST_PORT, dstPort), TCP_SEQ, 0), TCP_ACK, 0);
    Put16(Put16(Put16(a[TCP_DATA_OFF := 0x50][TCP_FLAGS := 0], 48, 0), 52, 0), TCP_CKSUM, 0)
  }

  function PutUdp(f: seq<u8>, srcPort: u16, dstPort: u16, length: u16): (g: seq<u8>)
    requires |f| >= L4 + UDP_SIZE
    ensures |g| == |f|
  {
    Put16(Put16(Put16(Put16(f, SRC_PORT, srcPort), DST_PORT, dstPort), UDP_LEN, length), UDP_CKSUM, 0)
  }

  function PutEcho(f: seq<u8>): (g: seq<u8>)
    requires |f| >= L4 + ICMP_SIZE
    ensures |g| == |f|
  {
    Put16(Put16(Put16(f[L4 := 8][L4 + 1 := 0], L4 + 2, 0), L4 + 4, 0), L4 + 6, 0)
  }

  // ---------------------------------------------------------------- checksums of a frame

  function IpHeader(f: seq<u8>): seq<u8>
    requires |f| >= L4
  {
    f[ETHER..L4]
  }

  /** The frame holds the whole datagram its IP header announces. */
  predicate HoldsDatagram(f: seq<u8>) {
    |f| >= L4 && IPV4 <= Get16(f, TOTAL_LENGTH) && ETHER + Get16(f, TOTAL_LENGTH) <= |f|
  }

  /** The pseudo-header of RFC 793 and RFC 768: addresses, protocol, segment length. */
  function PseudoHeader(f: seq<u8>): (p: seq<u8>)
    requires HoldsDatagram(f)
    ensures |p| == 12
  {
    var len := Get16(f, TOTAL_LENGTH) - IPV4;
    f[SRC_ADDR..L4] + [0, f[NEXT_PROTO], len / 256, len % 256]
  }

  /** What the transport checksum covers. */
  function Covered(f: seq<u8>): seq<u8>
    requires HoldsDatagram(f)
  {
    PseudoHeader(f) + f[L4..ETHER + Get16(f, TOTAL_LENGTH)]
  }

  /** The library's transport checksum: RFC 1071, with RFC 768's all ones for a zero UDP checksum. */
  function L4Checksum(f: seq<u8>): u16
    requires |f| >= L4 && ETHER + Get16(f, TOTAL_LENGTH) <= |f|
  {
    if Get16(f, TOTAL_LENGTH) < IPV4 then 0
    else
      var c := Checksum(Covered(f));
      if c == 0 && f[NEXT_PROTO] == IPPROTO_UDP then ONES else c
  }

  function FixIpChecksum(f: seq<u8>): (g: seq<u8>)
    requires |f| >= L4
    ensures |g| == |f|
  {
    var z := Put16(f, IP_CKSUM, 0);
    Put16(z, IP_CKSUM, Checksum(IpHeader(z)))
  }

  /** Zero the transport checksum at `at`, then store the checksum computed over the rest. */
  function FixL4Checksum(f: seq<u8>, at: nat): (g: seq<u8>)
    requires L4 <= at && at + 1 < |f| && ETHER + Get16(f, TOTAL_LENGTH) <= |f|
    ensures |g| == |f|
  {
    var z := Put16(f, at, 0);
    Put16(z, at, L4Checksum(z))
  }

  // ---------------------------------------------------------------- templates

  datatype Template = Template(key: FlowKey, totalSize: u32, payloadOffset: u32, data: seq<u8>)

  function TransportSize(protocol: string): Option<nat> {
    if protocol == "tcp" then Some(TCP_SIZE)
    else if protocol == "udp" then Some(UDP_SIZE)
    else if protocol == "icmp" then Some(ICMP_SIZE)
    else None
  }

  function ProtocolNumber(protocol: string): u8 {
    if protocol == "tcp" then IPPROTO_TCP else if protocol == "udp" then IPPROTO_UDP else IPPROTO_ICMP
  }

  function Zeros(n: nat): (z: seq<u8>)
    ensures |z| == n && forall i :: 0 <= i < n ==> z[i] == 0
  {
    seq(n, _ => 0)
  }

  /** Ethernet and IP headers over a zeroed frame, before the transport header. */
  function NetworkHeaders(key: FlowKey, size: u32, protocol: string, src: Mac, dst: Mac): (f: seq<u8>)
    requires size >= L4
    ensures |f| == size
  {
    PutIp(PutEthernet(Zeros(size), src, dst), key.srcIp, key.dstIp, ProtocolNumber(protocol), (size - ETHER) % TWO_16)
  }

  function PutTransport(f: seq<u8>, key: FlowKey, protocol: string): (g: seq<u8>)
    requires TransportSize(protocol).Some? && |f| >= L4 + TransportSize(protocol).value
    ensures |g| == |f|
  {
    if protocol == "tcp" then PutTcp(f, key.srcPort, key.dstPort)
    else if protocol == "udp" then PutUdp(f, key.srcPort, key.dstPort, (|f| - L4) % TWO_16)
    else PutEcho(f)
  }

  /** The transport checksum of the builder: its field is still zero from the header builder. */
  function SealTransport(f: seq<u8>, protocol: string): (g: seq<u8>)
    requires |f| >= L4 + UDP_SIZE && (protocol == "tcp" ==> |f| >= L4 + TCP_SIZE)
    requires ETHER + Get16(f, TOTAL_LENGTH) <= |f|
    ensures |g| == |f|
  {
    if protocol == "tcp" then Put16(f, TCP_CKSUM, L4Checksum(f))
    else if protocol == "udp" then Put16(f, UDP_CKSUM, L4Checksum(f))
    else f
  }

  lemma NetworkLength(key: FlowKey, size: u32, protocol: string, src: Mac, dst: Mac)
    requires size >= L4
    ensures Get16(NetworkHeaders(key, size, protocol, src, dst), TOTAL_LENGTH) == (size - ETHER) % TWO_16
    ensures ETHER + Get16(NetworkHeaders(key, size, protocol, src, dst), TOTAL_LENGTH) <= size
  {
    ModAtMost(size - ETHER, TWO_16);
  }

  lemma TransportKeepsLength(f: seq<u8>, key: FlowKey, protocol: string)
    requires TransportSize(protocol).Some? && |f| >= L4 + TransportSize(protocol).value
    ensures Get16(PutTransport(f, key, protocol), TOTAL_LENGTH) == Get16(f, TOTAL_LENGTH)
  {
  }

  /** What `build_template` stores for a flow, if it accepts it. The payload stays zero. */
  function TemplateFor(key: FlowKey, size: u32, protocol: string, src: Mac, dst: Mac): Option<Template> {
    var transport := TransportSize(protocol);
    if transport.None? || size < L4 + transport.value then None
    else
      var f := NetworkHeaders(key, size, protocol, src, dst);
      NetworkLength(key, size, protocol, src, dst);
      TransportKeepsLength(f, key, protocol);
      Some(Template(key, size, L4 + transport.value, Finished(f, key, protocol)))
  }

  /** Transport header and both checksums over finished network headers. */
  function Finished(f: seq<u8>, key: FlowKey, protocol: string): (g: seq<u8>)
    requires TransportSize(protocol).Some? && |f| >= L4 + TransportSize(protocol).value
    requires ETHER + Get16(f, TOTAL_LENGTH) <= |f|
    ensures |g| == |f|
  {
    TransportKeepsLength(f, key, protocol);
    FixIpChecksum(SealTransport(PutTransport(f, key, protocol), protocol))
  }

  // ---------------------------------------------------------------- writing in place

  method Write16(data: array<u8>, ghost n: nat, at: nat, v: u16)
    requires at + 1 < n <= data.Length
    modifies data
    ensures data[..n] == Put16(old(data[..n]), at, v)
    ensures forall i :: n <= i < data.Length ==> data[i] == old(data[i])
  {
    data[at] := v / 256;
    data[at + 1] := v % 256;
  }

  method Write8(data: array<u8>, ghost n: nat, at: nat, v: u8)
    requires at < n <= data.Length
    modifies data
    ensures data[..n] == old(data[..n])[at := v]
    ensures forall i :: n <= i < data.Length ==> data[i] == old(data[i])
  {
    data[at] := v;
  }

  method Write32(data: array<u8>, ghost n: nat, at: nat, v: u32)
    requires at + 3 < n <= data.Length
    modifies data
    ensures data[..n] == Put32(old(data[..n]), at, v)
    ensures forall i :: n <= i < data.Length ==> data[i] == old(data[i])
  {
    Write16(data, n, at, v / TWO_16);
    Write16(data, n, at + 2, v % TWO_16);
  }

  method WriteRaw32(data: array<u8>, ghost n: nat, at: nat, v: u32)
    requires at + 3 < n <= data.Length
    modifies data
    ensures data[..n] == PutRaw32(old(data[..n]), at, v)
    ensures forall i :: n <= i < data.Length ==> data[i] == old(data[i])
  {
    data[at] := v % 256;
    data[at + 1] := v / 256 % 256;
    data[at + 2] := v / TWO_16 % 256;
    data[at + 3] := v / 0x100_0000;
  }

  method WriteMac(data: array<u8>, at: nat, m: Mac)
    requires at + 5 < data.Length
    modifies data
    ensures data[..] == PutMac(old(data[..]), at, m)
  {
    data[at], data[at + 1], data[at + 2] := m[0], m[1], m[2];
    data[at + 3], data[at + 4], data[at + 5] := m[3], m[4], m[5];
  }

  method BuildEthernetHeader(data: array<u8>, src: Mac, dst: Mac)
    requires data.Length >= ETHER
    modifies data
    ensures data[..] == PutEthernet(old(data[..]), src, dst)
  {
    WriteMac(data, 0, dst);
    WriteMac(data, 6, src);
    Whole(data);
    Write16(data, data.Length, 12, 0x0800);
    Whole(data);
  }

  method BuildIpHeader(data: array<u8>, src: u32, dst: u32, protocol: u8, totalLen: u16)
    requires data.Length >= L4
    modifies data
    ensures data[..] == PutIp(old(data[..]), src, dst, protocol, totalLen)
  {
    StartIpHeader(data, totalLen);
    data[22] := 64;
    data[NEXT_PROTO] := protocol;
    AddressIpHeader(data, src, dst);
  }

  method StartIpHeader(data: array<u8>, totalLen: u16)
    requires data.Length >= L4
    modifies data
    ensures data[..] == PutIpStart(old(data[..]), totalLen)
  {
    Whole(data);
    ghost var n := data.Length;
    Write8(data, n, VERSION_IHL, 4 * 16 + IPV4 / 4);
    Write8(data, n, 15, 0);
    Write16(data, n, TOTAL_LENGTH, totalLen);
    Write16(data, n, PACKET_ID, 0);
    Write16(data, n, 20, 0);
    Whole(data);
  }

  method AddressIpHeader(data: array<u8>, src: u32, dst: u32)
    requires data.Length >= L4
    modifies data
    ensures data[..] == PutIpAddresses(old(data[..]), src, dst)
  {
    Whole(data);
    ghost var n := data.Length;
    WriteRaw32(data, n, SRC_ADDR, src);
    WriteRaw32(data, n, DST_ADDR, dst);
    Write16(data, n, IP_CKSUM, 0);
    Whole(data);
  }

  method BuildTcpHeader(data: array<u8>, srcPort: u16, dstPort: u16)
    requires data.Length >= L4 + TCP_SIZE
    modifies data
    ensures data[..] == PutTcp(old(data[..]), srcPort, dstPort)
  {
    Whole(data);
    ghost var n := data.Length;
    Write16(data, n, SRC_PORT, srcPort);
    Write16(data, n, DST_PORT, dstPort);
    Write32(data, n, TCP_SEQ, 0);
    Write32(data, n, TCP_ACK, 0);
    Write8(data, n, TCP_DATA_OFF, TCP_SIZE / 4 * 16);
    Write8(data, n, TCP_FLAGS, 0);
    Write16(data, n, 48, 0);
    Write16(data, n, 52, 0);
    Write16(data, n, TCP_CKSUM, 0);
    Whole(data);
  }

  method BuildUdpHeader(data: array<u8>, srcPort: u16, dstPort: u16, length: u16)
    requires data.Length >= L4 + UDP_SIZE
    modifies data
    ensures data[..] == PutUdp(old(data[..]), srcPort, dstPort, length)
  {
    Whole(data);
    ghost var n := data.Length;
    Write16(data, n, SRC_PORT, srcPort);
    Write16(data, n, DST_PORT, dstPort);
    Write16(data, n, UDP_LEN, length);
    Write16(data, n, UDP_CKSUM, 0);
    Whole(data);
  }

  method BuildEchoHeader(data: array<u8>)
    requires data.Length >= L4 + ICMP_SIZE
    modifies data
    ensures data[..] == PutEcho(old(data[..]))
  {
    Whole(data);
    ghost var n := data.Length;
    Write8(data, n, L4, 8);
    Write8(data, n, L4 + 1, 0);
    Write16(data, n, L4 + 2, 0);
    Write16(data, n, L4 + 4, 0);
    Write16(data, n, L4 + 6, 0);
    Whole(data);
  }

  lemma Whole(data: array<u8>)
    ensures data[..] == data[..data.Length]
  {
  }

  method RecalculateIpChecksum(data: array<u8>, n: nat)
    requires L4 <= n <= data.Length
    modifies data
    ensures data[..n] == FixIpChecksum(old(data[..n]))
    ensures forall i :: n <= i < data.Length ==> data[i] == old(data[i])
  {
    Write16(data, n, IP_CKSUM, 0);
    var c := Checksum(data[ETHER..L4]);
    assert data[ETHER..L4] == IpHeader(data[..n]);
    Write16(data, n, IP_CKSUM, c);
  }

  method BuildNetworkHeaders(data: array<u8>, key: FlowKey, protocol: string, src: Mac, dst: Mac)
    requires L4 <= data.Length < TWO_32 && data[..] == Zeros(data.Length)
    modifies data
    ensures data[..] == NetworkHeaders(key, data.Length, protocol, src, dst)
    ensures Get16(data[..], TOTAL_LENGTH) == (data.Length - ETHER) % TWO_16
  {
    BuildEthernetHeader(data, src, dst);
    BuildIpHeader(data, key.srcIp, key.dstIp, ProtocolNumber(protocol), (data.Length - ETHER) % TWO_16);
    NetworkLength(key, data.Length, protocol, src, dst);
  }

  method FinishTemplate(data: array<u8>, key: FlowKey, protocol: string)
    requires TransportSize(protocol).Some? && data.Length >= L4 + TransportSize(protocol).value
    requires ETHER + Get16(data[..], TOTAL_LENGTH) <= data.Length
    modifies data
    ensures data[..] == Finished(old(data[..]), key, protocol)
  {
    TransportKeepsLength(data[..], key, protocol);
    if protocol == "tcp" {
      BuildTcpHeader(data, key.srcPort, key.dstPort);
      var c := L4Checksum(data[..]);
      Whole(data);
      Write16(data, data.Length, TCP_CKSUM, c);
    } else if protocol == "udp" {
      BuildUdpHeader(data, key.srcPort, key.dstPort, (data.Length - L4) % TWO_16);
      var c := L4Checksum(data[..]);
      Whole(data);
      Write16(data, data.Length, UDP_CKSUM, c);
    } else {
      BuildEchoHeader(data);
    }
    Whole(data);
    RecalculateIpChecksum(data, data.Length);
    Whole(data);
  }

  /** `build_template`: refuses unknown protocols and sizes below the headers, and otherwise writes the
      headers into a zero-filled frame and seals both checksums. */
  method BuildTemplate(key: FlowKey, size: u32, protocol: string, src: Mac, dst: Mac) returns (r: Option<Template>)
    ensures r == TemplateFor(key, size, protocol, src, dst)
  {
    var transport := TransportSize(protocol);
    if transport.None? || size < L4 + transport.value {
      return None;
    }
    var data := new u8[size](_ => 0);
    assert data[..] == Zeros(size);
    BuildNetworkHeaders(data, key, protocol, src, dst);
    FinishTemplate(data, key, protocol);
    r := Some(Template(key, size, L4 + transport.value, data[..]));
  }

  // ---------------------------------------------------------------- the mutator

  /** A template that `build_template` could have made, as far as the mutator relies on it. */
  predicate Usable(t: Template) {
    && t.payloadOffset in {L4 + UDP_SIZE, L4 + TCP_SIZE}
    && |t.data| >= t.payloadOffset
    && (t.data[NEXT_PROTO] == IPPROTO_TCP <==> t.payloadOffset == L4 + TCP_SIZE)
  }

  /** Template headers over a zeroed payload. */
  function Stamped(t: Template): (f: seq<u8>)
    requires Usable(t) && t.payloadOffset <= t.totalSize
    ensures |f| == t.totalSize
  {
    t.data[..t.payloadOffset] + Zeros(t.totalSize - t.payloadOffset)
  }

  /** Fields set for every copy: lengths, IP id and, for TCP, the sequence number. */
  function Addressed(t: Template, seqNum: u32, ipId: u16): (f: seq<u8>)
    requires Usable(t) && t.payloadOffset <= t.totalSize < TWO_16
    ensures |f| == t.totalSize
  {
    var f := Put16(Put16(Stamped(t), TOTAL_LENGTH, t.totalSize - ETHER), PACKET_ID, ipId);
    if f[NEXT_PROTO] == IPPROTO_TCP then Put32(f, TCP_SEQ, seqNum)
    else if f[NEXT_PROTO] == IPPROTO_UDP then Put16(f, UDP_LEN, t.totalSize - L4)
    else f
  }

  /** Both checksums, in the order of the mutator. */
  function Sealed(f: seq<u8>): (g: seq<u8>)
    requires |f| >= L4 + UDP_SIZE && (f[NEXT_PROTO] == IPPROTO_TCP ==> |f| >= L4 + TCP_SIZE)
    requires Get16(f, TOTAL_LENGTH) == |f| - ETHER
    ensures |g| == |f|
  {
    var a := FixIpChecksum(f);
    if f[NEXT_PROTO] == IPPROTO_TCP then FixL4Checksum(a, TCP_CKSUM)
    else if f[NEXT_PROTO] == IPPROTO_UDP then FixL4Checksum(a, UDP_CKSUM)
    else a
  }

  lemma AddressedLength(t: Template, seqNum: u32, ipId: u16)
    requires Usable(t) && t.payloadOffset <= t.totalSize < TWO_16
    ensures var f := Addressed(t, seqNum, ipId);
            && Get16(f, TOTAL_LENGTH) == t.totalSize - ETHER
            && f[NEXT_PROTO] == t.data[NEXT_PROTO]
  {
  }

  /** The frame `clone_and_mutate` leaves in the buffer. */
  function Mutated(t: Template, seqNum: u32, ipId: u16, checksums: bool): (f: seq<u8>)
    requires Usable(t) && t.payloadOffset <= t.totalSize < TWO_16
    ensures |f| == t.totalSize
  {
    AddressedLength(t, seqNum, ipId);
    if checksums then Sealed(Addressed(t, seqNum, ipId)) else Addressed(t, seqNum, ipId)
  }

  /** A packet buffer: its data room, of which the first `pktLen` bytes are the frame. */
  class Mbuf {
    const handle: nat  // which buffer of the pool this is
    const room: array<u8>
    var pktLen: nat

    ghost predicate Valid()
      reads this
    {
      pktLen <= room.Length
    }

    ghost function Bytes(): seq<u8>
      requires Valid()
      reads this, room
    {
      room[..pktLen]
    }

    constructor (handle: nat, capacity: nat)
      ensures Valid() && fresh(room) && room.Length == capacity && pktLen == 0 && this.handle == handle
    {
      this.handle := handle;
      room := new u8[capacity](_ => 0);
      pktLen := 0;
    }
  }

  method CopyHeaders(data: array<u8>, src: seq<u8>, header: nat, size: nat)
    requires header <= |src| && header <= size <= data.Length
    modifies data
    ensures data[..size] == src[..header] + Zeros(size - header)
  {
    var i := 0;
    while i < header
      invariant 0 <= i <= header
      invariant forall k :: 0 <= k < i ==> data[k] == src[k]
    {
      data[i] := src[i];
      i := i + 1;
    }
    while i < size
      invariant header <= i <= size
      invariant forall k :: 0 <= k < header ==> data[k] == src[k]
      invariant forall k :: header <= k < i ==> data[k] == 0
    {
      data[i] := 0;
      i := i + 1;
    }
  }

  method RecalculateL4Checksum(data: array<u8>, n: nat, at: nat)
    requires L4 <= at && at + 1 < n <= data.Length && ETHER + Get16(data[..n], TOTAL_LENGTH) <= n
    modifies data
    ensures data[..n] == FixL4Checksum(old(data[..n]), at)
    ensures forall i :: n <= i < data.Length ==> data[i] == old(data[i])
  {
    Write16(data, n, at, 0);
    var c := L4Checksum(data[..n]);
    Write16(data, n, at, c);
  }

  method AddressFrame(data: array<u8>, t: Template, seqNum: u32, ipId: u16)
    requires Usable(t) && t.payloadOffset <= t.totalSize < TWO_16 && t.totalSize <= data.Length
    requires data[..t.totalSize] == Stamped(t)
    modifies data
    ensures data[..t.totalSize] == Addressed(t, seqNum, ipId)
  {
    var size := t.totalSize;
    Write16(data, size, TOTAL_LENGTH, size - ETHER);
    Write16(data, size, PACKET_ID, ipId);
    assert data[NEXT_PROTO] == data[..size][NEXT_PROTO];
    if data[NEXT_PROTO] == IPPROTO_TCP {
      Write32(data, size, TCP_SEQ, seqNum);
    } else if data[NEXT_PROTO] == IPPROTO_UDP {
      Write16(data, size, UDP_LEN, size - L4);
    }
  }

  method SealFrame(data: array<u8>, size: nat)
    requires L4 + UDP_SIZE <= size <= data.Length && (data[NEXT_PROTO] == IPPROTO_TCP ==> size >= L4 + TCP_SIZE)
    requires Get16(data[..size], TOTAL_LENGTH) == size - ETHER
    modifies data
    ensures data[..size] == Sealed(old(data[..size]))
  {
    ghost var f := data[..size];
    var protocol := data[NEXT_PROTO];
    RecalculateIpChecksum(data, size);
    assert Get16(data[..size], TOTAL_LENGTH) == Get16(f, TOTAL_LENGTH);
    if protocol == IPPROTO_TCP {
      RecalculateL4Checksum(data, size, TCP_CKSUM);
    } else if protocol == IPPROTO_UDP {
      RecalculateL4Checksum(data, size, UDP_CKSUM);
    }
  }

  /** How a copy can end. `Spills` is where the source goes on writing behind the data room; the model stops
      there. */
  datatype CloneResult = Refused | Done | Spills

  /** What the append call adds to a buffer shorter than the frame: its length argument has 16 bits. */
  function Appended(pktLen: nat, size: nat): nat {
    if pktLen < size then (size - pktLen) % TWO_16 else 0
  }

  /** The length of the buffer after the append or trim, if the append finds room. */
  function Resized(pktLen: nat, size: nat): nat {
    if pktLen < size then pktLen + Appended(pktLen, size) else size
  }

  predicate AppendFits(pktLen: nat, size: nat, room: nat) {
    pktLen + Appended(pktLen, size) <= room
  }

  /** Copy and zero fill write all positions below the untruncated size. */
  function CloneOutcome(t: Template, pktLen: nat, room: nat): CloneResult {
    if t.data == [] || !AppendFits(pktLen, t.totalSize, room) || |t.data| < t.payloadOffset then Refused
    else if t.totalSize <= room then Done
    else Spills
  }

  /** `clone_and_mutate`: refuses an empty template, resizes the buffer (which fails when the data room is
      too small for the truncated length), refuses a template shorter than its own headers, stamps it over
      the buffer and sets the per-copy fields. A zero sequence number means a drawn one. */
  method CloneAndMutate(m: Mbuf, t: Template, sequence: u32, drawnSeq: u32, ipId: u16, checksums: bool)
    returns (r: CloneResult)
    requires m.Valid() && m.room.Length < TWO_16
    requires t.data != [] && |t.data| >= t.payloadOffset ==> Usable(t) && t.payloadOffset <= t.totalSize
    modifies m, m.room
    ensures m.Valid() && r == CloneOutcome(t, old(m.pktLen), m.room.Length)
    ensures r == Done ==> m.Bytes() == Mutated(t, if sequence > 0 then sequence else drawnSeq, ipId, checksums)
    ensures r == Spills ==> m.room[..] == Stamped(t)[..m.room.Length] && m.room.Length < t.totalSize
    ensures r == Refused ==> m.room[..] == old(m.room[..])
    ensures r == Refused ==>
              m.pktLen == if t.data != [] && AppendFits(old(m.pktLen), t.totalSize, m.room.Length)
                          then Resized(old(m.pktLen), t.totalSize) else old(m.pktLen)
  {
    if t.data == [] {
      return Refused;
    }
    var size := t.totalSize;
    if m.pktLen < size {
      var length := (size - m.pktLen) % TWO_16;
      if m.pktLen + length > m.room.Length {
        return Refused;
      }
      m.pktLen := m.pktLen + length;
    } else if m.pktLen > size {
      m.pktLen := size;
    }
    if |t.data| < t.payloadOffset {
      return Refused;
    }
    if size > m.room.Length {
      FillRoom(m.room, t);
      return Spills;
    }
    m.pktLen := size;
    StampFrame(m, t, if sequence > 0 then sequence else drawnSeq, ipId, checksums);
    r := Done;
  }

  /** The part of an overlong copy that still falls into the data room: all of it is overwritten. */
  method FillRoom(data: array<u8>, t: Template)
    requires Usable(t) && t.payloadOffset <= t.totalSize && data.Length < t.totalSize
    modifies data
    ensures data[..] == Stamped(t)[..data.Length]
  {
    var i := 0;
    while i < data.Length
      invariant 0 <= i <= data.Length
      invariant forall k :: 0 <= k < i ==> data[k] == Stamped(t)[k]
    {
      data[i] := if i < t.payloadOffset then t.data[i] else 0;
      i := i + 1;
    }
  }

  /** The copy itself, once the buffer has the template's size. */
  method StampFrame(m: Mbuf, t: Template, seqNum: u32, ipId: u16, checksums: bool)
    requires m.Valid() && m.pktLen == t.totalSize && Usable(t) && t.payloadOffset <= t.totalSize < TWO_16
    modifies m.room
    ensures m.Bytes() == Mutated(t, seqNum, ipId, checksums)
  {
    var size := t.totalSize;
    CopyHeaders(m.room, t.data, t.payloadOffset, size);
    AddressFrame(m.room, t, seqNum, ipId);
    if checksums {
      AddressedLength(t, seqNum, ipId);
      assert m.room[NEXT_PROTO] == m.room[..size][NEXT_PROTO];
      SealFrame(m.room, size);
    }
  }

  // ---------------------------------------------------------------- stateful rewrite and receive

  /** The frame after the worker has put in the connection's own ACK flag and numbers. */
  function Rewritten(f: seq<u8>, sendSeq: u32, sendAck: u32): (g: seq<u8>)
    requires |f| >= L4 + TCP_SIZE && ETHER + Get16(f, TOTAL_LENGTH) <= |f|
    ensures |g| == |f|
  {
    FixL4Checksum(Put32(Put32(f[TCP_FLAGS := ACK_FLAG], TCP_SEQ, sendSeq), TCP_ACK, sendAck), TCP_CKSUM)
  }

  /** The payload length as both the worker's send and receive paths compute it, in 16 bits. */
  function PayloadLength(f: seq<u8>): u32
    requires |f| >= L4 + TCP_SIZE
  {
    var l4Len := (Get16(f, TOTAL_LENGTH) - IPV4) % TWO_16;
    var tcpHeader := f[TCP_DATA_OFF] / 16 * 4;
    if l4Len > tcpHeader then l4Len - tcpHeader else 0
  }

  method RewriteForConnection(m: Mbuf, sendSeq: u32, sendAck: u32) returns (payload: u32)
    requires m.Valid() && m.pktLen >= L4 + TCP_SIZE && ETHER + Get16(m.Bytes(), TOTAL_LENGTH) <= m.pktLen
    modifies m.room
    ensures m.Bytes() == Rewritten(old(m.Bytes()), sendSeq, sendAck)
    ensures payload == PayloadLength(old(m.Bytes()))
  {
    var n := m.pktLen;
    ghost var f := m.Bytes();
    Write8(m.room, n, TCP_FLAGS, ACK_FLAG);
    Write32(m.room, n, TCP_SEQ, sendSeq);
    Write32(m.room, n, TCP_ACK, sendAck);
    var g := m.room[..n];
    assert Get16(g, TOTAL_LENGTH) == Get16(f, TOTAL_LENGTH) && g[TCP_DATA_OFF] == f[TCP_DATA_OFF];
    var l4Len := (Get16(g, TOTAL_LENGTH) - IPV4) % TWO_16;
    var tcpHeader := g[TCP_DATA_OFF] / 16 * 4;
    payload := if l4Len > tcpHeader then l4Len - tcpHeader else 0;
    RecalculateL4Checksum(m.room, n, TCP_CKSUM);
  }

  /** What the receive path reads out of a TCP frame. */
  datatype RxTcp = RxTcp(key: FlowKey, flags: u8, seqNum: u32, ackNum: u32, payload: u32)

  function ParseRx(f: seq<u8>): Option<RxTcp>
    requires |f| >= L4 + TCP_SIZE
  {
    if f[VERSION_IHL] / 16 == 4 && f[NEXT_PROTO] == IPPROTO_TCP then
      Some(RxTcp(
        FlowKey(GetRaw32(f, SRC_ADDR), GetRaw32(f, DST_ADDR), Get16(f, SRC_PORT), Get16(f, DST_PORT), IPPROTO_TCP),
        f[TCP_FLAGS], Get32(f, TCP_SEQ), Get32(f, TCP_ACK), PayloadLength(f)))
    else None
  }
}
