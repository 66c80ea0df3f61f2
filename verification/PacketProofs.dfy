/** Properties of built frames: field values, checksums, and the receive parser undoing the builder. */
module PacketProofs {
  import opened Words
  import opened FlowKeys
  import opened Checksums
  import opened Packets

  // ---------------------------------------------------------------- field access

  lemma Get16OfPut16(f: seq<u8>, at: nat, v: u16)
    requires at + 1 < |f|
    ensures Get16(Put16(f, at, v), at) == v
  {
  }

  lemma Get32OfPut32(f: seq<u8>, at: nat, v: u32)
    requires at + 3 < |f|
    ensures Get32(Put32(f, at, v), at) == v
  {
    var g := Put16(f, at, v / TWO_16);
    Get16OfPut16(f, at, v / TWO_16);
    Get16OfPut16(g, at + 2, v % TWO_16);
    assert Get16(Put32(f, at, v), at) == Get16(g, at);
  }

  lemma GetRawOfPutRaw(f: seq<u8>, at: nat, v: u32)
    requires at + 3 < |f|
    ensures GetRaw32(PutRaw32(f, at, v), at) == v
  {
    assert v == 256 * (v / 256) + v % 256;
    assert v / TWO_16 == v / 256 / 256 && v / 0x100_0000 == v / TWO_16 / 256;
  }

  /** Nothing outside [from, to) differs. */
  ghost predicate SameOutside(f: seq<u8>, g: seq<u8>, from: nat, to: nat) {
    |f| == |g| && forall i :: 0 <= i < |f| && !(from <= i < to) ==> g[i] == f[i]
  }

  // ---------------------------------------------------------------- headers

  ghost predicate IpFields(f: seq<u8>, key: FlowKey, protocol: u8) {
    && |f| >= L4
    && f[VERSION_IHL] == 0x45 && f[15] == f[20] == f[21] == 0 && f[22] == 64 && f[NEXT_PROTO] == protocol
    && GetRaw32(f, SRC_ADDR) == key.srcIp && GetRaw32(f, DST_ADDR) == key.dstIp
  }

  ghost predicate TcpFields(f: seq<u8>, key: FlowKey) {
    |f| >= L4 + TCP_SIZE && f[TCP_DATA_OFF] == 0x50 && f[48] == f[49] == f[52] == f[53] == 0 && PortFields(f, key)
  }

  ghost predicate PortFields(f: seq<u8>, key: FlowKey) {
    |f| >= L4 + UDP_SIZE && Get16(f, SRC_PORT) == key.srcPort && Get16(f, DST_PORT) == key.dstPort
  }

  lemma PutIpFields(f: seq<u8>, key: FlowKey, protocol: u8, totalLen: u16)
    requires |f| >= L4
    ensures var g := PutIp(f, key.srcIp, key.dstIp, protocol, totalLen);
            IpFields(g, key, protocol) && Get16(g, TOTAL_LENGTH) == totalLen
  {
    var a := PutIpStart(f, totalLen)[22 := 64][NEXT_PROTO := protocol];
    var b := PutRaw32(a, SRC_ADDR, key.srcIp);
    var c := PutRaw32(b, DST_ADDR, key.dstIp);
    GetRawOfPutRaw(a, SRC_ADDR, key.srcIp);
    GetRawOfPutRaw(b, DST_ADDR, key.dstIp);
    assert GetRaw32(c, SRC_ADDR) == GetRaw32(b, SRC_ADDR);
    var g := Put16(c, IP_CKSUM, 0);
    assert g == PutIp(f, key.srcIp, key.dstIp, protocol, totalLen);
    assert GetRaw32(g, SRC_ADDR) == GetRaw32(c, SRC_ADDR) && GetRaw32(g, DST_ADDR) == GetRaw32(c, DST_ADDR);
  }

  lemma PutTransportFields(f: seq<u8>, key: FlowKey, protocol: string)
    requires TransportSize(protocol).Some? && |f| >= L4 + TransportSize(protocol).value
    ensures var g := PutTransport(f, key, protocol);
            && g[..L4] == f[..L4]
            && (protocol == "tcp" ==> TcpFields(g, key))
            && (protocol == "udp" ==> PortFields(g, key))
  {
  }

  /** Positions that differ between a template and its copies. */
  predicate Volatile(i: nat) {
    i in {TOTAL_LENGTH, TOTAL_LENGTH + 1, PACKET_ID, PACKET_ID + 1, IP_CKSUM, IP_CKSUM + 1}
    || TCP_SEQ <= i < TCP_DATA_OFF || i in {TCP_FLAGS, TCP_CKSUM, TCP_CKSUM + 1}
  }

  /** Fields survive changes of bytes that hold none of them. */
  lemma FieldsSurvive(f: seq<u8>, g: seq<u8>, key: FlowKey, protocol: u8, n: nat)
    requires n <= |f| && n <= |g| && n >= L4
    requires forall i :: 0 <= i < n && !Volatile(i) ==> g[i] == f[i]
    ensures IpFields(f, key, protocol) ==> IpFields(g, key, protocol)
    ensures n >= L4 + UDP_SIZE && PortFields(f, key) ==> PortFields(g, key)
    ensures n >= L4 + TCP_SIZE && TcpFields(f, key) ==> TcpFields(g, key)
  {
  }

  // ---------------------------------------------------------------- templates

  /** What every template made by `build_template` is like. */
  ghost predicate Built(t: Template, protocol: string) {
    && TransportSize(protocol).Some? && t.payloadOffset == L4 + TransportSize(protocol).value
    && |t.data| == t.totalSize >= t.payloadOffset
    && IpFields(t.data, t.key, ProtocolNumber(protocol))
    && (protocol == "tcp" ==> TcpFields(t.data, t.key))
    && (protocol == "udp" ==> PortFields(t.data, t.key))
  }

  /** A template has the key, size and offset asked for, and the key's fields in its frame. */
  lemma TemplateIsBuilt(key: FlowKey, size: u32, protocol: string, src: Mac, dst: Mac)
    requires TemplateFor(key, size, protocol, src, dst).Some?
    ensures var t := TemplateFor(key, size, protocol, src, dst).value;
            t.key == key && t.totalSize == size && Built(t, protocol)
  {
    NetworkHeadersFields(key, size, protocol, src, dst);
    NetworkLength(key, size, protocol, src, dst);
    FinishedFields(NetworkHeaders(key, size, protocol, src, dst), key, protocol);
  }

  /** The Ethernet header of a template: destination first, then source, then the IPv4 type. */
  lemma TemplateEthernet(key: FlowKey, size: u32, protocol: string, src: Mac, dst: Mac)
    requires TemplateFor(key, size, protocol, src, dst).Some?
    ensures var d := TemplateFor(key, size, protocol, src, dst).value.data;
            |d| == size && d[..ETHER] == dst + src + [0x08, 0x00]
  {
    NetworkKeepsEthernet(key, size, protocol, src, dst);
    NetworkLength(key, size, protocol, src, dst);
    FinishedKeepsEthernet(NetworkHeaders(key, size, protocol, src, dst), key, protocol);
  }

  lemma NetworkKeepsEthernet(key: FlowKey, size: u32, protocol: string, src: Mac, dst: Mac)
    requires size >= L4
    ensures NetworkHeaders(key, size, protocol, src, dst)[..ETHER] == dst + src + [0x08, 0x00]
  {
    var e := PutEthernet(Zeros(size), src, dst);
    assert e[..ETHER] == dst + src + [0x08, 0x00];
    assert NetworkHeaders(key, size, protocol, src, dst)[..ETHER] == e[..ETHER];
  }

  lemma FinishedKeepsEthernet(f: seq<u8>, key: FlowKey, protocol: string)
    requires TransportSize(protocol).Some? && |f| >= L4 + TransportSize(protocol).value
    requires ETHER + Get16(f, TOTAL_LENGTH) <= |f|
    ensures Finished(f, key, protocol)[..ETHER] == f[..ETHER]
  {
    TransportKeepsLength(f, key, protocol);
    PutTransportFields(f, key, protocol);
    var g := PutTransport(f, key, protocol);
    assert g[..ETHER] == g[..L4][..ETHER] == f[..L4][..ETHER] == f[..ETHER];
    assert SealTransport(g, protocol)[..ETHER] == g[..ETHER];
  }

  lemma ProtocolSizes(protocol: string)
    requires TransportSize(protocol).Some?
    ensures TransportSize(protocol).value in {TCP_SIZE, UDP_SIZE}
    ensures protocol == "tcp" <==> TransportSize(protocol).value == TCP_SIZE
    ensures protocol == "tcp" <==> ProtocolNumber(protocol) == IPPROTO_TCP
    ensures protocol == "udp" <==> ProtocolNumber(protocol) == IPPROTO_UDP
  {
  }

  lemma NetworkHeadersFields(key: FlowKey, size: u32, protocol: string, src: Mac, dst: Mac)
    requires size >= L4
    ensures var f := NetworkHeaders(key, size, protocol, src, dst);
            IpFields(f, key, ProtocolNumber(protocol)) && Get16(f, TOTAL_LENGTH) == (size - ETHER) % TWO_16
  {
    PutIpFields(PutEthernet(Zeros(size), src, dst), key, ProtocolNumber(protocol), (size - ETHER) % TWO_16);
  }

  lemma FinishedFields(f: seq<u8>, key: FlowKey, protocol: string)
    requires TransportSize(protocol).Some? && |f| >= L4 + TransportSize(protocol).value
    requires ETHER + Get16(f, TOTAL_LENGTH) <= |f| && IpFields(f, key, ProtocolNumber(protocol))
    ensures var g := Finished(f, key, protocol);
            && IpFields(g, key, ProtocolNumber(protocol))
            && (protocol == "tcp" ==> TcpFields(g, key))
            && (protocol == "udp" ==> PortFields(g, key))
  {
    var g := PutTransport(f, key, protocol);
    PutTransportFields(f, key, protocol);
    assert forall i :: 0 <= i < L4 ==> g[i] == g[..L4][i];
    FieldsSurvive(f, g, key, ProtocolNumber(protocol), L4);
    TransportKeepsLength(f, key, protocol);
    var h := SealTransport(g, protocol);
    SealKeepsFields(g, h, key, protocol);
    FieldsSurvive(h, FixIpChecksum(h), key, ProtocolNumber(protocol), |h|);
  }

  lemma SealKeepsFields(g: seq<u8>, h: seq<u8>, key: FlowKey, protocol: string)
    requires TransportSize(protocol).Some? && |g| >= L4 + TransportSize(protocol).value
    requires ETHER + Get16(g, TOTAL_LENGTH) <= |g| && h == SealTransport(g, protocol)
    requires IpFields(g, key, ProtocolNumber(protocol))
    requires protocol == "tcp" ==> TcpFields(g, key)
    requires protocol == "udp" ==> PortFields(g, key)
    ensures IpFields(h, key, ProtocolNumber(protocol))
    ensures protocol == "tcp" ==> TcpFields(h, key)
    ensures protocol == "udp" ==> PortFields(h, key)
  {
    FieldsSurvive(g, h, key, ProtocolNumber(protocol), |h|);
  }

  // ---------------------------------------------------------------- checksums

  ghost predicate IpVerifies(f: seq<u8>) {
    |f| >= L4 && Verifies(IpHeader(f))
  }

  ghost predicate L4Verifies(f: seq<u8>) {
    HoldsDatagram(f) && Verifies(Covered(f))
  }

  lemma FixedIpChecksumVerifies(f: seq<u8>)
    requires |f| >= L4
    ensures IpVerifies(FixIpChecksum(f))
    ensures SameOutside(f, FixIpChecksum(f), IP_CKSUM, IP_CKSUM + 2)
  {
    var z, g := Put16(f, IP_CKSUM, 0), FixIpChecksum(f);
    var c := Checksum(IpHeader(z));
    Get16OfPut16(z, IP_CKSUM, c);
    StoredChecksumVerifies(IpHeader(z), IpHeader(g), IP_CKSUM - ETHER, c);
  }

  /** The covered bytes around the aligned word of the frame at `at`, which sits at an even position. */
  lemma CoveredAround(f: seq<u8>, at: nat)
    requires HoldsDatagram(f) && L4 <= at && at + 1 < ETHER + Get16(f, TOTAL_LENGTH)
    ensures var s, k, end := Covered(f), 12 + (at - L4), ETHER + Get16(f, TOTAL_LENGTH);
            && |s| == 12 + (end - L4) && s[k] == f[at] && s[k + 1] == f[at + 1]
            && s[..k] == PseudoHeader(f) + f[L4..at] && s[k + 2..] == f[at + 2..end]
  {
  }

  /** Storing a word at `at` changes just that word of the covered bytes. */
  lemma CoveredAfterStore(z: seq<u8>, at: nat, c: u16)
    requires HoldsDatagram(z) && L4 <= at && at + 1 < ETHER + Get16(z, TOTAL_LENGTH)
    ensures var g, k := Put16(z, at, c), 12 + (at - L4);
            && HoldsDatagram(g) && Get16(g, TOTAL_LENGTH) == Get16(z, TOTAL_LENGTH)
            && var s, t := Covered(z), Covered(g);
               && |s| == |t| && k + 1 < |s| && s[..k] == t[..k] && s[k + 2..] == t[k + 2..]
               && s[k] == z[at] && s[k + 1] == z[at + 1] && Word(t[k], t[k + 1]) == c
  {
    var g := Put16(z, at, c);
    Get16OfPut16(z, at, c);
    assert Get16(z, TOTAL_LENGTH) == Get16(g, TOTAL_LENGTH);
    CoveredAround(z, at);
    CoveredAround(g, at);
    assert PseudoHeader(z) == PseudoHeader(g);
    assert z[L4..at] == g[L4..at];
    var end := ETHER + Get16(z, TOTAL_LENGTH);
    assert z[at + 2..end] == g[at + 2..end];
  }

  lemma FixL4IsLocal(f: seq<u8>, at: nat)
    requires HoldsDatagram(f) && L4 <= at && at + 1 < ETHER + Get16(f, TOTAL_LENGTH)
    ensures SameOutside(f, FixL4Checksum(f, at), at, at + 2)
  {
    var z := Put16(f, at, 0);
    PutIsLocal(f, at, 0);
    PutIsLocal(z, at, L4Checksum(z));
  }

  lemma PutIsLocal(f: seq<u8>, at: nat, v: u16)
    requires at + 1 < |f|
    ensures SameOutside(f, Put16(f, at, v), at, at + 2)
    ensures v == 0 ==> Put16(f, at, v)[at] == Put16(f, at, v)[at + 1] == 0
  {
  }

  lemma FixedL4ChecksumVerifies(f: seq<u8>, at: nat)
    requires HoldsDatagram(f) && L4 <= at && at % 2 == 0 && at + 1 < ETHER + Get16(f, TOTAL_LENGTH)
    ensures L4Verifies(FixL4Checksum(f, at))
  {
    var z := Put16(f, at, 0);
    CoveredAfterStore(f, at, 0);
    PutIsLocal(f, at, 0);
    StoredL4Verifies(z, at);
  }

  lemma StoredL4Verifies(z: seq<u8>, at: nat)
    requires HoldsDatagram(z) && L4 <= at && at % 2 == 0 && at + 1 < ETHER + Get16(z, TOTAL_LENGTH)
    requires z[at] == z[at + 1] == 0
    ensures L4Verifies(Put16(z, at, L4Checksum(z)))
  {
    var c, k := L4Checksum(z), 12 + (at - L4);
    CoveredAfterStore(z, at, c);
    EvenShift(at);
    StoredChecksumVerifies(Covered(z), Covered(Put16(z, at, c)), k, c);
  }

  lemma EvenShift(at: nat)
    requires at >= L4 && at % 2 == 0
    ensures (12 + (at - L4)) % 2 == 0
  {
  }

  predicate ChecksumByte(protocol: u8, i: nat) {
    || i in {IP_CKSUM, IP_CKSUM + 1}
    || (protocol == IPPROTO_TCP && i in {TCP_CKSUM, TCP_CKSUM + 1})
    || (protocol == IPPROTO_UDP && i in {UDP_CKSUM, UDP_CKSUM + 1})
  }

  /** Sealing a frame makes both sums verify, and touches nothing but the two checksum fields. */
  lemma SealedVerifies(f: seq<u8>)
    requires |f| >= L4 + UDP_SIZE && (f[NEXT_PROTO] == IPPROTO_TCP ==> |f| >= L4 + TCP_SIZE)
    requires Get16(f, TOTAL_LENGTH) == |f| - ETHER
    ensures var g := Sealed(f);
            && IpVerifies(g)
            && (f[NEXT_PROTO] in {IPPROTO_TCP, IPPROTO_UDP} ==> L4Verifies(g))
            && |g| == |f| && forall i :: 0 <= i < |f| && !ChecksumByte(f[NEXT_PROTO], i) ==> g[i] == f[i]
  {
    FixedIpChecksumVerifies(f);
    var a, g := FixIpChecksum(f), Sealed(f);
    assert Get16(a, TOTAL_LENGTH) == Get16(f, TOTAL_LENGTH);
    if f[NEXT_PROTO] == IPPROTO_TCP {
      FixedL4ChecksumVerifies(a, TCP_CKSUM);
      FixL4IsLocal(a, TCP_CKSUM);
      assert IpHeader(g) == IpHeader(a);
    } else if f[NEXT_PROTO] == IPPROTO_UDP {
      FixedL4ChecksumVerifies(a, UDP_CKSUM);
      FixL4IsLocal(a, UDP_CKSUM);
      assert IpHeader(g) == IpHeader(a);
    }
  }

  // ---------------------------------------------------------------- template checksums

  /** The 16-bit length of the header covers the transport header. */
  predicate CoversHeader(size: u32, protocol: string)
    requires TransportSize(protocol).Some?
  {
    (size - ETHER) % TWO_16 >= IPV4 + TransportSize(protocol).value
  }

  lemma SmallSizesCover(size: u32, protocol: string)
    requires TransportSize(protocol).Some? && L4 + TransportSize(protocol).value <= size < TWO_16
    ensures CoversHeader(size, protocol)
  {
    var n := size - ETHER;
    assert n % TWO_16 == n;
  }

  lemma SegmentVerifies(f: seq<u8>, key: FlowKey, protocol: string)
    requires TransportSize(protocol).Some? && |f| >= L4 + TransportSize(protocol).value
    requires IPV4 + TransportSize(protocol).value <= Get16(f, TOTAL_LENGTH) && ETHER + Get16(f, TOTAL_LENGTH) <= |f|
    requires protocol == "tcp" || protocol == "udp"
    ensures Get16(PutTransport(f, key, protocol), TOTAL_LENGTH) == Get16(f, TOTAL_LENGTH)
    ensures L4Verifies(SealTransport(PutTransport(f, key, protocol), protocol))
  {
    TransportKeepsLength(f, key, protocol);
    var g := PutTransport(f, key, protocol);
    if protocol == "tcp" {
      assert g[TCP_CKSUM] == g[TCP_CKSUM + 1] == 0;
      StoredL4Verifies(g, TCP_CKSUM);
    } else {
      assert g[UDP_CKSUM] == g[UDP_CKSUM + 1] == 0;
      StoredL4Verifies(g, UDP_CKSUM);
    }
  }

  lemma IpChecksumNotCovered(f: seq<u8>)
    requires |f| >= L4 && L4Verifies(f)
    ensures L4Verifies(FixIpChecksum(f))
  {
    var g := FixIpChecksum(f);
    FixedIpChecksumVerifies(f);
    assert Get16(g, TOTAL_LENGTH) == Get16(f, TOTAL_LENGTH);
    assert PseudoHeader(g) == PseudoHeader(f);
    assert g[L4..ETHER + Get16(g, TOTAL_LENGTH)] == f[L4..ETHER + Get16(f, TOTAL_LENGTH)];
  }

  lemma FinishedVerifies(f: seq<u8>, key: FlowKey, protocol: string)
    requires TransportSize(protocol).Some? && |f| >= L4 + TransportSize(protocol).value
    requires ETHER + Get16(f, TOTAL_LENGTH) <= |f|
    ensures IpVerifies(Finished(f, key, protocol))
    ensures (protocol == "tcp" || protocol == "udp")
            && Get16(f, TOTAL_LENGTH) >= IPV4 + TransportSize(protocol).value ==>
              L4Verifies(Finished(f, key, protocol))
  {
    TransportKeepsLength(f, key, protocol);
    var h := SealTransport(PutTransport(f, key, protocol), protocol);
    FixedIpChecksumVerifies(h);
    if (protocol == "tcp" || protocol == "udp") && Get16(f, TOTAL_LENGTH) >= IPV4 + TransportSize(protocol).value {
      SegmentVerifies(f, key, protocol);
      IpChecksumNotCovered(h);
    }
  }

  /** The checksums `build_template` itself writes verify: the header's for every size, the segment's for every
      size whose 16-bit length covers the transport header, so for all below 65536. */
  lemma TemplateVerifies(key: FlowKey, size: u32, protocol: string, src: Mac, dst: Mac)
    requires TemplateFor(key, size, protocol, src, dst).Some?
    ensures IpVerifies(TemplateFor(key, size, protocol, src, dst).value.data)
    ensures (protocol == "tcp" || protocol == "udp") && CoversHeader(size, protocol) ==>
              L4Verifies(TemplateFor(key, size, protocol, src, dst).value.data)
    ensures size < TWO_16 ==> CoversHeader(size, protocol)
  {
    if size < TWO_16 {
      SmallSizesCover(size, protocol);
    }
    NetworkLength(key, size, protocol, src, dst);
    FinishedVerifies(NetworkHeaders(key, size, protocol, src, dst), key, protocol);
  }

  // ---------------------------------------------------------------- mutated copies

  /** The bytes of a copy before its checksums: template headers with the three fields changed, and
      a zero payload. */
  lemma AddressedBytes(t: Template, seqNum: u32, ipId: u16)
    requires Usable(t) && t.payloadOffset <= t.totalSize < TWO_16
    ensures var f := Addressed(t, seqNum, ipId);
            && (forall i :: 0 <= i < t.payloadOffset && !Volatile(i) ==> f[i] == t.data[i])
            && (forall i :: t.payloadOffset <= i < |f| ==> f[i] == 0)
            && Get16(f, TOTAL_LENGTH) == t.totalSize - ETHER && Get16(f, PACKET_ID) == ipId
            && f[NEXT_PROTO] == t.data[NEXT_PROTO]
            && (f[NEXT_PROTO] == IPPROTO_TCP ==> Get32(f, TCP_SEQ) == seqNum)
            && (f[NEXT_PROTO] == IPPROTO_UDP ==> Get16(f, UDP_LEN) == t.totalSize - L4)
  {
    AddressedLength(t, seqNum, ipId);
    var f := Put16(Put16(Stamped(t), TOTAL_LENGTH, t.totalSize - ETHER), PACKET_ID, ipId);
    assert Get16(f, PACKET_ID) == ipId;
    if f[NEXT_PROTO] == IPPROTO_TCP {
      Get32OfPut32(f, TCP_SEQ, seqNum);
    } else if f[NEXT_PROTO] == IPPROTO_UDP {
      Get16OfPut16(f, UDP_LEN, t.totalSize - L4);
    }
  }

  /** Every copy stamped from a built template, of any size that holds the headers: the lengths match the
      frame, both sums verify, the key's fields are those of the template and the payload is zero. */
  lemma MutatedFrameCorrect(t: Template, protocol: string, size: u32, seqNum: u32, ipId: u16)
    requires Built(t, protocol) && t.payloadOffset <= size < TWO_16
    ensures Usable(t.(totalSize := size))
    ensures var g := Mutated(t.(totalSize := size), seqNum, ipId, true);
            && |g| == size && Get16(g, TOTAL_LENGTH) == size - ETHER && Get16(g, PACKET_ID) == ipId
            && IpVerifies(g) && IpFields(g, t.key, ProtocolNumber(protocol))
            && (protocol == "tcp" ==> L4Verifies(g) && TcpFields(g, t.key) && Get32(g, TCP_SEQ) == seqNum)
            && (protocol == "udp" ==> L4Verifies(g) && PortFields(g, t.key) && Get16(g, UDP_LEN) == size - L4)
            && (forall i :: t.payloadOffset <= i < size ==> g[i] == 0)
            && (forall i :: 0 <= i < ETHER ==> g[i] == t.data[i])
  {
    ProtocolSizes(protocol);
    var u := t.(totalSize := size);
    var f := Addressed(u, seqNum, ipId);
    AddressedFields(t, protocol, size, seqNum, ipId);
    SealedVerifies(f);
    SealedFields(f, Sealed(f), t.key, protocol, t.payloadOffset);
  }

  lemma AddressedFields(t: Template, protocol: string, size: u32, seqNum: u32, ipId: u16)
    requires Built(t, protocol) && t.payloadOffset <= size < TWO_16
    ensures Usable(t.(totalSize := size))
    ensures var f := Addressed(t.(totalSize := size), seqNum, ipId);
            && |f| == size && Get16(f, TOTAL_LENGTH) == size - ETHER && Get16(f, PACKET_ID) == ipId
            && IpFields(f, t.key, ProtocolNumber(protocol))
            && (protocol == "tcp" ==> TcpFields(f, t.key) && Get32(f, TCP_SEQ) == seqNum)
            && (protocol == "udp" ==> PortFields(f, t.key) && Get16(f, UDP_LEN) == size - L4)
            && (forall i :: t.payloadOffset <= i < size ==> f[i] == 0)
            && (forall i :: 0 <= i < ETHER ==> f[i] == t.data[i])
  {
    ProtocolSizes(protocol);
    AddressedBytes(t.(totalSize := size), seqNum, ipId);
    FieldsSurvive(t.data, Addressed(t.(totalSize := size), seqNum, ipId), t.key, ProtocolNumber(protocol),
                  t.payloadOffset);
  }

  lemma SealedFields(f: seq<u8>, g: seq<u8>, key: FlowKey, protocol: string, n: nat)
    requires TransportSize(protocol).Some? && L4 + TransportSize(protocol).value == n <= |f| == |g|
    requires forall i :: 0 <= i < |f| && !ChecksumByte(f[NEXT_PROTO], i) ==> g[i] == f[i]
    requires IpFields(f, key, ProtocolNumber(protocol))
    requires protocol == "tcp" ==> TcpFields(f, key)
    requires protocol == "udp" ==> PortFields(f, key)
    ensures Get16(g, TOTAL_LENGTH) == Get16(f, TOTAL_LENGTH) && Get16(g, PACKET_ID) == Get16(f, PACKET_ID)
    ensures IpFields(g, key, ProtocolNumber(protocol))
    ensures protocol == "tcp" ==> TcpFields(g, key) && Get32(g, TCP_SEQ) == Get32(f, TCP_SEQ)
    ensures protocol == "udp" ==> PortFields(g, key) && Get16(g, UDP_LEN) == Get16(f, UDP_LEN)
    ensures forall i :: 0 <= i < ETHER || n <= i < |f| ==> g[i] == f[i]
  {
    ProtocolSizes(protocol);
    FieldsSurvive(f, g, key, ProtocolNumber(protocol), n);
  }

  // ---------------------------------------------------------------- the stateful rewrite

  lemma RewrittenFrame(f: seq<u8>, key: FlowKey, sendSeq: u32, sendAck: u32)
    requires IpVerifies(f) && IpFields(f, key, IPPROTO_TCP) && TcpFields(f, key)
    requires Get16(f, TOTAL_LENGTH) == |f| - ETHER
    ensures var g := Rewritten(f, sendSeq, sendAck);
            && IpVerifies(g) && L4Verifies(g) && IpFields(g, key, IPPROTO_TCP) && TcpFields(g, key)
            && g[TCP_FLAGS] == ACK_FLAG && Get32(g, TCP_SEQ) == sendSeq && Get32(g, TCP_ACK) == sendAck
            && Get16(g, TOTAL_LENGTH) == |f| - ETHER
            && (forall i :: L4 + TCP_SIZE <= i < |f| ==> g[i] == f[i])
  {
    var c := Put32(Put32(f[TCP_FLAGS := ACK_FLAG], TCP_SEQ, sendSeq), TCP_ACK, sendAck);
    RenumberedFrame(f, sendSeq, sendAck);
    FixedL4ChecksumVerifies(c, TCP_CKSUM);
    FixL4IsLocal(c, TCP_CKSUM);
    var g := FixL4Checksum(c, TCP_CKSUM);
    assert IpHeader(g) == IpHeader(f);
    FieldsSurvive(f, g, key, IPPROTO_TCP, |f|);
  }

  lemma RenumberedFrame(f: seq<u8>, sendSeq: u32, sendAck: u32)
    requires |f| >= L4 + TCP_SIZE
    ensures var g := Put32(Put32(f[TCP_FLAGS := ACK_FLAG], TCP_SEQ, sendSeq), TCP_ACK, sendAck);
            && g[TCP_FLAGS] == ACK_FLAG && Get32(g, TCP_SEQ) == sendSeq && Get32(g, TCP_ACK) == sendAck
            && Get16(g, TOTAL_LENGTH) == Get16(f, TOTAL_LENGTH)
            && forall i :: 0 <= i < |f| && !(TCP_SEQ <= i < TCP_DATA_OFF) && i != TCP_FLAGS ==> g[i] == f[i]
  {
    var a := f[TCP_FLAGS := ACK_FLAG];
    var b := Put32(a, TCP_SEQ, sendSeq);
    var c := Put32(b, TCP_ACK, sendAck);
    Get32OfPut32(a, TCP_SEQ, sendSeq);
    Get32OfPut32(b, TCP_ACK, sendAck);
    assert Get32(c, TCP_SEQ) == Get32(b, TCP_SEQ);
  }

  // ---------------------------------------------------------------- receive undoes transmit

  /** Parsing any TCP frame the transmit path can build gives back the connection's numbers, the payload
      length and the addresses and ports of the flow, so exactly the flow's key when that key is a TCP key. */
  lemma RoundTrip(t: Template, size: u32, drawnSeq: u32, ipId: u16, sendSeq: u32, sendAck: u32)
    requires Built(t, "tcp") && L4 + TCP_SIZE <= size < TWO_16
    ensures Usable(t.(totalSize := size))
    ensures var f := Mutated(t.(totalSize := size), drawnSeq, ipId, true);
            && |f| == size && PayloadLength(f) == size - (L4 + TCP_SIZE)
            && ETHER + Get16(f, TOTAL_LENGTH) <= |f|
            && var g := Rewritten(f, sendSeq, sendAck);
               && ParseRx(g) == Some(RxTcp(t.key.(protocol := IPPROTO_TCP), ACK_FLAG, sendSeq, sendAck,
                                           size - (L4 + TCP_SIZE)))
               && (ParseRx(g).value.key == t.key <==> t.key.protocol == IPPROTO_TCP)
               && IpVerifies(g) && L4Verifies(g)
  {
    MutatedFrameCorrect(t, "tcp", size, drawnSeq, ipId);
    var f := Mutated(t.(totalSize := size), drawnSeq, ipId, true);
    PayloadFromFields(f, t.key);
    RewrittenFrame(f, t.key, sendSeq, sendAck);
    var g := Rewritten(f, sendSeq, sendAck);
    PayloadFromFields(g, t.key);
  }

  lemma PayloadFromFields(f: seq<u8>, key: FlowKey)
    requires TcpFields(f, key) && |f| < TWO_16 && Get16(f, TOTAL_LENGTH) == |f| - ETHER
    ensures PayloadLength(f) == |f| - (L4 + TCP_SIZE)
  {
  }

  // ---------------------------------------------------------------- overlong copies

  /** A size whose 16-bit remainder fits the data room although the size itself does not. */
  predicate Overruns(size: u32, room: nat) {
    size >= TWO_16 && size % TWO_16 <= room
  }

  /** When the writes of a copy into an empty buffer leave its data room: exactly for sizes of 65536 and
      more whose truncated length still fits. */
  lemma SpillsIff(t: Template, room: nat)
    requires t.data != [] && |t.data| >= t.payloadOffset && room < TWO_16
    ensures CloneOutcome(t, 0, room) == Spills <==> Overruns(t.totalSize, room)
    ensures CloneOutcome(t, 0, room) == Done <==> t.totalSize <= room
  {
    ModAtMost(t.totalSize, TWO_16);
    if t.totalSize < TWO_16 {
      assert t.totalSize % TWO_16 == t.totalSize;
    }
  }

  /** The builder makes such templates: any UDP flow of 65600 bytes has one, and a buffer with room for
      64 bytes takes its copy. */
  lemma SpillsAt65600(key: FlowKey, src: Mac, dst: Mac, room: nat)
    requires 64 <= room < TWO_16
    ensures var t := TemplateFor(key, 65600, "udp", src, dst); t.Some? && CloneOutcome(t.value, 0, room) == Spills
  {
    TemplateIsBuilt(key, 65600, "udp", src, dst);
    SpillsIff(TemplateFor(key, 65600, "udp", src, dst).value, room);
  }
}
