/** The 5-tuple of a flow and its mirror image. */
module FlowKeys {
  import opened Words

  /** Addresses are kept in network byte order and stored raw; ports are in host order. */
  datatype FlowKey = FlowKey(srcIp: u32, dstIp: u32, srcPort: u16, dstPort: u16, protocol: u8)

  function Reverse(k: FlowKey): FlowKey {
    FlowKey(k.dstIp, k.srcIp, k.dstPort, k.srcPort, k.protocol)
  }
}
