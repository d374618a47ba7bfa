/** What travels on an RPC connection, in either direction. */
module RpcWire {
  import opened Basics

  datatype Header = Header(serviceMethod: string, seqNo: nat, err: string)

  /** What the codec puts on the wire: a frame is a header followed by its body. */
  datatype Item = Head(h: Header) | Body(b: Bytes)
}
