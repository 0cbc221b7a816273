/**
 * Protocol constants and packet records of SOCKS version 5 (RFC 1928) and of
 * its username/password sub-negotiation (RFC 1929), as the package declares them.
 */
module Socks5 {
  import opened Base

  // socks protocol version
  const SocksVer: byte := 0x05
  const SocksReplySuccess: byte := 0x00

  // authentication methods (0x03..0x7F IANA assigned, 0x80..0xFE private)
  const MethodNoAuthRequired: byte := 0x00
  const MethodGSSAPI: byte := 0x01
  const MethodUsernamePassword: byte := 0x02
  const MethodNoAcceptableMethods: byte := 0xFF

  // username/password sub-negotiation
  const UsernamePasswordVer: byte := 0x01
  const UsernamePasswordStatusSuccess: byte := 0x00
  const UsernamePasswordStatusFail: byte := 0x01

  // commands
  const CMDConnect: byte := 0x01
  const CMDBind: byte := 0x02
  const CMDUDPAssociate: byte := 0x03

  // address types
  const ATYPIPv4: byte := 0x01
  const ATYPDomain: byte := 0x03
  const ATYPIPv6: byte := 0x04

  // Reply codes used by the server but defined outside the modelled files;
  // the values are those of section 6 of RFC 1928 ("succeeded",
  // "connection refused", "command not supported").
  const ReplySuccess: byte := 0x00
  const ReplyRemoteAddrConnFail: byte := 0x05
  const ReplyCommandNonSupport: byte := 0x07

  /** Method-selection request: VER NMETHODS METHODS. */
  datatype NegotiationRequest = NegotiationRequest(ver: byte, nMethods: byte, methods: Bytes)

  /** Method-selection reply: VER METHOD. */
  datatype NegotiationReply = NegotiationReply(ver: byte, authMethod: byte)

  /** Username/password request: VER ULEN UNAME PLEN PASSWD. */
  datatype UsernamePasswordNegotiationRequest =
    UsernamePasswordNegotiationRequest(ver: byte, uLen: byte, uname: Bytes, pLen: byte, password: Bytes)

  /** Username/password reply: VER STATUS. */
  datatype UsernamePasswordNegotiationReply = UsernamePasswordNegotiationReply(ver: byte, status: byte)

  /** Command request: VER CMD RSV ATYP DST.ADDR DST.PORT. */
  datatype SocksRequest =
    SocksRequest(ver: byte, cmd: byte, rsv: byte, atyp: byte, dstAddr: Bytes, dstPort: Bytes)

  /** Command reply: VER REP RSV ATYP BND.ADDR BND.PORT. */
  datatype SocksReply =
    SocksReply(ver: byte, rep: byte, rsv: byte, atyp: byte, bndAddr: Bytes, bndPort: Bytes)

  /** UDP relay header; declared by the package but never encoded or decoded by it. */
  datatype SocksUDPDatagramRequest =
    SocksUDPDatagramRequest(ver: byte, frag: byte, atyp: byte, dstAddr: Bytes, dstPort: Bytes, data: Bytes)

  // The field bounds the record declarations document in their comments.

  predicate MethodsDocumented(r: NegotiationRequest)
  {
    1 <= |r.methods| <= 255 && r.nMethods == |r.methods|
  }

  predicate CredentialsDocumented(r: UsernamePasswordNegotiationRequest)
  {
    1 <= |r.uname| <= 255 && 1 <= |r.password| <= 255 &&
    r.uLen == |r.uname| && r.pLen == |r.password|
  }

  predicate RequestDocumented(r: SocksRequest)
  {
    r.ver == SocksVer && r.rsv == 0x00 && |r.dstPort| == 2
  }

  predicate ReplyDocumented(r: SocksReply)
  {
    r.ver == SocksVer && r.rsv == 0x00 && |r.bndPort| == 2
  }
}
