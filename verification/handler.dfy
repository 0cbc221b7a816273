/**
 * The default request handler of socks5/handler.go: it works out the target
 * address of a command request, reaches the target, and answers the client
 * with a reply. The byte relay that follows a CONNECT and the wait that
 * follows a UDP ASSOCIATE are not part of this model.
 */
module Handler {
  import opened Base
  import opened Socks5
  import opened Stream
  import opened GoLib
  import opened NetUtils
  import opened ServerCodec

  /**
   * A request the handler can derive a target from: a domain name has its
   * length byte to skip, and the port has its two bytes.
   */
  predicate Targetable(request: SocksRequest)
  {
    (request.atyp == ATYPDomain ==> |request.dstAddr| >= 1) && |request.dstPort| >= 2
  }

  /**
   * The host part of the target: the name after the length byte for a domain
   * name, the text form of the address bytes otherwise. (Slicing off the
   * length byte of an empty address would panic.)
   */
  function TargetHost(net: Net, request: SocksRequest): Bytes
    requires Targetable(request)
  {
    if request.atyp == ATYPDomain then request.dstAddr[1..] else net.ipString(request.dstAddr)
  }

  /** The port part of the target: DST.PORT read big-endian and written in decimal. */
  function TargetPort(request: SocksRequest): (port: Bytes)
    requires Targetable(request)
    ensures |port| >= 1 && forall i :: 0 <= i < |port| ==> IsDigit(port[i])
  {
    Itoa(Uint16(request.dstPort))
  }

  /** `host:port` of the target, as both `establishTCPRemoteConn` and `parseUDPRemoteAddr` build it. */
  function TargetAddress(net: Net, request: SocksRequest): Bytes
    requires Targetable(request)
  {
    net.joinHostPort(TargetHost(net, request), TargetPort(request))
  }

  /**
   * A request's port survives the trip into the target address text and
   * back through `ParseAddress`, whenever splitting undoes joining.
   */
  lemma TargetPortRoundTrip(net: Net, request: SocksRequest)
    requires Targetable(request) && |request.dstPort| == 2
    requires var host := TargetHost(net, request);
             net.splitHostPort(TargetAddress(net, request)) == Ok((host, TargetPort(request)))
    ensures ParseAddress(net, TargetAddress(net, request)).err == None
    ensures ParseAddress(net, TargetAddress(net, request)).port == request.dstPort
  {
    var n := Uint16(request.dstPort);
    AtoiItoa(n);
    BigEndianRoundTrip(n, request.dstPort);
  }

  /** The reply sent when the target cannot be reached: REP 0x05, a zero address and a zero port. */
  function FailReply(request: SocksRequest): (r: SocksReply)
    ensures r.ver == SocksVer && r.rep == ReplyRemoteAddrConnFail && r.rsv == 0 && r.atyp == request.atyp
    ensures r.bndPort == [0, 0]
    ensures request.atyp == ATYPDomain ==> r.bndAddr == [3, 0, 0, 0]
    ensures request.atyp != ATYPDomain ==> r.bndAddr == [0, 0, 0]
  {
    NewSocksReply(ReplyRemoteAddrConnFail, request.atyp, [0x00, 0x00, 0x00], [0x00, 0x00])
  }

  /** What `TCPHandler` wrote to the client and what it returned. */
  datatype Handled = Handled(sent: Bytes, err: Option<Error>)

  /** The bytes a reply puts on a connection that may refuse writes. */
  function Wire(writable: bool, reply: SocksReply): Bytes
  {
    if writable then SocksReplyBytes(reply) else []
  }

  /**
   * `DefaultHandler.TCPHandler`, with `udpAddr` the text of the server's
   * UDP address and `writable` whether the client connection accepts writes.
   * CONNECT dials the target and UDP ASSOCIATE resolves it; either answers
   * with the failure reply when that fails, and with the local address
   * otherwise. After a successful CONNECT reply control falls through to the
   * unsupported-command return; a successful UDP ASSOCIATE returns no error;
   * any other command writes nothing.
   *
   * The no-error outcome of UDP ASSOCIATE stands for the final `return nil`.
   * The code as written never gets there: it first stores the association in
   * a cache field that is never initialised, then waits on a channel that
   * nothing sends on. The model leaves both steps out.
   */
  function TCPHandling(net: Net, udpAddr: Bytes, writable: bool, request: SocksRequest): (h: Handled)
    requires Targetable(request)
  {
    if request.cmd == CMDConnect then
      match net.dialTCP(TargetAddress(net, request))
      case Err(e) => Handled(Wire(writable, FailReply(request)), Some(e))
      case Ok(localAddr) =>
        var parsed := ParseAddress(net, localAddr);
        if parsed.err.Some? then Handled(Wire(writable, FailReply(request)), parsed.err)
        else Handled(Wire(writable, NewSocksReply(ReplySuccess, parsed.addrType, parsed.addr, parsed.port)),
                     Some(NonSupportCommand))
    else if request.cmd == CMDUDPAssociate then
      match net.resolveUDP(TargetAddress(net, request))
      case Err(e) => Handled(Wire(writable, FailReply(request)), Some(e))
      case Ok(_) =>
        var parsed := ParseAddress(net, udpAddr);
        if parsed.err.Some? then Handled(Wire(writable, FailReply(request)), parsed.err)
        else Handled(Wire(writable, NewSocksReply(ReplySuccess, parsed.addrType, parsed.addr, parsed.port)), None)
    else Handled([], Some(NonSupportCommand))
  }

  /**
   * What `TCPHandling` promises: a CONNECT never ends without an error; only
   * a UDP ASSOCIATE whose target resolves and whose server address parses
   * ends without one; any other command is refused without a reply; and a
   * CONNECT or UDP ASSOCIATE always answers with exactly one reply: the
   * failure reply together with the dial, resolve or `ParseAddress` error,
   * or a success reply carrying the ATYP, BND.ADDR and BND.PORT that
   * `ParseAddress` gives for the local address of the dialled connection
   * (CONNECT) or for the server's UDP address (UDP ASSOCIATE).
   */
  lemma TCPHandlingOutcome(net: Net, udpAddr: Bytes, writable: bool, request: SocksRequest)
    requires Targetable(request)
    ensures var h := TCPHandling(net, udpAddr, writable, request);
            request.cmd == CMDConnect ==> h.err.Some?
    ensures var h := TCPHandling(net, udpAddr, writable, request);
            h.err == None <==>
              && request.cmd == CMDUDPAssociate
              && net.resolveUDP(TargetAddress(net, request)).Ok?
              && ParseAddress(net, udpAddr).err == None
    ensures var h := TCPHandling(net, udpAddr, writable, request);
            request.cmd != CMDConnect && request.cmd != CMDUDPAssociate ==> h == Handled([], Some(NonSupportCommand))
    ensures var h := TCPHandling(net, udpAddr, writable, request);
            (request.cmd == CMDConnect || request.cmd == CMDUDPAssociate) && !writable ==> h.sent == []
    ensures var h := TCPHandling(net, udpAddr, writable, request);
            (request.cmd == CMDConnect || request.cmd == CMDUDPAssociate) && writable ==>
              |h.sent| >= 4 && h.sent[0] == SocksVer && h.sent[2] == 0
    ensures var h := TCPHandling(net, udpAddr, writable, request);
            request.cmd == CMDConnect && writable ==>
              |h.sent| >= 2 &&
              (h.sent[1] == ReplySuccess <==>
                 net.dialTCP(TargetAddress(net, request)).Ok? &&
                 ParseAddress(net, net.dialTCP(TargetAddress(net, request)).value).err == None) &&
              (h.sent[1] != ReplySuccess ==> h.sent[1] == ReplyRemoteAddrConnFail)
    ensures var h := TCPHandling(net, udpAddr, writable, request);
            request.cmd == CMDUDPAssociate && writable ==>
              |h.sent| >= 2 &&
              (h.sent[1] == ReplySuccess <==> h.err == None) &&
              (h.sent[1] != ReplySuccess ==> h.sent[1] == ReplyRemoteAddrConnFail)
    ensures var h := TCPHandling(net, udpAddr, writable, request);
            var dialed := net.dialTCP(TargetAddress(net, request));
            request.cmd == CMDConnect && dialed.Err? ==>
              h == Handled(Wire(writable, FailReply(request)), Some(dialed.error))
    ensures var h := TCPHandling(net, udpAddr, writable, request);
            var dialed := net.dialTCP(TargetAddress(net, request));
            request.cmd == CMDConnect && dialed.Ok? && ParseAddress(net, dialed.value).err.Some? ==>
              h == Handled(Wire(writable, FailReply(request)), ParseAddress(net, dialed.value).err)
    ensures var h := TCPHandling(net, udpAddr, writable, request);
            var dialed := net.dialTCP(TargetAddress(net, request));
            request.cmd == CMDConnect && dialed.Ok? && ParseAddress(net, dialed.value).err == None ==>
              var local := ParseAddress(net, dialed.value);
              h == Handled(Wire(writable, NewSocksReply(ReplySuccess, local.addrType, local.addr, local.port)),
                           Some(NonSupportCommand))
    ensures var h := TCPHandling(net, udpAddr, writable, request);
            var resolved := net.resolveUDP(TargetAddress(net, request));
            request.cmd == CMDUDPAssociate && resolved.Err? ==>
              h == Handled(Wire(writable, FailReply(request)), Some(resolved.error))
    ensures var h := TCPHandling(net, udpAddr, writable, request);
            var resolved := net.resolveUDP(TargetAddress(net, request));
            request.cmd == CMDUDPAssociate && resolved.Ok? && ParseAddress(net, udpAddr).err.Some? ==>
              h == Handled(Wire(writable, FailReply(request)), ParseAddress(net, udpAddr).err)
    ensures var h := TCPHandling(net, udpAddr, writable, request);
            var resolved := net.resolveUDP(TargetAddress(net, request));
            request.cmd == CMDUDPAssociate && resolved.Ok? && ParseAddress(net, udpAddr).err == None ==>
              var bound := ParseAddress(net, udpAddr);
              h == Handled(Wire(writable, NewSocksReply(ReplySuccess, bound.addrType, bound.addr, bound.port)), None)
  {
  }

  /**
   * `DefaultHandler.TCPHandler` on the client connection. Errors from writing
   * the reply are ignored, as in the source.
   */
  method TCPHandler(net: Net, udpAddr: Bytes, conn: Conn, request: SocksRequest) returns (err: Option<Error>)
    requires Targetable(request)
    modifies conn`outgoing
    ensures var h := TCPHandling(net, udpAddr, conn.writable, request);
            err == h.err && conn.outgoing == old(conn.outgoing) + h.sent
  {
    var reqCmd := request.cmd;
    if CMDConnect == reqCmd {
      var remote := net.dialTCP(TargetAddress(net, request));
      if remote.Err? {
        var _ := WriteSocksReply(FailReply(request), conn);
        return Some(remote.error);
      }
      var parsed := ParseAddress(net, remote.value);
      if parsed.err.Some? {
        var _ := WriteSocksReply(FailReply(request), conn);
        return parsed.err;
      } else {
        var reply := NewSocksReply(ReplySuccess, parsed.addrType, parsed.addr, parsed.port);
        var _ := WriteSocksReply(reply, conn);
      }
    }
    if CMDUDPAssociate == reqCmd {
      var remote := net.resolveUDP(TargetAddress(net, request));
      if remote.Err? {
        var _ := WriteSocksReply(FailReply(request), conn);
        return Some(remote.error);
      }
      var parsed := ParseAddress(net, udpAddr);
      if parsed.err.Some? {
        var _ := WriteSocksReply(FailReply(request), conn);
        return parsed.err;
      } else {
        var reply := NewSocksReply(ReplySuccess, parsed.addrType, parsed.addr, parsed.port);
        var _ := WriteSocksReply(reply, conn);
      }
      return None;
    }
    return Some(NonSupportCommand);
  }

  /** `DefaultHandler.UDPHandler`: every datagram is refused. */
  function UDPHandler(datagram: SocksUDPDatagramRequest): (err: Option<Error>)
    ensures err == Some(NonSupportCommand)
  {
    Some(NonSupportCommand)
  }
}
