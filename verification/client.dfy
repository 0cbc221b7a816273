/**
 * The SOCKS5 client of socks5/client.go: a `Client` that connects to the
 * proxy, negotiates an authentication method, and sends one command request.
 *
 * Each step is given as a pure conversation (`NegotiationExchange`,
 * `RequestExchange`) from the bytes the server sends to the result, the bytes
 * the client writes and the bytes it consumes; the methods are proved to hold
 * exactly that conversation on the connection.
 */
module SocksClient {
  import opened Base
  import opened Socks5
  import opened Stream
  import opened GoLib
  import opened ClientCodec

  /**
   * The single method the client offers: username/password when both
   * credentials are set, and otherwise "no acceptable methods" (0xFF) rather
   * than "no authentication required".
   */
  function AdvertisedMethod(username: Bytes, password: Bytes): (m: byte)
    ensures m == MethodUsernamePassword <==> username != [] && password != []
    ensures m == MethodNoAcceptableMethods <==> username == [] || password == []
  {
    if username != [] && password != [] then MethodUsernamePassword else MethodNoAcceptableMethods
  }

  /**
   * The negotiation of `Client.Negotiation` once connected, with `s` the
   * bytes the server sends: the greeting offering `AdvertisedMethod`, the
   * server's choice, which must equal the offer, and, for username/password,
   * the sub-negotiation, whose status must be success.
   */
  function NegotiationExchange(username: Bytes, password: Bytes, writable: bool, s: Bytes): (x: Exchange<()>)
    ensures x.used <= |s|
    ensures !writable ==> x == Exchange(Err(WriteFailed), [], 0)
    ensures x.result.Ok? <==>
              && writable && |s| >= 2 && s[0] == SocksVer && s[1] == AdvertisedMethod(username, password)
              && (s[1] == MethodUsernamePassword ==>
                    |username| <= 255 && |password| <= 255 &&
                    |s| >= 4 && s[2] == UsernamePasswordVer && s[3] == UsernamePasswordStatusSuccess)
    ensures writable ==> |x.sent| >= 3 && x.sent[..3] == [SocksVer, 1, AdvertisedMethod(username, password)]
    ensures x.result.Ok? && username != [] && password != [] ==>
              x.used == 4 &&
              x.sent == [SocksVer, 1, MethodUsernamePassword, UsernamePasswordVer, |username|] + username +
                        [|password|] + password
    ensures x.result.Ok? && (username == [] || password == []) ==>
              x.used == 2 && x.sent == [SocksVer, 1, MethodNoAcceptableMethods]
    ensures writable && |s| >= 2 && s[0] == SocksVer && s[1] != AdvertisedMethod(username, password) ==>
              x.result == Err(NonSupportCurrentMethod) && x.used == 2
    ensures writable && |s| >= 2 && s[0] == SocksVer && s[1] == AdvertisedMethod(username, password) == MethodUsernamePassword ==>
              x.result == AuthExchange(username, password, writable, s[2..]).result
    ensures writable && NegotiationReplyFrom(s).result.Err? ==>
              x == Exchange(Err(NegotiationReplyFrom(s).result.error), [SocksVer, 1, AdvertisedMethod(username, password)],
                            NegotiationReplyFrom(s).used)
    ensures writable && |s| >= 2 && s[0] == SocksVer && s[1] != AdvertisedMethod(username, password) ==>
              x.sent == [SocksVer, 1, AdvertisedMethod(username, password)]
    ensures writable && |s| >= 2 && s[0] == SocksVer && s[1] == AdvertisedMethod(username, password) == MethodUsernamePassword ==>
              var auth := AuthExchange(username, password, writable, s[2..]);
              x.sent == [SocksVer, 1, MethodUsernamePassword] + auth.sent && x.used == 2 + auth.used
  {
    var m := AdvertisedMethod(username, password);
    var greeting := NegotiationRequestBytes(NewNegotiationRequest([m]));
    if !writable then Exchange(Err(WriteFailed), [], 0)
    else
      var reply := NegotiationReplyFrom(s);
      if reply.result.Err? then Exchange(Err(reply.result.error), greeting, reply.used)
      else if reply.result.value.authMethod != m then Exchange(Err(NonSupportCurrentMethod), greeting, 2)
      else if m != MethodUsernamePassword then Exchange(Ok(()), greeting, 2)
      else
        var auth := AuthExchange(username, password, writable, s[2..]);
        Exchange(auth.result, greeting + auth.sent, 2 + auth.used)
  }

  /**
   * The username/password step of `Client.Negotiation`, with `t` the bytes
   * the server sends after its method choice: the credentials go out, and
   * only a reply whose STATUS is success lets the negotiation succeed.
   */
  function AuthExchange(username: Bytes, password: Bytes, writable: bool, t: Bytes): (x: Exchange<()>)
    ensures x.used <= |t|
    ensures x.result.Ok? <==>
              writable && |username| <= 255 && |password| <= 255 &&
              |t| >= 2 && t[0] == UsernamePasswordVer && t[1] == UsernamePasswordStatusSuccess
    ensures x.result.Ok? ==>
              x.used == 2 &&
              x.sent == [UsernamePasswordVer, |username|] + username + [|password|] + password
    ensures (writable && |username| <= 255 && |password| <= 255 && |t| >= 2 && t[0] == UsernamePasswordVer &&
             t[1] != UsernamePasswordStatusSuccess) ==> x.result == Err(UnameOrPasswdError)
    ensures |username| > 255 || |password| > 255 ==> x == Exchange(Err(UnameOrPasswdTooLength), [], 0)
    ensures !writable && |username| <= 255 && |password| <= 255 ==> x == Exchange(Err(WriteFailed), [], 0)
    ensures writable && |username| <= 255 && |password| <= 255 ==>
              && x.sent == [UsernamePasswordVer, |username|] + username + [|password|] + password
              && x.used == UserPassReplyFrom(t).used
    ensures writable && |username| <= 255 && |password| <= 255 && UserPassReplyFrom(t).result.Err? ==>
              x.result == Err(UserPassReplyFrom(t).result.error)
  {
    match NewUsernamePasswordNegotiationRequest(username, password)
    case Err(e) => Exchange(Err(e), [], 0)
    case Ok(auth) =>
      if !writable then Exchange(Err(WriteFailed), [], 0)
      else
        var sent := UserPassRequestBytes(auth);
        var reply := UserPassReplyFrom(t);
        if reply.result.Err? then Exchange(Err(reply.result.error), sent, reply.used)
        else if reply.result.value.status != UsernamePasswordStatusSuccess then
          Exchange(Err(UnameOrPasswdError), sent, 2)
        else Exchange(Ok(()), sent, 2)
  }

  /**
   * The command exchange of `Client.Request`: the request goes out, the reply
   * is parsed, and only a reply whose REP is success is returned.
   */
  function RequestExchange(request: SocksRequest, writable: bool, s: Bytes): (x: Exchange<SocksReply>)
    ensures x.used <= |s|
    ensures !writable ==> x == Exchange(Err(WriteFailed), [], 0)
    ensures writable ==> x.sent == SocksRequestBytes(request) && x.used == SocksReplyFrom(s).used
    ensures x.result.Ok? <==> writable && SocksReplyFrom(s).result.Ok? && s[1] == SocksReplySuccess
    ensures x.result.Ok? ==> x.result == SocksReplyFrom(s).result && x.result.value.rep == SocksReplySuccess
    ensures writable && SocksReplyFrom(s).result.Err? ==> x.result == SocksReplyFrom(s).result
    ensures writable && SocksReplyFrom(s).result.Ok? && s[1] != SocksReplySuccess ==> x.result == Err(RequestFail)
  {
    if !writable then Exchange(Err(WriteFailed), [], 0)
    else
      var sent := SocksRequestBytes(request);
      var reply := SocksReplyFrom(s);
      if reply.result.Err? then Exchange(Err(reply.result.error), sent, reply.used)
      else if reply.result.value.rep != SocksReplySuccess then Exchange(Err(RequestFail), sent, reply.used)
      else Exchange(Ok(reply.result.value), sent, reply.used)
  }

  class Client {
    const username: Bytes
    const password: Bytes
    /** The proxy's TCP address, as resolved text. */
    const dstTCPAddr: Bytes
    /** Keep-alive period in seconds; 0 leaves the default. */
    const tcpTimeout: int
    /** Connection deadline in seconds from now; 0 sets none. */
    const tcpDeadline: int
    /** The proxy's UDP address, as resolved text. */
    const dstUDPAddr: Bytes
    const udpDeadline: int
    /** The connection to the proxy, once `Negotiation` has dialled it. */
    var dstTCPConn: Conn?

    constructor (username: Bytes, password: Bytes, dstTCPAddr: Bytes, dstUDPAddr: Bytes,
                 tcpTimeout: int, tcpDeadline: int, udpDeadline: int)
      ensures this.username == username && this.password == password
      ensures this.dstTCPAddr == dstTCPAddr && this.dstUDPAddr == dstUDPAddr
      ensures this.tcpTimeout == tcpTimeout && this.tcpDeadline == tcpDeadline && this.udpDeadline == udpDeadline
      ensures dstTCPConn == null
    {
      this.username := username;
      this.password := password;
      this.dstTCPAddr := dstTCPAddr;
      this.dstUDPAddr := dstUDPAddr;
      this.tcpTimeout := tcpTimeout;
      this.tcpDeadline := tcpDeadline;
      this.udpDeadline := udpDeadline;
      dstTCPConn := null;
    }

    /**
     * `Client.Negotiation`. `dialed` is what `net.Dial` returned for the
     * proxy address and `deadlineOk` whether `SetDeadline` succeeded.
     */
    method Negotiation(dialed: Result<Conn>, deadlineOk: bool) returns (err: Option<Error>)
      requires dialed.Ok? ==> dialed.value.Valid()
      modifies this`dstTCPConn, if dialed.Ok? then {dialed.value} else {}
      ensures dialed.Err? ==> err == Some(dialed.error) && dstTCPConn == old(dstTCPConn)
      ensures dialed.Ok? ==> dstTCPConn == dialed.value && dstTCPConn.Valid()
      ensures dialed.Ok? && tcpDeadline != 0 && !deadlineOk ==>
                err == Some(DeadlineFailed) && unchanged(dialed.value)
      ensures dialed.Ok? && (tcpDeadline == 0 || deadlineOk) ==>
                var x := NegotiationExchange(username, password, dialed.value.writable, old(dialed.value.Unread()));
                && err == ErrorOf(x.result)
                && dialed.value.outgoing == old(dialed.value.outgoing) + x.sent
                && dialed.value.pos == old(dialed.value.pos) + x.used
                && dialed.value.closed == old(dialed.value.closed)
    {
      if dialed.Err? {
        return Some(dialed.error);
      }
      var conn := dialed.value;
      dstTCPConn := conn;
      if tcpDeadline != 0 && !deadlineOk {
        return Some(DeadlineFailed);
      }
      err := Handshake(conn);
    }

    /** The part of `Negotiation` after dialling: method selection, then authentication if chosen. */
    method Handshake(conn: Conn) returns (err: Option<Error>)
      requires conn.Valid()
      modifies conn`pos, conn`outgoing
      ensures conn.Valid()
      ensures var x := NegotiationExchange(username, password, conn.writable, old(conn.Unread()));
              && err == ErrorOf(x.result)
              && conn.outgoing == old(conn.outgoing) + x.sent
              && conn.pos == old(conn.pos) + x.used
    {
      ghost var s := conn.Unread();
      ghost var before := conn.outgoing;
      var offered := MethodNoAcceptableMethods;
      if username != [] && password != [] {
        offered := MethodUsernamePassword;
      }

      var negotiationRequest := NewNegotiationRequest([offered]);
      err := WriteNegotiationRequest(negotiationRequest, conn);
      if err.Some? {
        return;
      }

      var negotiationReply := ParseNegotiationReply(conn);
      if negotiationReply.Err? {
        return Some(negotiationReply.error);
      }

      if negotiationReply.value.authMethod != offered {
        return Some(NonSupportCurrentMethod);
      }

      if offered == MethodUsernamePassword {
        assert conn.Unread() == s[2..];
        ghost var auth := AuthExchange(username, password, conn.writable, conn.Unread());
        err := Authenticate(conn);
        AppendAssoc(before, NegotiationRequestBytes(negotiationRequest), auth.sent);
      } else {
        err := None;
      }
    }

    /** The username/password sub-negotiation of `Negotiation`. */
    method Authenticate(conn: Conn) returns (err: Option<Error>)
      requires conn.Valid()
      modifies conn`pos, conn`outgoing
      ensures conn.Valid()
      ensures var x := AuthExchange(username, password, conn.writable, old(conn.Unread()));
              && err == ErrorOf(x.result)
              && conn.outgoing == old(conn.outgoing) + x.sent
              && conn.pos == old(conn.pos) + x.used
    {
      var authRequest := NewUsernamePasswordNegotiationRequest(username, password);
      if authRequest.Err? {
        return Some(authRequest.error);
      }
      err := WriteUsernamePasswordNegotiationRequest(authRequest.value, conn);
      if err.Some? {
        return;
      }
      var authReply := NewUsernamePasswordNegotiationReply(conn);
      if authReply.Err? {
        return Some(authReply.error);
      }
      if authReply.value.status != UsernamePasswordStatusSuccess {
        return Some(UnameOrPasswdError);
      }
      err := None;
    }

    /**
     * `Client.Request`: sends `request` on the negotiated connection and
     * returns the reply if its REP is success. Writing on a connection that
     * was never dialled fails.
     */
    method Request(request: SocksRequest) returns (reply: Result<SocksReply>)
      requires dstTCPConn != null ==> dstTCPConn.Valid()
      modifies if dstTCPConn != null then {dstTCPConn} else {}
      ensures dstTCPConn == null ==> reply == Err(WriteFailed)
      ensures dstTCPConn != null ==>
                var x := RequestExchange(request, dstTCPConn.writable, old(dstTCPConn.Unread()));
                && dstTCPConn.Valid()
                && reply == x.result
                && dstTCPConn.outgoing == old(dstTCPConn.outgoing) + x.sent
                && dstTCPConn.pos == old(dstTCPConn.pos) + x.used
                && dstTCPConn.closed == old(dstTCPConn.closed)
    {
      var conn := dstTCPConn;
      if conn == null {
        return Err(WriteFailed);
      }
      var err := WriteSocksRequest(request, conn);
      if err.Some? {
        return Err(err.value);
      }
      var socksReply := ParseSocksReply(conn);
      if socksReply.Err? {
        return Err(socksReply.error);
      }
      if socksReply.value.rep != SocksReplySuccess {
        return Err(RequestFail);
      }
      reply := Ok(socksReply.value);
    }
  }

  /**
   * `NewClient`: resolves `addr` as a TCP and then as a UDP address; either
   * failure is returned and no client is made.
   */
  method NewClient(net: Net, username: Bytes, password: Bytes, addr: Bytes,
                   tcpTimeout: int, tcpDeadline: int, udpDeadline: int)
    returns (client: Client?, err: Option<Error>)
    ensures net.resolveTCP(addr).Err? ==> client == null && err == Some(net.resolveTCP(addr).error)
    ensures net.resolveTCP(addr).Ok? && net.resolveUDP(addr).Err? ==>
              client == null && err == Some(net.resolveUDP(addr).error)
    ensures net.resolveTCP(addr).Ok? && net.resolveUDP(addr).Ok? ==>
              && err == None && client != null && fresh(client)
              && client.username == username && client.password == password
              && client.dstTCPAddr == net.resolveTCP(addr).value && client.dstUDPAddr == net.resolveUDP(addr).value
              && client.tcpTimeout == tcpTimeout && client.tcpDeadline == tcpDeadline
              && client.udpDeadline == udpDeadline && client.dstTCPConn == null
  {
    var tcpAddr := net.resolveTCP(addr);
    if tcpAddr.Err? {
      return null, Some(tcpAddr.error);
    }
    var udpAddr := net.resolveUDP(addr);
    if udpAddr.Err? {
      return null, Some(udpAddr.error);
    }
    client := new Client(username, password, tcpAddr.value, udpAddr.value, tcpTimeout, tcpDeadline, udpDeadline);
    err := None;
  }
}
