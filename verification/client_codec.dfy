/**
 * The client's message builders, writers and parsers (the helper functions
 * of socks5/client.go). Each writer is described by the exact bytes it puts
 * on the wire, each parser by a pure decoder over the bytes still unread.
 */
module ClientCodec {
  import opened Base
  import opened Socks5
  import opened Stream

  // ---------------------------------------------------------------------------
  // 1. method-selection request

  /** `NewNegotiationRequest`: NMETHODS is the list length truncated to a byte. */
  function NewNegotiationRequest(methods: Bytes): (r: NegotiationRequest)
    ensures r.ver == SocksVer && r.methods == methods && r.nMethods == |methods| % 256
    ensures MethodsDocumented(r) <==> 1 <= |methods| <= 255
  {
    NegotiationRequest(SocksVer, |methods| % 256, methods)
  }

  /** The bytes `NegotiationRequest.WriteTo` emits: VER NMETHODS METHODS. */
  function NegotiationRequestBytes(r: NegotiationRequest): (b: Bytes)
  {
    [r.ver, r.nMethods] + r.methods
  }

  method WriteNegotiationRequest(request: NegotiationRequest, conn: Conn) returns (err: Option<Error>)
    modifies conn`outgoing
    ensures err == (if conn.writable then None else Some(WriteFailed))
    ensures conn.outgoing == old(conn.outgoing) + (if conn.writable then NegotiationRequestBytes(request) else [])
  {
    ghost var before := conn.outgoing;
    err := conn.Write([request.ver]);
    if err.Some? { return; }
    err := conn.Write([request.nMethods]);
    if err.Some? { return; }
    err := conn.Write(request.methods);
    if err.Some? { return; }
    assert conn.outgoing == before + ([request.ver, request.nMethods] + request.methods);
  }

  // ---------------------------------------------------------------------------
  // 2. method-selection reply

  /** Decoder run by `ParseNegotiationReply`: two bytes, the first of which must be 0x05. */
  function NegotiationReplyFrom(s: Bytes): (p: Read<NegotiationReply>)
    ensures p.used <= |s|
    ensures |s| < 2 ==> p == Read(Err(ShortRead(|s|)), |s|)
    ensures |s| >= 2 && s[0] != SocksVer ==> p == Read(Err(NonSupportCurrentSocksProtocolVersion), 2)
    ensures p.result.Ok? <==> |s| >= 2 && s[0] == SocksVer
    ensures p.result.Ok? ==> p.used == 2 && p.result.value == NegotiationReply(s[0], s[1])
  {
    var h := Take(s, 2);
    if h.result.Err? then Read(Err(h.result.error), h.used)
    else if h.result.value[0] != SocksVer then Read(Err(NonSupportCurrentSocksProtocolVersion), 2)
    else Read(Ok(NegotiationReply(h.result.value[0], h.result.value[1])), 2)
  }

  method ParseNegotiationReply(conn: Conn) returns (r: Result<NegotiationReply>)
    requires conn.Valid()
    modifies conn`pos
    ensures conn.Valid()
    ensures r == NegotiationReplyFrom(old(conn.Unread())).result
    ensures conn.pos == old(conn.pos) + NegotiationReplyFrom(old(conn.Unread())).used
  {
    var reply := conn.ReadFull(2);
    if reply.Err? {
      return Err(reply.error);
    }
    if reply.value[0] != SocksVer {
      return Err(NonSupportCurrentSocksProtocolVersion);
    }
    r := Ok(NegotiationReply(reply.value[0], reply.value[1]));
  }

  // ---------------------------------------------------------------------------
  // 3. username/password request

  /** `NewUsernamePasswordNegotiationRequest`: refuses a username or password longer than 255 bytes. */
  function NewUsernamePasswordNegotiationRequest(username: Bytes, password: Bytes)
    : (r: Result<UsernamePasswordNegotiationRequest>)
    ensures r.Err? <==> |username| > 255 || |password| > 255
    ensures r.Err? ==> r.error == UnameOrPasswdTooLength
    ensures r.Ok? ==> r.value == UsernamePasswordNegotiationRequest(
                        UsernamePasswordVer, |username|, username, |password|, password)
    ensures r.Ok? ==> (CredentialsDocumented(r.value) <==> |username| >= 1 && |password| >= 1)
  {
    if |username| > 255 || |password| > 255 then Err(UnameOrPasswdTooLength)
    else Ok(UsernamePasswordNegotiationRequest(UsernamePasswordVer, |username|, username, |password|, password))
  }

  /** The bytes `UsernamePasswordNegotiationRequest.WriteTo` emits: VER ULEN UNAME PLEN PASSWD. */
  function UserPassRequestBytes(u: UsernamePasswordNegotiationRequest): (b: Bytes)
  {
    [u.ver, u.uLen] + u.uname + [u.pLen] + u.password
  }

  method WriteUsernamePasswordNegotiationRequest(u: UsernamePasswordNegotiationRequest, conn: Conn)
    returns (err: Option<Error>)
    modifies conn`outgoing
    ensures err == (if conn.writable then None else Some(WriteFailed))
    ensures conn.outgoing == old(conn.outgoing) + (if conn.writable then UserPassRequestBytes(u) else [])
  {
    ghost var before := conn.outgoing;
    err := conn.Write([u.ver, u.uLen]);
    if err.Some? { return; }
    err := conn.Write(u.uname);
    if err.Some? { return; }
    err := conn.Write([u.pLen]);
    if err.Some? { return; }
    err := conn.Write(u.password);
    if err.Some? { return; }
    assert conn.outgoing == before + ([u.ver, u.uLen] + u.uname + [u.pLen] + u.password);
  }

  // ---------------------------------------------------------------------------
  // 4. username/password reply

  /** Decoder run by `NewUsernamePasswordNegotiationReply`: two bytes, the first of which must be 0x01. */
  function UserPassReplyFrom(s: Bytes): (p: Read<UsernamePasswordNegotiationReply>)
    ensures p.used <= |s|
    ensures |s| < 2 ==> p == Read(Err(ShortRead(|s|)), |s|)
    ensures |s| >= 2 && s[0] != UsernamePasswordVer ==>
              p == Read(Err(NonSupportCurrentUnamePasswdVersion), 2)
    ensures p.result.Ok? <==> |s| >= 2 && s[0] == UsernamePasswordVer
    ensures p.result.Ok? ==> p.used == 2 && p.result.value == UsernamePasswordNegotiationReply(s[0], s[1])
  {
    var h := Take(s, 2);
    if h.result.Err? then Read(Err(h.result.error), h.used)
    else if h.result.value[0] != UsernamePasswordVer then Read(Err(NonSupportCurrentUnamePasswdVersion), 2)
    else Read(Ok(UsernamePasswordNegotiationReply(h.result.value[0], h.result.value[1])), 2)
  }

  /** Despite its name, this reads the server's username/password reply from the connection. */
  method NewUsernamePasswordNegotiationReply(conn: Conn) returns (r: Result<UsernamePasswordNegotiationReply>)
    requires conn.Valid()
    modifies conn`pos
    ensures conn.Valid()
    ensures r == UserPassReplyFrom(old(conn.Unread())).result
    ensures conn.pos == old(conn.pos) + UserPassReplyFrom(old(conn.Unread())).used
  {
    var reply := conn.ReadFull(2);
    if reply.Err? {
      return Err(reply.error);
    }
    if reply.value[0] != UsernamePasswordVer {
      return Err(NonSupportCurrentUnamePasswdVersion);
    }
    r := Ok(UsernamePasswordNegotiationReply(reply.value[0], reply.value[1]));
  }

  // ---------------------------------------------------------------------------
  // 5. command request

  /**
   * `NewSocksRequest`: refuses an address shorter than two bytes, and
   * prefixes the address with its length (truncated to a byte) when the
   * address type is a domain name.
   */
  function NewSocksRequest(cmd: byte, atyp: byte, dstAddr: Bytes, dstPort: Bytes): (r: Result<SocksRequest>)
    ensures r.Err? <==> |dstAddr| < 2
    ensures r.Err? ==> r.error == BadRequest
    ensures r.Ok? ==> r.value.ver == SocksVer && r.value.rsv == 0x00 && r.value.cmd == cmd &&
                      r.value.atyp == atyp && r.value.dstPort == dstPort
    ensures r.Ok? && atyp == ATYPDomain ==> r.value.dstAddr == [|dstAddr| % 256] + dstAddr
    ensures r.Ok? && atyp != ATYPDomain ==> r.value.dstAddr == dstAddr
    ensures r.Ok? ==> (RequestDocumented(r.value) <==> |dstPort| == 2)
  {
    if |dstAddr| == 0 || |dstAddr| < 2 then Err(BadRequest)
    else
      var addr := if atyp == ATYPDomain then [|dstAddr| % 256] + dstAddr else dstAddr;
      Ok(SocksRequest(SocksVer, cmd, 0x00, atyp, addr, dstPort))
  }

  /** The bytes `SocksRequest.WriteTo` emits: VER CMD RSV ATYP DST.ADDR DST.PORT. */
  function SocksRequestBytes(r: SocksRequest): (b: Bytes)
  {
    [r.ver, r.cmd, r.rsv, r.atyp] + r.dstAddr + r.dstPort
  }

  method WriteSocksRequest(request: SocksRequest, conn: Conn) returns (err: Option<Error>)
    modifies conn`outgoing
    ensures err == (if conn.writable then None else Some(WriteFailed))
    ensures conn.outgoing == old(conn.outgoing) + (if conn.writable then SocksRequestBytes(request) else [])
  {
    ghost var before := conn.outgoing;
    err := conn.Write([request.ver, request.cmd, request.rsv, request.atyp]);
    if err.Some? { return; }
    err := conn.Write(request.dstAddr);
    if err.Some? { return; }
    err := conn.Write(request.dstPort);
    if err.Some? { return; }
    assert conn.outgoing == before + ([request.ver, request.cmd, request.rsv, request.atyp] + request.dstAddr + request.dstPort);
  }

  // ---------------------------------------------------------------------------
  // 6. command reply

  /**
   * The address branch of `ParseSocksReply`, as written: ATYP 0x01 reads 4
   * bytes and ATYP 0x03 reads 16; ATYP 0x04 reads a length byte (0 is a bad
   * reply) and that many bytes, into a variable that shadows the result, so
   * the address returned is empty; any other ATYP is a bad reply.
   */
  function ReplyAddrFrom(atyp: byte, t: Bytes): (p: Read<Bytes>)
    ensures p.used <= |t|
  {
    if atyp == ATYPIPv4 then Take(t, 4)
    else if atyp == ATYPDomain then Take(t, 16)
    else if atyp == ATYPIPv6 then
      var domainLen := Take(t, 1);
      if domainLen.result.Err? then Read(Err(domainLen.result.error), domainLen.used)
      else if domainLen.result.value[0] == 0 then Read(Err(BadReply), 1)
      else
        var inner := Take(t[1..], domainLen.result.value[0]);
        if inner.result.Err? then Read(Err(inner.result.error), 1 + inner.used)
        else Read(Ok([]), 1 + inner.used)
    else Read(Err(BadReply), 0)
  }

  /** Decoder run by `ParseSocksReply`: VER REP RSV ATYP, the address branch, then 2 port bytes. */
  function SocksReplyFrom(s: Bytes): (p: Read<SocksReply>)
    ensures p.used <= |s|
    ensures p.result.Ok? <==>
              && |s| >= 4 && s[0] == SocksVer && ReplyAddrFrom(s[3], s[4..]).result.Ok?
              && |s| >= 4 + ReplyAddrFrom(s[3], s[4..]).used + 2
  {
    var h := Take(s, 4);
    if h.result.Err? then Read(Err(h.result.error), h.used)
    else if h.result.value[0] != SocksVer then Read(Err(NonSupportCurrentSocksProtocolVersion), 4)
    else
      var atyp := h.result.value[3];
      var a := ReplyAddrFrom(atyp, s[4..]);
      if a.result.Err? then Read(Err(a.result.error), 4 + a.used)
      else
        var port := Take(s[4 + a.used..], 2);
        if port.result.Err? then Read(Err(port.result.error), 4 + a.used + port.used)
        else Read(Ok(SocksReply(SocksVer, h.result.value[1], h.result.value[2], atyp, a.result.value, port.result.value)),
                  4 + a.used + 2)
  }

  /** The address branch of `ParseSocksReply`, reading from the connection. */
  method ReadReplyAddr(conn: Conn, atyp: byte) returns (r: Result<Bytes>)
    requires conn.Valid()
    modifies conn`pos
    ensures conn.Valid()
    ensures r == ReplyAddrFrom(atyp, old(conn.Unread())).result
    ensures conn.pos == old(conn.pos) + ReplyAddrFrom(atyp, old(conn.Unread())).used
    ensures conn.Unread() == old(conn.Unread())[ReplyAddrFrom(atyp, old(conn.Unread())).used..]
  {
    var addr: Bytes := [];
    if atyp == ATYPIPv4 {
      r := conn.ReadFull(4);
    } else if atyp == ATYPDomain {
      r := conn.ReadFull(16);
    } else if atyp == ATYPIPv6 {
      ghost var t := conn.Unread();
      var domainLen := conn.ReadFull(1);
      if domainLen.Err? {
        return Err(domainLen.error);
      }
      if domainLen.value[0] == 0 {
        return Err(BadReply);
      }
      assert conn.Unread() == t[1..];
      // the source declares a new `addr` here, so the outer one stays nil
      var inner := conn.ReadFull(domainLen.value[0]);
      if inner.Err? {
        return Err(inner.error);
      }
      r := Ok(addr);
    } else {
      r := Err(BadReply);
    }
  }

  method ParseSocksReply(conn: Conn) returns (r: Result<SocksReply>)
    requires conn.Valid()
    modifies conn`pos
    ensures conn.Valid()
    ensures r == SocksReplyFrom(old(conn.Unread())).result
    ensures conn.pos == old(conn.pos) + SocksReplyFrom(old(conn.Unread())).used
  {
    ghost var s := conn.Unread();
    var reply := conn.ReadFull(4);
    if reply.Err? {
      return Err(reply.error);
    }
    if reply.value[0] != SocksVer {
      return Err(NonSupportCurrentSocksProtocolVersion);
    }
    var atyp := reply.value[3];
    var addr := ReadReplyAddr(conn, atyp);
    if addr.Err? {
      return Err(addr.error);
    }
    assert conn.Unread() == s[4 + ReplyAddrFrom(atyp, s[4..]).used..];
    var port := conn.ReadFull(2);
    if port.Err? {
      return Err(port.error);
    }
    r := Ok(SocksReply(SocksVer, reply.value[1], reply.value[2], atyp, addr.value, port.value));
  }

  /**
   * What a reply the client accepts is made of: VER 5, then REP, RSV and ATYP
   * copied from the stream, and the address as the client reads it: 4 bytes
   * for IPv4, the next 16 bytes for a domain name, and nothing for IPv6
   * (whose length byte, at least 1, and bytes are consumed and dropped).
   */
  lemma SocksReplyShape(s: Bytes)
    requires SocksReplyFrom(s).result.Ok?
    ensures var p := SocksReplyFrom(s);
            var r := p.result.value;
            && |s| >= 4 && s[0] == SocksVer && r.ver == SocksVer
            && r.rep == s[1] && r.rsv == s[2] && r.atyp == s[3]
            && (r.atyp == ATYPIPv4 || r.atyp == ATYPDomain || r.atyp == ATYPIPv6)
            && |r.bndPort| == 2 && 6 <= p.used <= |s| && r.bndPort == s[p.used - 2..p.used]
    ensures var p := SocksReplyFrom(s);
            var r := p.result.value;
            r.atyp == ATYPIPv4 ==> p.used == 10 && r.bndAddr == s[4..8]
    ensures var p := SocksReplyFrom(s);
            var r := p.result.value;
            r.atyp == ATYPDomain ==> p.used == 22 && r.bndAddr == s[4..20]
    ensures var p := SocksReplyFrom(s);
            var r := p.result.value;
            r.atyp == ATYPIPv6 ==> |s| >= 5 && s[4] != 0 && p.used == 7 + s[4] as int && r.bndAddr == []
  {
    var a := ReplyAddrFrom(s[3], s[4..]);
    assert s[4 + a.used..][..2] == s[4 + a.used..4 + a.used + 2];
    if s[3] == ATYPIPv4 {
      assert s[4..][..4] == s[4..8];
    } else if s[3] == ATYPDomain {
      assert s[4..][..16] == s[4..20];
    }
  }

  /**
   * An IPv6 reply with a non-zero length byte L and L address bytes is
   * accepted, whatever those bytes are, with an empty BND.ADDR and 7 + L
   * bytes consumed.
   */
  lemma IPv6ReplyDropsAddress(rep: byte, rsv: byte, addr: Bytes, port: Bytes, rest: Bytes)
    requires 1 <= |addr| <= 255 && |port| == 2
    ensures var s := [SocksVer, rep, rsv, ATYPIPv6, |addr| as byte] + addr + port + rest;
            SocksReplyFrom(s) == Read(Ok(SocksReply(SocksVer, rep, rsv, ATYPIPv6, [], port)), 7 + |addr|)
  {
    var s := [SocksVer, rep, rsv, ATYPIPv6, |addr| as byte] + addr + port + rest;
    assert s[..4] == [SocksVer, rep, rsv, ATYPIPv6];
    assert s[4..][..1] == [|addr| as byte];
    assert s[4..][1..][..|addr|] == addr;
    assert s[4 + 1 + |addr|..][..2] == port;
  }

  /** The replies the client refuses outright: a wrong VER, an unknown ATYP, and an IPv6 length byte of 0. */
  lemma SocksReplyRefusals(s: Bytes)
    requires |s| >= 5
    ensures s[0] != SocksVer ==> SocksReplyFrom(s) == Read(Err(NonSupportCurrentSocksProtocolVersion), 4)
    ensures s[0] == SocksVer && s[3] != ATYPIPv4 && s[3] != ATYPDomain && s[3] != ATYPIPv6 ==>
              SocksReplyFrom(s) == Read(Err(BadReply), 4)
    ensures s[0] == SocksVer && s[3] == ATYPIPv6 && s[4] == 0 ==> SocksReplyFrom(s) == Read(Err(BadReply), 5)
  {
    assert s[4..][..1] == [s[4]];
  }
}
