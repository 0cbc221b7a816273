/**
 * The server's message parsers, builders and writers (the helper functions
 * of socks5/tcp_server.go). Each parser is described by a pure decoder over
 * the bytes still unread, each writer by the exact bytes it emits.
 */
module ServerCodec {
  import opened Base
  import opened Socks5
  import opened Stream

  // ---------------------------------------------------------------------------
  // 1. method-selection request

  /**
   * Decoder run by `ParseNegotiationRequest`: VER (must be 0x05), NMETHODS,
   * then NMETHODS method bytes; NMETHODS = 0 is accepted.
   */
  function NegotiationRequestFrom(s: Bytes): (p: Read<NegotiationRequest>)
    ensures p.used <= |s|
    ensures |s| < 2 ==> p == Read(Err(ShortRead(|s|)), |s|)
    ensures |s| >= 2 && s[0] != SocksVer ==> p == Read(Err(NonSupportCurrentSocksProtocolVersion), 2)
    ensures |s| >= 2 && s[0] == SocksVer && |s| < 2 + s[1] as int ==> p == Read(Err(ShortRead(|s| - 2)), |s|)
    ensures p.result.Ok? <==> |s| >= 2 && s[0] == SocksVer && |s| >= 2 + s[1] as int
    ensures p.result.Ok? ==> p.used == 2 + s[1] as int &&
                             p.result.value == NegotiationRequest(s[0], s[1], s[2..2 + s[1] as int])
  {
    var h := Take(s, 2);
    if h.result.Err? then Read(Err(h.result.error), h.used)
    else if h.result.value[0] != SocksVer then Read(Err(NonSupportCurrentSocksProtocolVersion), 2)
    else
      var nmethods: nat := h.result.value[1];
      var m := Take(s[2..], nmethods);
      if m.result.Err? then Read(Err(m.result.error), 2 + m.used)
      else Read(Ok(NegotiationRequest(h.result.value[0], nmethods, m.result.value)), 2 + nmethods)
  }

  method ParseNegotiationRequest(conn: Conn) returns (r: Result<NegotiationRequest>)
    requires conn.Valid()
    modifies conn`pos
    ensures conn.Valid()
    ensures r == NegotiationRequestFrom(old(conn.Unread())).result
    ensures conn.pos == old(conn.pos) + NegotiationRequestFrom(old(conn.Unread())).used
  {
    ghost var s := conn.Unread();
    var body := conn.ReadFull(2);
    if body.Err? {
      return Err(body.error);
    }
    if SocksVer != body.value[0] {
      return Err(NonSupportCurrentSocksProtocolVersion);
    }
    var nmethods := body.value[1];
    var methods := conn.ReadFull(nmethods);
    if methods.Err? {
      return Err(methods.error);
    }
    r := Ok(NegotiationRequest(body.value[0], body.value[1], methods.value));
  }

  // ---------------------------------------------------------------------------
  // 2. method-selection reply

  function NewNegotiationReply(authMethod: byte): (r: NegotiationReply)
    ensures r.ver == SocksVer && r.authMethod == authMethod
  {
    NegotiationReply(SocksVer, authMethod)
  }

  /** The bytes `NegotiationReply.WriteTo` emits: VER METHOD. */
  function NegotiationReplyBytes(r: NegotiationReply): (b: Bytes)
  {
    [r.ver, r.authMethod]
  }

  method WriteNegotiationReply(reply: NegotiationReply, conn: Conn) returns (err: Option<Error>)
    modifies conn`outgoing
    ensures err == (if conn.writable then None else Some(WriteFailed))
    ensures conn.outgoing == old(conn.outgoing) + (if conn.writable then NegotiationReplyBytes(reply) else [])
  {
    err := conn.Write([reply.ver, reply.authMethod]);
  }

  // ---------------------------------------------------------------------------
  // 3. username/password request

  /**
   * Decoder run by `ParseUnamePasswdNegotiationRequest`: VER (must be 0x01),
   * ULEN (must not be 0), UNAME, PLEN (must not be 0), PASSWD.
   */
  function UserPassRequestFrom(s: Bytes): (p: Read<UsernamePasswordNegotiationRequest>)
    ensures p.used <= |s|
    ensures |s| < 2 ==> p == Read(Err(ShortRead(|s|)), |s|)
    ensures |s| >= 2 && s[0] != UsernamePasswordVer ==> p == Read(Err(UnamePasswdVersion), 2)
    ensures |s| >= 2 && s[0] == UsernamePasswordVer && s[1] == 0 ==> p == Read(Err(BadRequest), 2)
    ensures p.result.Ok? ==>
              var r := p.result.value;
              && r.ver == UsernamePasswordVer && CredentialsDocumented(r)
              && p.used == 3 + |r.uname| + |r.password|
              && s[..p.used] == [r.ver, r.uLen] + r.uname + [r.pLen] + r.password
  {
    var h := Take(s, 2);
    if h.result.Err? then Read(Err(h.result.error), h.used)
    else if UsernamePasswordVer != h.result.value[0] then Read(Err(UnamePasswdVersion), 2)
    else
      var ulen: nat := h.result.value[1];
      if ulen == 0 then Read(Err(BadRequest), 2)
      else
        var uname := Take(s[2..], ulen);
        if uname.result.Err? then Read(Err(uname.result.error), 2 + uname.used)
        else PasswordFrom(h.result.value[0], uname.result.value, s[2 + ulen..], 2 + ulen)
  }

  /** The PLEN PASSWD half of `UserPassRequestFrom`, after `k` bytes have been read. */
  function PasswordFrom(ver: byte, uname: Bytes, t: Bytes, k: nat): (p: Read<UsernamePasswordNegotiationRequest>)
    requires |uname| < 256
    ensures k <= p.used <= k + |t|
    ensures p.result.Ok? ==>
              var r := p.result.value;
              && r == UsernamePasswordNegotiationRequest(ver, |uname|, uname, r.pLen, r.password)
              && 1 <= |r.password| == r.pLen as int
              && p.used == k + 1 + |r.password|
              && t[..1 + |r.password|] == [r.pLen] + r.password
  {
    var plenByte := Take(t, 1);
    if plenByte.result.Err? then Read(Err(plenByte.result.error), k + plenByte.used)
    else
      var plen: nat := plenByte.result.value[0];
      if plen == 0 then Read(Err(BadRequest), k + 1)
      else
        var passwd := Take(t[1..], plen);
        if passwd.result.Err? then Read(Err(passwd.result.error), k + 1 + passwd.used)
        else Read(Ok(UsernamePasswordNegotiationRequest(ver, |uname|, uname, plen, passwd.result.value)), k + 1 + plen)
  }

  method ParseUnamePasswdNegotiationRequest(conn: Conn) returns (r: Result<UsernamePasswordNegotiationRequest>)
    requires conn.Valid()
    modifies conn`pos
    ensures conn.Valid()
    ensures r == UserPassRequestFrom(old(conn.Unread())).result
    ensures conn.pos == old(conn.pos) + UserPassRequestFrom(old(conn.Unread())).used
  {
    ghost var s := conn.Unread();
    var body := conn.ReadFull(2);
    if body.Err? {
      return Err(body.error);
    }
    if UsernamePasswordVer != body.value[0] {
      return Err(UnamePasswdVersion);
    }
    var ulen := body.value[1];
    if ulen == 0 {
      return Err(BadRequest);
    }
    var uname := conn.ReadFull(ulen);
    if uname.Err? {
      return Err(uname.error);
    }
    assert conn.Unread() == s[2 + ulen..];
    r := ReadPassword(conn, body.value[0], uname.value);
  }

  /** The PLEN PASSWD half of `ParseUnamePasswdNegotiationRequest`. */
  method ReadPassword(conn: Conn, ver: byte, uname: Bytes) returns (r: Result<UsernamePasswordNegotiationRequest>)
    requires conn.Valid() && |uname| < 256
    modifies conn`pos
    ensures conn.Valid()
    ensures r == PasswordFrom(ver, uname, old(conn.Unread()), 0).result
    ensures conn.pos == old(conn.pos) + PasswordFrom(ver, uname, old(conn.Unread()), 0).used
  {
    ghost var t := conn.Unread();
    var plenByte := conn.ReadFull(1);
    if plenByte.Err? {
      return Err(plenByte.error);
    }
    var plen := plenByte.value[0];
    if plen == 0 {
      return Err(BadRequest);
    }
    assert conn.Unread() == t[1..];
    var passwd := conn.ReadFull(plen);
    if passwd.Err? {
      return Err(passwd.error);
    }
    r := Ok(UsernamePasswordNegotiationRequest(ver, |uname|, uname, plen, passwd.value));
  }

  // ---------------------------------------------------------------------------
  // 4. username/password reply

  function NewUserPassNegotiationReply(status: byte): (r: UsernamePasswordNegotiationReply)
    ensures r.ver == UsernamePasswordVer && r.status == status
  {
    UsernamePasswordNegotiationReply(UsernamePasswordVer, status)
  }

  /** The bytes `UsernamePasswordNegotiationReply.WriteTo` emits: VER STATUS. */
  function UserPassReplyBytes(r: UsernamePasswordNegotiationReply): (b: Bytes)
  {
    [r.ver, r.status]
  }

  method WriteUserPassNegotiationReply(reply: UsernamePasswordNegotiationReply, conn: Conn)
    returns (err: Option<Error>)
    modifies conn`outgoing
    ensures err == (if conn.writable then None else Some(WriteFailed))
    ensures conn.outgoing == old(conn.outgoing) + (if conn.writable then UserPassReplyBytes(reply) else [])
  {
    err := conn.Write([reply.ver, reply.status]);
  }

  // ---------------------------------------------------------------------------
  // 5. command request

  /**
   * The address branch of `ParseSocksRequest`: ATYP 0x01 reads 4 bytes,
   * ATYP 0x03 a non-zero length byte and that many bytes (the length byte is
   * kept as the first byte of the address), ATYP 0x04 reads 16 bytes; any
   * other ATYP is a bad request.
   */
  function RequestAddrFrom(atyp: byte, t: Bytes): (p: Read<Bytes>)
    ensures p.used <= |t|
    ensures atyp == ATYPIPv4 ==> p == Take(t, 4)
    ensures atyp == ATYPIPv6 ==> p == Take(t, 16)
    ensures atyp != ATYPIPv4 && atyp != ATYPDomain && atyp != ATYPIPv6 ==> p == Read(Err(BadRequest), 0)
    ensures atyp == ATYPDomain ==>
              (p.result.Ok? <==> |t| >= 1 && t[0] != 0 && |t| >= 1 + t[0] as int) &&
              (p.result.Ok? ==> p.used == 1 + t[0] as int && p.result.value == t[..p.used]) &&
              (|t| >= 1 && t[0] == 0 ==> p == Read(Err(BadRequest), 1))
  {
    if atyp == ATYPIPv4 then Take(t, 4)
    else if atyp == ATYPDomain then
      var addrLen := Take(t, 1);
      if addrLen.result.Err? then Read(Err(addrLen.result.error), addrLen.used)
      else if addrLen.result.value[0] == 0 then Read(Err(BadRequest), 1)
      else
        var addr := Take(t[1..], addrLen.result.value[0]);
        if addr.result.Err? then Read(Err(addr.result.error), 1 + addr.used)
        else Read(Ok(addrLen.result.value + addr.result.value), 1 + addrLen.result.value[0] as int)
    else if atyp == ATYPIPv6 then Take(t, 16)
    else Read(Err(BadRequest), 0)
  }

  /**
   * Decoder run by `ParseSocksRequest`: VER CMD RSV ATYP, the address
   * branch, then 2 port bytes. A wrong VER is reported with the
   * username/password version error, and RSV is not checked.
   */
  function SocksRequestFrom(s: Bytes): (p: Read<SocksRequest>)
    ensures p.used <= |s|
    ensures |s| >= 4 && s[0] != SocksVer ==> p == Read(Err(NonSupportCurrentUnamePasswdVersion), 4)
    ensures |s| >= 4 && s[0] == SocksVer && s[3] != ATYPIPv4 && s[3] != ATYPDomain && s[3] != ATYPIPv6 ==>
              p == Read(Err(BadRequest), 4)
    ensures p.result.Ok? <==>
              && |s| >= 4 && s[0] == SocksVer
              && RequestAddrFrom(s[3], s[4..]).result.Ok?
              && |s| >= 4 + RequestAddrFrom(s[3], s[4..]).used + 2
    ensures p.result.Ok? ==>
              var r := p.result.value;
              && |s| >= 4 && r.ver == SocksVer && [r.ver, r.cmd, r.rsv, r.atyp] == s[..4]
              && (r.atyp == ATYPIPv4 || r.atyp == ATYPDomain || r.atyp == ATYPIPv6)
              && (r.atyp == ATYPIPv4 ==> |r.dstAddr| == 4)
              && (r.atyp == ATYPIPv6 ==> |r.dstAddr| == 16)
              && (r.atyp == ATYPDomain ==> 2 <= |r.dstAddr| == 1 + r.dstAddr[0] as int)
              && |r.dstPort| == 2
              && p.used == 4 + |r.dstAddr| + 2
              && s[..p.used] == s[..4] + r.dstAddr + r.dstPort
  {
    var h := Take(s, 4);
    if h.result.Err? then Read(Err(h.result.error), h.used)
    else if SocksVer != h.result.value[0] then Read(Err(NonSupportCurrentUnamePasswdVersion), 4)
    else
      var addrType := h.result.value[3];
      var a := RequestAddrFrom(addrType, s[4..]);
      if a.result.Err? then Read(Err(a.result.error), 4 + a.used)
      else
        var port := Take(s[4 + a.used..], 2);
        if port.result.Err? then Read(Err(port.result.error), 4 + a.used + port.used)
        else Read(Ok(SocksRequest(h.result.value[0], h.result.value[1], h.result.value[2], addrType,
                                  a.result.value, port.result.value)),
                  4 + a.used + 2)
  }

  /** The address branch of `ParseSocksRequest`, reading from the connection. */
  method ReadRequestAddr(conn: Conn, addrType: byte) returns (r: Result<Bytes>)
    requires conn.Valid()
    modifies conn`pos
    ensures conn.Valid()
    ensures r == RequestAddrFrom(addrType, old(conn.Unread())).result
    ensures conn.pos == old(conn.pos) + RequestAddrFrom(addrType, old(conn.Unread())).used
    ensures conn.Unread() == old(conn.Unread())[RequestAddrFrom(addrType, old(conn.Unread())).used..]
  {
    if addrType == ATYPIPv4 {
      r := conn.ReadFull(4);
    } else if addrType == ATYPDomain {
      ghost var t := conn.Unread();
      var addrLen := conn.ReadFull(1);
      if addrLen.Err? {
        return Err(addrLen.error);
      }
      if addrLen.value[0] == 0 {
        return Err(BadRequest);
      }
      assert conn.Unread() == t[1..];
      var addr := conn.ReadFull(addrLen.value[0]);
      if addr.Err? {
        return Err(addr.error);
      }
      r := Ok(addrLen.value + addr.value);
    } else if addrType == ATYPIPv6 {
      r := conn.ReadFull(16);
    } else {
      r := Err(BadRequest);
    }
  }

  method ParseSocksRequest(conn: Conn) returns (r: Result<SocksRequest>)
    requires conn.Valid()
    modifies conn`pos
    ensures conn.Valid()
    ensures r == SocksRequestFrom(old(conn.Unread())).result
    ensures conn.pos == old(conn.pos) + SocksRequestFrom(old(conn.Unread())).used
  {
    ghost var s := conn.Unread();
    var body := conn.ReadFull(4);
    if body.Err? {
      return Err(body.error);
    }
    if SocksVer != body.value[0] {
      return Err(NonSupportCurrentUnamePasswdVersion);
    }
    var addrType := body.value[3];
    var addr := ReadRequestAddr(conn, addrType);
    if addr.Err? {
      return Err(addr.error);
    }
    assert conn.Unread() == s[4 + RequestAddrFrom(addrType, s[4..]).used..];
    var port := conn.ReadFull(2);
    if port.Err? {
      return Err(port.error);
    }
    r := Ok(SocksRequest(body.value[0], body.value[1], body.value[2], addrType, addr.value, port.value));
  }

  // ---------------------------------------------------------------------------
  // 6. command reply

  /** `NewSocksReply`: a domain-name address gets a length byte (truncated to a byte) in front. */
  function NewSocksReply(rep: byte, atyp: byte, bndAddr: Bytes, bndPort: Bytes): (r: SocksReply)
    ensures r.ver == SocksVer && r.rsv == 0x00 && r.rep == rep && r.atyp == atyp && r.bndPort == bndPort
    ensures atyp == ATYPDomain ==> r.bndAddr == [|bndAddr| % 256] + bndAddr
    ensures atyp != ATYPDomain ==> r.bndAddr == bndAddr
    ensures ReplyDocumented(r) <==> |bndPort| == 2
  {
    var addr := if atyp == ATYPDomain then [|bndAddr| % 256] + bndAddr else bndAddr;
    SocksReply(SocksVer, rep, 0x00, atyp, addr, bndPort)
  }

  /** The bytes `SocksReply.WriteTo` emits: VER REP RSV ATYP BND.ADDR BND.PORT. */
  function SocksReplyBytes(r: SocksReply): (b: Bytes)
  {
    [r.ver, r.rep, r.rsv, r.atyp] + r.bndAddr + r.bndPort
  }

  method WriteSocksReply(reply: SocksReply, conn: Conn) returns (err: Option<Error>)
    modifies conn`outgoing
    ensures err == (if conn.writable then None else Some(WriteFailed))
    ensures conn.outgoing == old(conn.outgoing) + (if conn.writable then SocksReplyBytes(reply) else [])
  {
    ghost var before := conn.outgoing;
    err := conn.Write([reply.ver, reply.rep, reply.rsv, reply.atyp]);
    if err.Some? { return; }
    err := conn.Write(reply.bndAddr);
    if err.Some? { return; }
    err := conn.Write(reply.bndPort);
    if err.Some? { return; }
    assert conn.outgoing == before + ([reply.ver, reply.rep, reply.rsv, reply.atyp] + reply.bndAddr + reply.bndPort);
  }
}
