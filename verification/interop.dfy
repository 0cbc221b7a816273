/**
 * The client of socks5/client.go talking to the server of
 * socks5/tcp_server.go: what one side writes, decoded by the other.
 *
 * Most messages survive the trip. Command replies often do not, because of
 * how the client parses them: an IPv6 reply always loses its address (see
 * `ClientCodec.SocksReplyShape`), a domain-name reply keeps its address only
 * when the name is 15 bytes long, and a refused domain-name request is
 * echoed with a second length byte.
 * The handshake lemmas show a whole method negotiation, with each side's
 * input being what the other side wrote.
 */
module Interop {
  import opened Base
  import opened Socks5
  import opened Stream
  import opened GoLib
  import opened ClientCodec
  import opened ServerCodec
  import opened SocksClient
  import opened SocksServer
  import Handler

  // ---------------------------------------------------------------------------
  // Message round trips

  /** A greeting the client builds is read back whole by the server, whatever follows it. */
  lemma NegotiationRequestRoundTrip(methods: Bytes, rest: Bytes)
    requires |methods| <= 255
    ensures var b := NegotiationRequestBytes(NewNegotiationRequest(methods));
            NegotiationRequestFrom(b + rest) == Read(Ok(NewNegotiationRequest(methods)), |b|)
  {
    var b := NegotiationRequestBytes(NewNegotiationRequest(methods));
    assert (b + rest)[2..2 + |methods|] == methods;
  }

  /** A method choice the server builds is read back by the client. */
  lemma NegotiationReplyRoundTrip(authMethod: byte, rest: Bytes)
    ensures var b := NegotiationReplyBytes(NewNegotiationReply(authMethod));
            NegotiationReplyFrom(b + rest) == Read(Ok(NewNegotiationReply(authMethod)), |b|)
  {
    var b := NegotiationReplyBytes(NewNegotiationReply(authMethod));
    assert (b + rest)[..2] == b;
  }

  /**
   * Credentials the client sends are read back by the server exactly when
   * neither is empty; an empty username or password, which the client lets
   * through, is a bad request to the server.
   */
  lemma UserPassRequestRoundTrip(username: Bytes, password: Bytes, rest: Bytes)
    requires |username| <= 255 && |password| <= 255
    ensures var q := NewUsernamePasswordNegotiationRequest(username, password).value;
            var p := UserPassRequestFrom(UserPassRequestBytes(q) + rest);
            && (p.result == Ok(q) <==> username != [] && password != [])
            && (p.result == Ok(q) ==> p.used == |UserPassRequestBytes(q)|)
            && (username == [] || password == [] ==> p.result == Err(BadRequest))
  {
    var q := NewUsernamePasswordNegotiationRequest(username, password).value;
    var b := UserPassRequestBytes(q);
    var s := b + rest;
    var ulen := |username|;
    assert s[..2] == [UsernamePasswordVer, ulen as byte];
    if ulen > 0 {
      assert s[2..][..ulen] == username;
      var t := s[2 + ulen..];
      assert t[..1] == [|password| as byte];
      assert t[1..][..|password|] == password;
    }
  }

  /** A status the server builds is read back by the client. */
  lemma UserPassReplyRoundTrip(status: byte, rest: Bytes)
    ensures var b := UserPassReplyBytes(NewUserPassNegotiationReply(status));
            UserPassReplyFrom(b + rest) == Read(Ok(NewUserPassNegotiationReply(status)), |b|)
  {
    var b := UserPassReplyBytes(NewUserPassNegotiationReply(status));
    assert (b + rest)[..2] == b;
  }

  /** A request for an IPv4 or IPv6 target that the client builds is read back whole by the server. */
  lemma SocksRequestRoundTrip(cmd: byte, atyp: byte, addr: Bytes, port: Bytes, rest: Bytes)
    requires (atyp == ATYPIPv4 && |addr| == 4) || (atyp == ATYPIPv6 && |addr| == 16)
    requires |port| == 2
    ensures NewSocksRequest(cmd, atyp, addr, port).Ok?
    ensures var q := NewSocksRequest(cmd, atyp, addr, port).value;
            var b := SocksRequestBytes(q);
            SocksRequestFrom(b + rest) == Read(Ok(q), |b|)
  {
    var q := NewSocksRequest(cmd, atyp, addr, port).value;
    var s := SocksRequestBytes(q) + rest;
    assert s[..4] == [SocksVer, cmd, 0, atyp];
    assert s[4..][..|addr|] == addr;
    assert s[4 + |addr|..][..2] == port;
  }

  /**
   * A request for a domain-name target is read back by the server exactly
   * when the name fits its one-byte length (the client truncates the length
   * of a longer name).
   */
  lemma DomainRequestRoundTrip(cmd: byte, name: Bytes, port: Bytes, rest: Bytes)
    requires |name| >= 2 && |port| == 2
    ensures NewSocksRequest(cmd, ATYPDomain, name, port).Ok?
    ensures var q := NewSocksRequest(cmd, ATYPDomain, name, port).value;
            SocksRequestFrom(SocksRequestBytes(q) + rest).result == Ok(q) <==> |name| <= 255
  {
    var q := NewSocksRequest(cmd, ATYPDomain, name, port).value;
    var s := SocksRequestBytes(q) + rest;
    assert s[..4] == [SocksVer, cmd, 0, ATYPDomain];
    if |name| <= 255 {
      var t := s[4..];
      assert t[..1] == [|name| as byte];
      assert t[1..][..|name|] == name;
      assert [|name| as byte] + name == q.dstAddr;
      assert s[4 + |q.dstAddr|..][..2] == port;
    }
  }

  /** The handler dials the domain name the client asked for, without its length byte. */
  lemma DomainRequestTarget(net: Net, cmd: byte, name: Bytes, port: Bytes)
    requires |name| >= 2 && |port| == 2
    ensures var q := NewSocksRequest(cmd, ATYPDomain, name, port).value;
            Handler.Targetable(q) && Handler.TargetHost(net, q) == name
  {
  }

  /** An IPv4 reply the server builds is read back whole by the client. */
  lemma IPv4ReplyRoundTrip(rep: byte, addr: Bytes, port: Bytes, rest: Bytes)
    requires |addr| == 4 && |port| == 2
    ensures var r := NewSocksReply(rep, ATYPIPv4, addr, port);
            SocksReplyFrom(SocksReplyBytes(r) + rest) == Read(Ok(r), 10)
  {
    var r := NewSocksReply(rep, ATYPIPv4, addr, port);
    var s := SocksReplyBytes(r) + rest;
    assert s[..4] == [SocksVer, rep, 0, ATYPIPv4];
    assert s[4..][..4] == addr;
    assert s[8..][..2] == port;
  }

  // ---------------------------------------------------------------------------
  // Where the client's reply parser loses information

  /**
   * A domain-name reply the server builds is read back by the client exactly
   * when the name is 15 bytes long, because the client takes the 16 bytes
   * after ATYP as the address, length byte included.
   */
  lemma DomainReplyRoundTrip(rep: byte, name: Bytes, port: Bytes, rest: Bytes)
    requires |port| == 2
    ensures var r := NewSocksReply(rep, ATYPDomain, name, port);
            SocksReplyFrom(SocksReplyBytes(r) + rest).result == Ok(r) <==> |name| == 15
  {
    var r := NewSocksReply(rep, ATYPDomain, name, port);
    var s := SocksReplyBytes(r) + rest;
    assert s[..4] == [SocksVer, rep, 0, ATYPDomain];
    if |name| == 15 {
      assert s[4..][..16] == r.bndAddr;
      assert s[20..][..2] == port;
    }
  }

  /**
   * A domain-name request for an unsupported command is refused with a
   * reply that puts a second length byte in front of the address the
   * request already carried with its own.
   */
  lemma RefusedDomainRequestReply(name: Bytes, port: Bytes, rest: Bytes)
    requires 2 <= |name| <= 255 && |port| == 2
    ensures var q := NewSocksRequest(CMDBind, ATYPDomain, name, port).value;
            var x := ServerRequestExchange(SupportedCommands, true, SocksRequestBytes(q) + rest);
            && x.result == Err(NonSupportCommand)
            && x.sent == [SocksVer, ReplyCommandNonSupport, 0, ATYPDomain, ((|name| + 1) % 256) as byte, |name| as byte] + name + port
  {
    var q := NewSocksRequest(CMDBind, ATYPDomain, name, port).value;
    DomainRequestRoundTrip(CMDBind, name, port, rest);
  }

  // ---------------------------------------------------------------------------
  // Method negotiation, client against server

  /** What a client holding both credentials writes during a negotiation that goes through. */
  function CredentialGreeting(username: Bytes, password: Bytes): Bytes
    requires |username| <= 255 && |password| <= 255
  {
    [SocksVer, 1, MethodUsernamePassword, UsernamePasswordVer, |username| as byte] + username +
    [|password| as byte] + password
  }

  /**
   * A client with credentials against a username/password server: the
   * server reads the whole greeting and credentials and answers
   * `[5, 2, 1, status]`. Wrong credentials end the client's negotiation with
   * an error, while the server's negotiation succeeds all the same.
   */
  lemma AuthenticatedHandshake(username: Bytes, password: Bytes, serverUser: Bytes, serverPass: Bytes)
    requires 1 <= |username| <= 255 && 1 <= |password| <= 255
    ensures var c := CredentialGreeting(username, password);
            var accepted := EqualFold(serverUser, username) && EqualFold(serverPass, password);
            var status := if accepted then UsernamePasswordStatusSuccess else UsernamePasswordStatusFail;
            ServerNegotiationExchange(MethodUsernamePassword, serverUser, serverPass, true, c) ==
              Exchange(Ok(()), [SocksVer, MethodUsernamePassword, UsernamePasswordVer, status], |c|)
    ensures var c := CredentialGreeting(username, password);
            var accepted := EqualFold(serverUser, username) && EqualFold(serverPass, password);
            var status := if accepted then UsernamePasswordStatusSuccess else UsernamePasswordStatusFail;
            var x := NegotiationExchange(username, password, true, [SocksVer, MethodUsernamePassword, UsernamePasswordVer, status]);
            && x.sent == c && x.used == 4
            && (x.result.Ok? <==> accepted)
            && (!accepted ==> x.result == Err(UnameOrPasswdError))
  {
    var c := CredentialGreeting(username, password);
    var greeting := [SocksVer, 1, MethodUsernamePassword];
    var q := NewUsernamePasswordNegotiationRequest(username, password).value;
    assert c == NegotiationRequestBytes(NewNegotiationRequest([MethodUsernamePassword])) + UserPassRequestBytes(q);
    NegotiationRequestRoundTrip([MethodUsernamePassword], UserPassRequestBytes(q));
    assert c[3..] == UserPassRequestBytes(q) + [];
    UserPassRequestRoundTrip(username, password, []);
  }

  /**
   * A client without credentials against a server without authentication:
   * the client offers only 0xFF, so the server first refuses and then
   * selects "no authentication" anyway; the client takes the refusal as the
   * agreed method, succeeds, and leaves the second choice unread in front
   * of the command reply it expects next.
   */
  lemma NoAuthDesync(username: Bytes, password: Bytes, serverUser: Bytes, serverPass: Bytes)
    requires username == [] || password == []
    ensures var n := ServerNegotiationExchange(MethodNoAuthRequired, serverUser, serverPass, true,
                                               [SocksVer, 1, MethodNoAcceptableMethods]);
            n == Exchange(Ok(()), [SocksVer, MethodNoAcceptableMethods, SocksVer, MethodNoAuthRequired], 3)
    ensures var x := NegotiationExchange(username, password, true,
                                         [SocksVer, MethodNoAcceptableMethods, SocksVer, MethodNoAuthRequired]);
            x == Exchange(Ok(()), [SocksVer, 1, MethodNoAcceptableMethods], 2)
  {
    var s: Bytes := [SocksVer, 1, MethodNoAcceptableMethods];
    assert s[2..2 + 1] == [MethodNoAcceptableMethods];
  }

  /**
   * A client with credentials against a server without authentication: the
   * server refuses and selects "no authentication"; the client, seeing the
   * refusal instead of its offer, gives up before sending its credentials.
   */
  lemma CredentialsAgainstNoAuthServer(username: Bytes, password: Bytes, serverUser: Bytes, serverPass: Bytes)
    requires username != [] && password != []
    ensures var n := ServerNegotiationExchange(MethodNoAuthRequired, serverUser, serverPass, true,
                                               [SocksVer, 1, MethodUsernamePassword]);
            n == Exchange(Ok(()), [SocksVer, MethodNoAcceptableMethods, SocksVer, MethodNoAuthRequired], 3)
    ensures var x := NegotiationExchange(username, password, true,
                                         [SocksVer, MethodNoAcceptableMethods, SocksVer, MethodNoAuthRequired]);
            x == Exchange(Err(NonSupportCurrentMethod), [SocksVer, 1, MethodUsernamePassword], 2)
  {
    var s: Bytes := [SocksVer, 1, MethodUsernamePassword];
    assert s[2..2 + 1] == [MethodUsernamePassword];
  }
}
