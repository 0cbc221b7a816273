/**
 * The SOCKS5 server of socks5/server.go and socks5/tcp_server.go: its
 * configuration, the per-connection session (method selection,
 * username/password check, command request, handler) and the accept loop
 * with its back-off on temporary errors.
 *
 * Each step of a session is a pure conversation from the bytes the client
 * sends; the methods of `Server` are proved to hold exactly those
 * conversations on the connection.
 */
module SocksServer {
  import opened Base
  import opened Socks5
  import opened Stream
  import opened GoLib
  import opened ServerCodec
  import Handler

  // ---------------------------------------------------------------------------
  // Configuration

  /** `NewServer`'s choice of method: username/password when both credentials are set, otherwise none. */
  function ValidateMode(username: Bytes, password: Bytes): (m: byte)
    ensures m == MethodUsernamePassword <==> username != [] && password != []
    ensures m == MethodNoAuthRequired <==> username == [] || password == []
  {
    if username != [] && password != [] then MethodUsernamePassword else MethodNoAuthRequired
  }

  /** The commands every server accepts: CONNECT and UDP ASSOCIATE, not BIND. */
  const SupportedCommands: Bytes := [CMDConnect, CMDUDPAssociate]

  /** `x in xs`, by the linear scan both membership loops of the server perform. */
  method Contains(xs: Bytes, x: byte) returns (found: bool)
    ensures found <==> x in xs
  {
    found := false;
    var i := 0;
    while i < |xs|
      invariant 0 <= i <= |xs|
      invariant x !in xs[..i]
    {
      if x == xs[i] {
        found := true;
        break;
      }
      i := i + 1;
    }
    assert found || xs[..i] == xs;
  }

  // ---------------------------------------------------------------------------
  // The conversations of one session

  /** The STATUS the server answers a username/password request with: success only if both match, ignoring case. */
  function AuthStatus(username: Bytes, password: Bytes, request: UsernamePasswordNegotiationRequest): (status: byte)
    ensures status == UsernamePasswordStatusSuccess <==>
              EqualFold(username, request.uname) && EqualFold(password, request.password)
    ensures status == UsernamePasswordStatusSuccess || status == UsernamePasswordStatusFail
  {
    if !EqualFold(username, request.uname) || !EqualFold(password, request.password) then UsernamePasswordStatusFail
    else UsernamePasswordStatusSuccess
  }

  /**
   * The username/password step of `Server.negotiation`, with `t` the bytes
   * the client sends after the greeting. Whatever the credentials, a
   * request that parses and a reply that is written end the step without
   * error: wrong credentials are answered with STATUS 0x01 and the session
   * goes on.
   */
  function ServerAuthExchange(username: Bytes, password: Bytes, writable: bool, t: Bytes): (x: Exchange<()>)
    ensures x.used == UserPassRequestFrom(t).used
    ensures x.result.Ok? <==> writable && UserPassRequestFrom(t).result.Ok?
    ensures x.result.Ok? ==>
              x.sent == [UsernamePasswordVer, AuthStatus(username, password, UserPassRequestFrom(t).result.value)]
    ensures x.result.Err? ==> x.sent == []
  {
    var request := UserPassRequestFrom(t);
    if request.result.Err? then Exchange(Err(request.result.error), [], request.used)
    else if !writable then Exchange(Err(WriteFailed), [], request.used)
    else
      var status := AuthStatus(username, password, request.result.value);
      Exchange(Ok(()), UserPassReplyBytes(NewUserPassNegotiationReply(status)), request.used)
  }

  /**
   * `Server.negotiation`, with `s` the bytes the client sends. When the
   * client does not offer the server's method the server writes the
   * "no acceptable methods" reply and then, regardless, the reply selecting
   * its own method, and carries on.
   */
  function ServerNegotiationExchange(authMethod: byte, username: Bytes, password: Bytes, writable: bool, s: Bytes)
    : (x: Exchange<()>)
    ensures x.used <= |s|
    ensures NegotiationRequestFrom(s).result.Err? ==>
              x == Exchange(Err(NegotiationRequestFrom(s).result.error), [], NegotiationRequestFrom(s).used)
    ensures x.result.Ok? <==>
              && writable && NegotiationRequestFrom(s).result.Ok?
              && (authMethod == MethodUsernamePassword ==>
                    UserPassRequestFrom(s[NegotiationRequestFrom(s).used..]).result.Ok?)
    ensures writable && NegotiationRequestFrom(s).result.Ok? ==>
              var offered := authMethod in NegotiationRequestFrom(s).result.value.methods;
              && (offered ==> |x.sent| >= 2 && x.sent[..2] == [SocksVer, authMethod])
              && (!offered ==> |x.sent| >= 4 && x.sent[..4] == [SocksVer, MethodNoAcceptableMethods, SocksVer, authMethod])
    ensures NegotiationRequestFrom(s).result.Ok? && !writable ==>
              x == Exchange(Err(WriteFailed), [], NegotiationRequestFrom(s).used)
    ensures writable && NegotiationRequestFrom(s).result.Ok? ==>
              var greeting := NegotiationRequestFrom(s);
              var refusal := if authMethod in greeting.result.value.methods then [] else [SocksVer, MethodNoAcceptableMethods];
              var auth := ServerAuthExchange(username, password, writable, s[greeting.used..]);
              if authMethod == MethodUsernamePassword then
                x == Exchange(auth.result, refusal + [SocksVer, authMethod] + auth.sent, greeting.used + auth.used)
              else
                x == Exchange(Ok(()), refusal + [SocksVer, authMethod], greeting.used)
  {
    var request := NegotiationRequestFrom(s);
    if request.result.Err? then Exchange(Err(request.result.error), [], request.used)
    else if !writable then Exchange(Err(WriteFailed), [], request.used)
    else
      var refusal := if authMethod in request.result.value.methods then [] else
        NegotiationReplyBytes(NewNegotiationReply(MethodNoAcceptableMethods));
      var sent := refusal + NegotiationReplyBytes(NewNegotiationReply(authMethod));
      if authMethod != MethodUsernamePassword then Exchange(Ok(()), sent, request.used)
      else
        var auth := ServerAuthExchange(username, password, writable, s[request.used..]);
        Exchange(auth.result, sent + auth.sent, request.used + auth.used)
  }

  /**
   * `Server.parseRequest`: a parsed request whose command is not supported
   * is answered with REP 0x07 echoing its address and port, and refused.
   */
  function ServerRequestExchange(supportCommands: Bytes, writable: bool, s: Bytes): (x: Exchange<SocksRequest>)
    ensures x.used == SocksRequestFrom(s).used
    ensures x.result.Ok? <==> SocksRequestFrom(s).result.Ok? && SocksRequestFrom(s).result.value.cmd in supportCommands
    ensures x.result.Ok? ==> x.result == SocksRequestFrom(s).result && x.sent == []
    ensures x.result.Ok? ==> Handler.Targetable(x.result.value)
    ensures SocksRequestFrom(s).result.Ok? && SocksRequestFrom(s).result.value.cmd !in supportCommands ==>
              var request := SocksRequestFrom(s).result.value;
              && x.result == Err(if writable then NonSupportCommand else WriteFailed)
              && x.sent == Handler.Wire(writable, NewSocksReply(ReplyCommandNonSupport, request.atyp, request.dstAddr, request.dstPort))
  {
    var parsed := SocksRequestFrom(s);
    if parsed.result.Err? then Exchange(Err(parsed.result.error), [], parsed.used)
    else
      var request := parsed.result.value;
      if request.cmd in supportCommands then Exchange(Ok(request), [], parsed.used)
      else if !writable then Exchange(Err(WriteFailed), [], parsed.used)
      else
        var reply := NewSocksReply(ReplyCommandNonSupport, request.atyp, request.dstAddr, request.dstPort);
        Exchange(Err(NonSupportCommand), SocksReplyBytes(reply), parsed.used)
  }

  /**
   * How `processTCPConn` ended: what it wrote, how much it read, the request
   * it passed to the handler (if it got that far) and the error it logged.
   */
  datatype SessionEnd = SessionEnd(sent: Bytes, used: nat, handled: Option<SocksRequest>, logged: Option<Error>)

  // ---------------------------------------------------------------------------
  // The accept loop

  /** What one `AcceptTCP` call produced. */
  datatype AcceptEvent = Accepted | TemporaryError(cause: Error) | OtherError(cause: Error)

  /** `time.Millisecond` and `time.Second`, in nanoseconds. */
  const Millisecond: nat := 1_000_000
  const Second: nat := 1_000_000_000

  /** The next back-off after a temporary accept error: 5ms first, then doubling, capped at 1s. */
  function Backoff(tempDelay: nat): (next: nat)
    ensures next <= Second
    ensures tempDelay == 0 ==> next == 5 * Millisecond
    ensures 0 < tempDelay && 2 * tempDelay <= Second ==> next == 2 * tempDelay
    ensures 0 < tempDelay && 2 * tempDelay > Second ==> next == Second
  {
    var doubled := if tempDelay == 0 then 5 * Millisecond else 2 * tempDelay;
    if doubled > Second then Second else doubled
  }

  function Pow2(k: nat): (p: nat)
    ensures p >= 1
  {
    if k == 0 then 1 else 2 * Pow2(k - 1)
  }

  /** The k-th delay of a run of temporary errors, in closed form: 5ms times 2^(k-1), capped at 1s; 0 before the first. */
  function Delay(k: nat): (d: nat)
    ensures k >= 1 ==> 5 * Millisecond <= d <= Second
  {
    if k == 0 then 0
    else if 5 * Millisecond * Pow2(k - 1) > Second then Second
    else 5 * Millisecond * Pow2(k - 1)
  }

  lemma BackoffDelay(k: nat)
    ensures Backoff(Delay(k)) == Delay(k + 1)
  {
    if k > 0 {
      var p := Pow2(k - 1);
      assert Pow2(k) == 2 * p;
      assert 5 * Millisecond * Pow2(k) == 2 * (5 * Millisecond * p);
    }
  }

  /** The outcome of the accept loop over a finite run of events. */
  datatype LoopOutcome = LoopOutcome(err: Option<Error>, sleeps: seq<nat>, accepted: nat)

  /**
   * The accept loop of `RunTCPServer` from the current back-off `tempDelay`,
   * with `closed` whether the done channel is closed. Each accepted
   * connection is handed on; each failed accept first checks the done
   * channel, then sleeps and retries if the error is temporary and returns
   * it otherwise. `err == None` means the events ran out with the server
   * still accepting.
   */
  function AcceptLoop(closed: bool, events: seq<AcceptEvent>, tempDelay: nat): (o: LoopOutcome)
    ensures o.accepted <= |events| && |o.sleeps| <= |events|
    ensures closed ==> o.sleeps == []
    ensures closed ==> (o.err == None <==> forall i :: 0 <= i < |events| ==> events[i].Accepted?)
    ensures closed && o.err.Some? ==> o.err == Some(ServerClosed)
    ensures !closed ==> (o.err == None <==> forall i :: 0 <= i < |events| ==> !events[i].OtherError?)
    ensures !closed && o.err.Some? ==> exists i :: 0 <= i < |events| && events[i] == OtherError(o.err.value)
    decreases |events|
  {
    if events == [] then LoopOutcome(None, [], 0)
    else match events[0]
      case Accepted =>
        var rest := AcceptLoop(closed, events[1..], tempDelay);
        LoopOutcome(rest.err, rest.sleeps, rest.accepted + 1)
      case TemporaryError(_) =>
        if closed then LoopOutcome(Some(ServerClosed), [], 0)
        else
          var next := Backoff(tempDelay);
          var rest := AcceptLoop(closed, events[1..], next);
          LoopOutcome(rest.err, [next] + rest.sleeps, rest.accepted)
      case OtherError(e) =>
        if closed then LoopOutcome(Some(ServerClosed), [], 0) else LoopOutcome(Some(e), [], 0)
  }

  /**
   * The j-th sleep of the loop is the (j+1)-th delay of the schedule,
   * whatever the events between: accepting a connection does not reset
   * the back-off.
   */
  lemma {:induction false} SleepSchedule(closed: bool, events: seq<AcceptEvent>, k: nat, j: nat)
    requires j < |AcceptLoop(closed, events, Delay(k)).sleeps|
    ensures AcceptLoop(closed, events, Delay(k)).sleeps[j] == Delay(k + j + 1)
    decreases |events|
  {
    match events[0]
    case Accepted =>
      assert AcceptLoop(closed, events, Delay(k)).sleeps == AcceptLoop(closed, events[1..], Delay(k)).sleeps;
      SleepSchedule(closed, events[1..], k, j);
    case TemporaryError(_) =>
      if closed {
        assert false;
      }
      BackoffDelay(k);
      var rest := AcceptLoop(closed, events[1..], Delay(k + 1)).sleeps;
      assert AcceptLoop(closed, events, Delay(k)).sleeps == [Delay(k + 1)] + rest;
      if j > 0 {
        SleepSchedule(closed, events[1..], k + 1, j - 1);
      }
    case OtherError(_) =>
      assert false;
  }

  /** From a fresh start the sleeps are 5ms, 10ms, 20ms, … capped at 1s, counted over the whole run. */
  lemma SleepsFromStart(closed: bool, events: seq<AcceptEvent>)
    ensures var o := AcceptLoop(closed, events, 0);
            forall j :: 0 <= j < |o.sleeps| ==> o.sleeps[j] == Delay(j + 1)
    ensures var o := AcceptLoop(closed, events, 0);
            forall j :: 0 <= j < |o.sleeps| ==> 5 * Millisecond <= o.sleeps[j] <= Second
  {
    assert Delay(0) == 0;
    forall j | 0 <= j < |AcceptLoop(closed, events, 0).sleeps| {
      SleepSchedule(closed, events, 0, j);
    }
  }

  /** Whether an accept outcome ends the loop: any failure once the done channel is closed, otherwise a permanent error. */
  predicate Stops(closed: bool, e: AcceptEvent)
  {
    if closed then !e.Accepted? else e.OtherError?
  }

  /** The index of the first event that ends the loop, or `|events|` when none does. */
  function FirstStop(closed: bool, events: seq<AcceptEvent>): (i: nat)
    ensures i <= |events|
    ensures forall j :: 0 <= j < i ==> !Stops(closed, events[j])
    ensures i < |events| ==> Stops(closed, events[i])
    decreases |events|
  {
    if events == [] || Stops(closed, events[0]) then 0 else 1 + FirstStop(closed, events[1..])
  }

  /** How many accepts in `events` succeeded. */
  function CountAccepted(events: seq<AcceptEvent>): nat
    decreases |events|
  {
    if events == [] then 0 else (if events[0].Accepted? then 1 else 0) + CountAccepted(events[1..])
  }

  /** How many accepts in `events` failed with a temporary error. */
  function CountTemporary(events: seq<AcceptEvent>): nat
    decreases |events|
  {
    if events == [] then 0 else (if events[0].TemporaryError? then 1 else 0) + CountTemporary(events[1..])
  }

  /**
   * The loop stops at the first event that ends it: with the done channel
   * closed, the first failed accept, reported as `ErrServerClosed`; with it
   * open, the first permanent error, which is returned. Every connection
   * accepted before that point is handed on, and every temporary error
   * before it costs one sleep.
   */
  lemma {:induction false} AcceptLoopStops(closed: bool, events: seq<AcceptEvent>, tempDelay: nat)
    ensures var o := AcceptLoop(closed, events, tempDelay);
            var i := FirstStop(closed, events);
            && o.accepted == CountAccepted(events[..i])
            && |o.sleeps| == CountTemporary(events[..i])
            && (i == |events| ==> o.err == None)
            && (i < |events| ==> o.err == Some(if closed then ServerClosed else events[i].cause))
    decreases |events|
  {
    if events != [] && !Stops(closed, events[0]) {
      var i := FirstStop(closed, events);
      var next := if events[0].TemporaryError? then Backoff(tempDelay) else tempDelay;
      AcceptLoopStops(closed, events[1..], next);
      assert events[..i][1..] == events[1..][..i - 1];
    }
  }

  // ---------------------------------------------------------------------------
  // The server

  /** The channel `Stop` would close to make the accept loop return. */
  class DoneChan {
    var closed: bool

    constructor ()
      ensures !closed
    {
      closed := false;
    }
  }

  class Server {
    const username: Bytes
    const password: Bytes
    const authValidateMethod: byte
    const supportCommands: Bytes
    /** The resolved listening addresses, as text. */
    const tcpAddr: Bytes
    const udpAddr: Bytes
    const tcpDeadline: int
    const tcpTimeout: int
    const udpDeadline: int
    const udpTimeout: int
    var doneChan: DoneChan?

    constructor (username: Bytes, password: Bytes, authValidateMethod: byte, supportCommands: Bytes,
                 tcpAddr: Bytes, tcpDeadline: int, tcpTimeout: int,
                 udpAddr: Bytes, udpDeadline: int, udpTimeout: int)
      ensures this.username == username && this.password == password
      ensures this.authValidateMethod == authValidateMethod && this.supportCommands == supportCommands
      ensures this.tcpAddr == tcpAddr && this.tcpDeadline == tcpDeadline && this.tcpTimeout == tcpTimeout
      ensures this.udpAddr == udpAddr && this.udpDeadline == udpDeadline && this.udpTimeout == udpTimeout
      ensures doneChan == null
    {
      this.username := username;
      this.password := password;
      this.authValidateMethod := authValidateMethod;
      this.supportCommands := supportCommands;
      this.tcpAddr := tcpAddr;
      this.tcpDeadline := tcpDeadline;
      this.tcpTimeout := tcpTimeout;
      this.udpAddr := udpAddr;
      this.udpDeadline := udpDeadline;
      this.udpTimeout := udpTimeout;
      doneChan := null;
    }

    /**
     * `processTCPConn` as a conversation: `keepAliveOk` and `deadlineOk`
     * are the outcomes of setting the keep-alive period and the deadline,
     * `s` the bytes the client sends.
     */
    function Session(net: Net, keepAliveOk: bool, deadlineOk: bool, writable: bool, s: Bytes): (e: SessionEnd)
      ensures e.used <= |s|
      ensures e.handled.Some? ==> e.handled.value.cmd in supportCommands
      ensures e.handled.Some? ==>
                var n := ServerNegotiationExchange(authValidateMethod, username, password, writable, s);
                n.result.Ok? && SocksRequestFrom(s[n.used..]).result == Ok(e.handled.value)
      ensures tcpTimeout != 0 && !keepAliveOk ==> e == SessionEnd([], 0, None, Some(KeepAliveFailed))
      ensures (tcpTimeout == 0 || keepAliveOk) && tcpDeadline != 0 && !deadlineOk ==>
                e == SessionEnd([], 0, None, Some(DeadlineFailed))
      ensures (tcpTimeout == 0 || keepAliveOk) && (tcpDeadline == 0 || deadlineOk) ==>
                var n := ServerNegotiationExchange(authValidateMethod, username, password, writable, s);
                n.result.Err? ==> e == SessionEnd(n.sent, n.used, None, Some(n.result.error))
    ensures (tcpTimeout == 0 || keepAliveOk) && (tcpDeadline == 0 || deadlineOk) ==>
              var n := ServerNegotiationExchange(authValidateMethod, username, password, writable, s);
              (e.handled.Some? <==>
                 n.result.Ok? && SocksRequestFrom(s[n.used..]).result.Ok? &&
                 SocksRequestFrom(s[n.used..]).result.value.cmd in supportCommands)
    ensures (tcpTimeout == 0 || keepAliveOk) && (tcpDeadline == 0 || deadlineOk) ==>
              var n := ServerNegotiationExchange(authValidateMethod, username, password, writable, s);
              var r := ServerRequestExchange(supportCommands, writable, s[n.used..]);
              n.result.Ok? && r.result.Ok? ==>
                var h := Handler.TCPHandling(net, udpAddr, writable, r.result.value);
                e == SessionEnd(n.sent + h.sent, n.used + r.used, Some(r.result.value), h.err)
    {
      if tcpTimeout != 0 && !keepAliveOk then SessionEnd([], 0, None, Some(KeepAliveFailed))
      else if tcpDeadline != 0 && !deadlineOk then SessionEnd([], 0, None, Some(DeadlineFailed))
      else Conversation(net, writable, s)
    }

    /** The part of a session after the connection options are set: negotiation, request, handler. */
    function Conversation(net: Net, writable: bool, s: Bytes): (e: SessionEnd)
      ensures e.used <= |s|
      ensures e.handled.Some? ==> e.handled.value.cmd in supportCommands
      ensures e.handled.Some? ==>
                var n := ServerNegotiationExchange(authValidateMethod, username, password, writable, s);
                n.result.Ok? && SocksRequestFrom(s[n.used..]).result == Ok(e.handled.value)
      ensures var n := ServerNegotiationExchange(authValidateMethod, username, password, writable, s);
              n.result.Err? ==> e == SessionEnd(n.sent, n.used, None, Some(n.result.error))
      ensures var n := ServerNegotiationExchange(authValidateMethod, username, password, writable, s);
              n.result.Ok? ==> |e.sent| >= |n.sent| && e.sent[..|n.sent|] == n.sent && e.used >= n.used
      ensures var n := ServerNegotiationExchange(authValidateMethod, username, password, writable, s);
              e.handled.Some? <==>
                n.result.Ok? && SocksRequestFrom(s[n.used..]).result.Ok? &&
                SocksRequestFrom(s[n.used..]).result.value.cmd in supportCommands
      ensures var n := ServerNegotiationExchange(authValidateMethod, username, password, writable, s);
              var r := ServerRequestExchange(supportCommands, writable, s[n.used..]);
              n.result.Ok? && r.result.Err? ==>
                e == SessionEnd(n.sent + r.sent, n.used + r.used, None, Some(r.result.error))
      ensures var n := ServerNegotiationExchange(authValidateMethod, username, password, writable, s);
              var r := ServerRequestExchange(supportCommands, writable, s[n.used..]);
              n.result.Ok? && r.result.Ok? ==>
                var h := Handler.TCPHandling(net, udpAddr, writable, r.result.value);
                e == SessionEnd(n.sent + h.sent, n.used + r.used, Some(r.result.value), h.err)
    {
      var n := ServerNegotiationExchange(authValidateMethod, username, password, writable, s);
      if n.result.Err? then SessionEnd(n.sent, n.used, None, Some(n.result.error))
      else
        var r := RequestPhase(net, writable, s[n.used..]);
        SessionEnd(n.sent + r.sent, n.used + r.used, r.handled, r.logged)
    }

    /** The part of a session after a successful negotiation: the request, then the handler. */
    function RequestPhase(net: Net, writable: bool, t: Bytes): (e: SessionEnd)
      ensures e.used <= |t|
      ensures e.handled.Some? ==> e.handled.value.cmd in supportCommands
      ensures e.handled.Some? ==> SocksRequestFrom(t).result == Ok(e.handled.value)
      ensures var r := ServerRequestExchange(supportCommands, writable, t);
              r.result.Err? ==> e == SessionEnd(r.sent, r.used, None, Some(r.result.error))
      ensures var r := ServerRequestExchange(supportCommands, writable, t);
              r.result.Ok? ==> e.handled == Some(r.result.value) && e.used == r.used &&
                               e.logged == Handler.TCPHandling(net, udpAddr, writable, r.result.value).err
      ensures var r := ServerRequestExchange(supportCommands, writable, t);
              r.result.Ok? ==> e.sent == Handler.TCPHandling(net, udpAddr, writable, r.result.value).sent
      ensures e.handled.Some? <==> ServerRequestExchange(supportCommands, writable, t).result.Ok?
    {
      var r := ServerRequestExchange(supportCommands, writable, t);
      if r.result.Err? then SessionEnd(r.sent, r.used, None, Some(r.result.error))
      else
        var h := Handler.TCPHandling(net, udpAddr, writable, r.result.value);
        SessionEnd(r.sent + h.sent, r.used, Some(r.result.value), h.err)
    }

    /** `Server.negotiation` on the client connection. */
    method Negotiation(conn: Conn) returns (err: Option<Error>)
      requires conn.Valid()
      modifies conn`pos, conn`outgoing
      ensures conn.Valid()
      ensures var x := ServerNegotiationExchange(authValidateMethod, username, password, conn.writable, old(conn.Unread()));
              && err == ErrorOf(x.result)
              && conn.outgoing == old(conn.outgoing) + x.sent
              && conn.pos == old(conn.pos) + x.used
    {
      ghost var s := conn.Unread();
      ghost var before := conn.outgoing;
      var negotiationRequest := ParseNegotiationRequest(conn);
      if negotiationRequest.Err? {
        return Some(negotiationRequest.error);
      }

      var isEqual := Contains(negotiationRequest.value.methods, authValidateMethod);

      ghost var refused: Bytes := [];
      if !isEqual {
        var refusal := NewNegotiationReply(MethodNoAcceptableMethods);
        err := WriteNegotiationReply(refusal, conn);
        if err.Some? {
          return;
        }
        refused := NegotiationReplyBytes(refusal);
      }

      var reply := NewNegotiationReply(authValidateMethod);
      err := WriteNegotiationReply(reply, conn);
      if err.Some? {
        return;
      }
      AppendAssoc(before, refused, NegotiationReplyBytes(reply));

      if authValidateMethod == MethodUsernamePassword {
        assert conn.Unread() == s[NegotiationRequestFrom(s).used..];
        ghost var auth := ServerAuthExchange(username, password, conn.writable, conn.Unread());
        err := CheckCredentials(conn);
        AppendAssoc(before, refused + NegotiationReplyBytes(reply), auth.sent);
      }
    }

    /** The username/password step of `Server.negotiation`. */
    method CheckCredentials(conn: Conn) returns (err: Option<Error>)
      requires conn.Valid()
      modifies conn`pos, conn`outgoing
      ensures conn.Valid()
      ensures var x := ServerAuthExchange(username, password, conn.writable, old(conn.Unread()));
              && err == ErrorOf(x.result)
              && conn.outgoing == old(conn.outgoing) + x.sent
              && conn.pos == old(conn.pos) + x.used
    {
      var request := ParseUnamePasswdNegotiationRequest(conn);
      if request.Err? {
        return Some(request.error);
      }
      if !EqualFold(username, request.value.uname) || !EqualFold(password, request.value.password) {
        var failReply := NewUserPassNegotiationReply(UsernamePasswordStatusFail);
        err := WriteUserPassNegotiationReply(failReply, conn);
        if err.Some? {
          return;
        }
        return None;
      }
      var successReply := NewUserPassNegotiationReply(UsernamePasswordStatusSuccess);
      err := WriteUserPassNegotiationReply(successReply, conn);
    }

    /** `Server.parseRequest` on the client connection. */
    method ParseRequest(conn: Conn) returns (r: Result<SocksRequest>)
      requires conn.Valid()
      modifies conn`pos, conn`outgoing
      ensures conn.Valid()
      ensures var x := ServerRequestExchange(supportCommands, conn.writable, old(conn.Unread()));
              && r == x.result
              && conn.outgoing == old(conn.outgoing) + x.sent
              && conn.pos == old(conn.pos) + x.used
    {
      var request := ParseSocksRequest(conn);
      if request.Err? {
        return Err(request.error);
      }

      var isSupport := Contains(supportCommands, request.value.cmd);

      if !isSupport {
        var reply := NewSocksReply(ReplyCommandNonSupport, request.value.atyp, request.value.dstAddr, request.value.dstPort);
        var err := WriteSocksReply(reply, conn);
        if err.Some? {
          return Err(err.value);
        }
        return Err(NonSupportCommand);
      }
      r := request;
    }

    /**
     * `processTCPConn`: one client session, after which the connection is
     * closed; returns the error the source logs.
     */
    method ProcessTCPConn(net: Net, conn: Conn, keepAliveOk: bool, deadlineOk: bool) returns (logged: Option<Error>)
      requires conn.Valid()
      modifies conn
      ensures conn.Valid() && conn.closed
      ensures var e := Session(net, keepAliveOk, deadlineOk, conn.writable, old(conn.Unread()));
              && logged == e.logged
              && conn.outgoing == old(conn.outgoing) + e.sent
              && conn.pos == old(conn.pos) + e.used
    {
      logged := Serve(net, conn, keepAliveOk, deadlineOk);
      conn.Close();
    }

    /** The body of `processTCPConn` before its deferred `Close`. */
    method Serve(net: Net, conn: Conn, keepAliveOk: bool, deadlineOk: bool) returns (logged: Option<Error>)
      requires conn.Valid()
      modifies conn`pos, conn`outgoing
      ensures conn.Valid()
      ensures var e := Session(net, keepAliveOk, deadlineOk, conn.writable, old(conn.Unread()));
              && logged == e.logged
              && conn.outgoing == old(conn.outgoing) + e.sent
              && conn.pos == old(conn.pos) + e.used
    {
      if tcpTimeout != 0 && !keepAliveOk {
        return Some(KeepAliveFailed);
      }
      if tcpDeadline != 0 && !deadlineOk {
        return Some(DeadlineFailed);
      }

      logged := Converse(net, conn);
    }

    /** The steps of `processTCPConn` after the connection options are set. */
    method Converse(net: Net, conn: Conn) returns (logged: Option<Error>)
      requires conn.Valid()
      modifies conn`pos, conn`outgoing
      ensures conn.Valid()
      ensures var e := Conversation(net, conn.writable, old(conn.Unread()));
              && logged == e.logged
              && conn.outgoing == old(conn.outgoing) + e.sent
              && conn.pos == old(conn.pos) + e.used
    {
      ghost var s := conn.Unread();
      ghost var before := conn.outgoing;
      ghost var n := ServerNegotiationExchange(authValidateMethod, username, password, conn.writable, s);
      logged := Negotiation(conn);
      if logged.Some? {
        assert Conversation(net, conn.writable, s) == SessionEnd(n.sent, n.used, None, logged);
        return;
      }
      assert conn.Unread() == s[n.used..];
      ghost var r := RequestPhase(net, conn.writable, s[n.used..]);
      logged := ServeRequest(net, conn);
      assert Conversation(net, conn.writable, s) == SessionEnd(n.sent + r.sent, n.used + r.used, r.handled, r.logged);
      AppendAssoc(before, n.sent, r.sent);
    }

    /** The request and handler steps of `processTCPConn`. */
    method ServeRequest(net: Net, conn: Conn) returns (logged: Option<Error>)
      requires conn.Valid()
      modifies conn`pos, conn`outgoing
      ensures conn.Valid()
      ensures var e := RequestPhase(net, conn.writable, old(conn.Unread()));
              && logged == e.logged
              && conn.outgoing == old(conn.outgoing) + e.sent
              && conn.pos == old(conn.pos) + e.used
    {
      ghost var t := conn.Unread();
      ghost var before := conn.outgoing;
      ghost var r := ServerRequestExchange(supportCommands, conn.writable, t);
      var request := ParseRequest(conn);
      if request.Err? {
        assert RequestPhase(net, conn.writable, t) == SessionEnd(r.sent, r.used, None, Some(request.error));
        return Some(request.error);
      }
      ghost var h := Handler.TCPHandling(net, udpAddr, conn.writable, request.value);
      logged := Handler.TCPHandler(net, udpAddr, conn, request.value);
      assert RequestPhase(net, conn.writable, t) == SessionEnd(r.sent + h.sent, r.used, Some(request.value), h.err);
      AppendAssoc(before, r.sent, h.sent);
    }

    /** `getDoneChan` / `getDoneChanLocked`: the done channel, made on first use. */
    method GetDoneChan() returns (ch: DoneChan)
      modifies this`doneChan
      ensures doneChan == ch
      ensures old(doneChan) != null ==> ch == old(doneChan)
      ensures old(doneChan) == null ==> fresh(ch) && !ch.closed
    {
      if doneChan == null {
        doneChan := new DoneChan();
      }
      ch := doneChan;
    }

    /** `Stop` has an empty body: in particular it does not close the done channel. */
    method Stop()
      ensures doneChan == old(doneChan)
      ensures doneChan != null ==> doneChan.closed == old(doneChan.closed)
    {
    }

    /**
     * `RunTCPServer`: `listen` is the outcome of `ListenTCP`, `events` the
     * outcomes of successive `AcceptTCP` calls. Returns the loop's error, the
     * back-off sleeps in order, and how many connections were handed on.
     */
    method RunTCPServer(listen: Option<Error>, events: seq<AcceptEvent>)
      returns (err: Option<Error>, sleeps: seq<nat>, accepted: nat)
      modifies this`doneChan
      ensures listen.Some? ==> err == listen && sleeps == [] && accepted == 0
      ensures listen.None? ==>
                var o := AcceptLoop(old(doneChan) != null && old(doneChan).closed, events, 0);
                err == o.err && sleeps == o.sleeps && accepted == o.accepted
    {
      if listen.Some? {
        return listen, [], 0;
      }
      ghost var closed := doneChan != null && doneChan.closed;
      ghost var initial := doneChan;
      var tempDelay: nat := 0;
      sleeps := [];
      accepted := 0;
      var i := 0;
      while i < |events|
        invariant 0 <= i <= |events|
        invariant doneChan == initial || (initial == null && doneChan != null && !doneChan.closed)
        invariant var rest := AcceptLoop(closed, events[i..], tempDelay);
                  AcceptLoop(closed, events, 0) == LoopOutcome(rest.err, sleeps + rest.sleeps, accepted + rest.accepted)
      {
        assert events[i..][1..] == events[i + 1..];
        if events[i].Accepted? {
          // the session runs concurrently; see ProcessTCPConn
          accepted := accepted + 1;
        } else {
          var done := GetDoneChan();
          if done.closed {
            return Some(ServerClosed), sleeps, accepted;
          }
          if events[i].TemporaryError? {
            tempDelay := Backoff(tempDelay);
            sleeps := sleeps + [tempDelay];
          } else {
            return Some(events[i].cause), sleeps, accepted;
          }
        }
        i := i + 1;
      }
      err := None;
    }
  }

  /**
   * A session logs no error only when it handed a UDP ASSOCIATE request to
   * the handler: a CONNECT, even one whose target was reached and answered
   * with success, always ends with an error logged.
   */
  lemma {:induction false} SessionOutcome(server: Server, net: Net, keepAliveOk: bool, deadlineOk: bool,
                                          writable: bool, s: Bytes)
    ensures var e := server.Session(net, keepAliveOk, deadlineOk, writable, s);
            e.logged == None ==> e.handled.Some? && e.handled.value.cmd == CMDUDPAssociate
    ensures var e := server.Session(net, keepAliveOk, deadlineOk, writable, s);
            e.handled.Some? && e.handled.value.cmd == CMDConnect ==> e.logged.Some?
  {
    var n := ServerNegotiationExchange(server.authValidateMethod, server.username, server.password, writable, s);
    var optionsSet := (server.tcpTimeout == 0 || keepAliveOk) && (server.tcpDeadline == 0 || deadlineOk);
    if optionsSet && n.result.Ok? {
      var r := ServerRequestExchange(server.supportCommands, writable, s[n.used..]);
      if r.result.Ok? {
        Handler.TCPHandlingOutcome(net, server.udpAddr, writable, r.result.value);
      }
    }
  }

  /**
   * `NewServer`: resolves `addr` as a TCP and then as a UDP address (either
   * failure is returned), picks the method from the credentials, and
   * supports CONNECT and UDP ASSOCIATE. The `ip` argument is not used.
   */
  method NewServer(net: Net, addr: Bytes, ip: Bytes, username: Bytes, password: Bytes,
                   tcpDeadline: int, tcpTimeout: int, udpDeadline: int, udpTimeout: int)
    returns (server: Server?, err: Option<Error>)
    ensures net.resolveTCP(addr).Err? ==> server == null && err == Some(net.resolveTCP(addr).error)
    ensures net.resolveTCP(addr).Ok? && net.resolveUDP(addr).Err? ==>
              server == null && err == Some(net.resolveUDP(addr).error)
    ensures net.resolveTCP(addr).Ok? && net.resolveUDP(addr).Ok? ==>
              && err == None && server != null && fresh(server)
              && server.username == username && server.password == password
              && server.authValidateMethod == ValidateMode(username, password)
              && server.supportCommands == SupportedCommands
              && server.tcpAddr == net.resolveTCP(addr).value && server.udpAddr == net.resolveUDP(addr).value
              && server.tcpDeadline == tcpDeadline && server.tcpTimeout == tcpTimeout
              && server.udpDeadline == udpDeadline && server.udpTimeout == udpTimeout
              && server.doneChan == null
  {
    var tcpAddr := net.resolveTCP(addr);
    if tcpAddr.Err? {
      return null, Some(tcpAddr.error);
    }
    var udpAddr := net.resolveUDP(addr);
    if udpAddr.Err? {
      return null, Some(udpAddr.error);
    }
    var validateMode := MethodNoAuthRequired;
    if [] != username && [] != password {
      validateMode := MethodUsernamePassword;
    }
    server := new Server(username, password, validateMode, [CMDConnect, CMDUDPAssociate],
                         tcpAddr.value, tcpDeadline, tcpTimeout, udpAddr.value, udpDeadline, udpTimeout);
    err := None;
  }
}
