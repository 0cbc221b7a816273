# SOCKS5 proxy core, modelled in Dafny

This project models the `socks5` package of a Go SOCKS5 proxy. It has two halves:

- a **client** (`socks5/client.go`). It dials the proxy, negotiates an authentication method, optionally runs the username/password sub-negotiation (RFC 1929), and sends one command request (RFC 1928).
- a **server** (`socks5/server.go`, `socks5/tcp_server.go`, `socks5/handler.go`). It accepts TCP connections with a back-off on temporary accept errors. For each connection it then:
  1. negotiates the method;
  2. checks credentials;
  3. parses the command request;
  4. hands the request to the default handler, which dials or resolves the target and answers with a reply.

The packet records and constants are in `socks5/socks5.go`. The host/port splitter `ParseAddress` is in `socks5/net_utils.go`.

## Structure

Modules, one per concern:

| module | file | contents |
|---|---|---|
| `Base` | `base.dfy` | Go bytes/strings as `seq<byte>`, `Option`/`Result`, every error value the code can return. |
| `Socks5` | `socks5.dfy` | Protocol constants and packet records of `socks5.go`. |
| `Stream` | `stream.dfy` | A TCP connection as a class `Conn`: the bytes the peer sends, read through a cursor `pos`, and a log `outgoing` of every byte written. `io.ReadFull` and `Write` are methods on it; `Take` is the pure counterpart of `io.ReadFull`. |
| `GoLib` | `golib.dfy` | The standard-library calls the package relies on. Calls whose behaviour is left open (split/join host-port, `ParseIP`, dialing, resolving) are the fields of a `Net` value, so every statement holds for any behaviour of them. `To4`/`To16`, `Atoi`/`Itoa`, big-endian `uint16` and ASCII `EqualFold` are defined. |
| `NetUtils` | `net_utils.dfy` | `ParseAddress`. |
| `ClientCodec`, `ServerCodec` | `client_codec.dfy`, `server_codec.dfy` | Builders, writers and parsers of each message. Every parser is a method on `Conn` proved equal to a pure decoder over the unread bytes (`…From`). Every writer is proved to append exactly the message bytes when the connection accepts writes, and nothing otherwise (a connection accepts every write or none; see Left out). |
| `Handler` | `handler.dfy` | `DefaultHandler`. |
| `SocksClient` | `client.dfy` | Class `Client`. Its methods are proved to carry out pure conversations (`NegotiationExchange`, `RequestExchange`). |
| `SocksServer` | `server.dfy` | Class `Server`, the session (`Session`) and the accept loop (`AcceptLoop`). |
| `Interop` | `interop.dfy` | Client against server: what one side writes, decoded by the other. |

## Behaviour of the code modelled as written

Where the package's documentation (comments and design notes) and the code disagree, the model follows the code:

- **No-auth client.** A client without credentials offers the single method 0xFF ("no acceptable methods"), not 0x00. Against a no-auth server, the client takes the server's refusal byte as the agreed method and leaves the server's second reply unread (`Interop.NoAuthDesync`).
- **Refused method.** When the client does not offer the server's method, the server writes the 0xFF refusal, then writes its own method anyway, and carries on; it does not close.
- **Wrong credentials.** These are answered with STATUS 0x01, and the server's negotiation still returns no error, so the session goes on to the request phase.
- **Unknown ATYP.** An unknown ATYP in a request is a `BadRequest` with no reply, not reply code 0x08.
- **Request version error.** A wrong VER in a command request is reported as `NonSupportCurrentUnamePasswdVersion`. RSV is not checked.
- **Accept back-off.** The back-off is never reset by a successful accept: the j-th sleep of a run is always the (j+1)-th delay (`SocksServer.SleepSchedule`).
- **IPv6 in `ParseAddress`.** An IPv6 host gives ATYP 0x04 with an empty address, because the IPv4 form (nil) is the one assigned.
- **Client reply parser.**
  - It reads 16 bytes for ATYP 0x03.
  - For ATYP 0x04 it reads a length byte and that many bytes, into a variable that shadows the result, so an IPv6 reply has an empty address.
  - A domain-name reply survives only when the name is 15 bytes long (`Interop.DomainReplyRoundTrip`).
- **CONNECT.** A successful CONNECT reply is followed by a fall-through to the unsupported-command return, so every CONNECT session logs an error (`SocksServer.SessionOutcome`).
- **One empty credential.** If only one credential is set, the server silently selects no authentication; it is not treated as a configuration error.
- **Handler replies.** The handler writes its own failure replies. The session only logs the error and writes no further reply.
- **Unsupported command with a domain address.** The domain-name address of a request with an unsupported command is echoed with a second length byte (`Interop.RefusedDomainRequestReply`).
- **UDP ASSOCIATE success.** After its success reply, the handler stores the association in `Server.TCPUDPAssociate`. Nothing ever initialises that field (socks5/server.go:39), so the store dereferences nil. The handler then waits on a channel that nothing sends on. Its `return nil` is therefore never reached as the code is written. The model returns no error at that point (`Handler.TCPHandling`) and lists the gap under Left out.

## Model

| member | source | states |
|---|---|---|
| `GoLib.To4` | socks5/net_utils.go:16-19 | `To4` is the 4-byte form of an IPv4 or IPv4-mapped address and nil otherwise. |
| `GoLib.To16` | socks5/net_utils.go:20-22 | `To16` is nil exactly when the input is neither 4 nor 16 bytes long. |
| `GoLib.To4OfTo16` | socks5/net_utils.go:16-22 | An IPv4 address survives the trip through its IPv4-mapped 16-byte form. |
| `GoLib.ToUint16` | socks5/net_utils.go:31 | `uint16(i)` lies in [0, 65536) and is congruent to `i` modulo 65536. |
| `GoLib.PutUint16` | socks5/net_utils.go:30-31 | The port encoding is always 2 bytes. |
| `GoLib.Uint16` | socks5/handler.go:131 | The decoded port is a 16-bit value. |
| `GoLib.BigEndianRoundTrip` | socks5/handler.go:131 | Big-endian encoding and decoding of 16-bit values are inverse to each other, both ways. |
| `GoLib.Atoi` | socks5/net_utils.go:29 | Port text parses to an int64; empty text gives 0. |
| `GoLib.Itoa` | socks5/handler.go:131 | The decimal form of the port is non-empty and all digits. |
| `GoLib.AtoiItoa` | socks5/handler.go:131 | Formatting a port and parsing it back gives the same number. |
| `GoLib.FoldAscii` | socks5/tcp_server.go:120 | Upper-case ASCII letters fold to lower case; every other byte is unchanged. |
| `NetUtils.ParseAddress` | socks5/net_utils.go:9-33 | A split error is returned with an empty triple. Otherwise there is no error, and: ATYP 0x01 with the 4 bytes exactly when `To4` succeeds; ATYP 0x04 with an EMPTY address when only `To16` succeeds; ATYP 0x03 with a length byte (wrapping at 256) and the name otherwise. The port is 2 bytes holding `uint16(Atoi(port))`. |
| `NetUtils.ParseAddressPortRoundTrip` | socks5/net_utils.go:29-31 | Decimal port text of a 16-bit number decodes back to that number. |
| `NetUtils.ParseAddressBadPortIsZero` | socks5/net_utils.go:29-31 | Unsigned port text that is not a decimal number (a syntax error for `Atoi`) is encoded as port 0. |
| `NetUtils.ParseAddressPortOverflowIsMax` | socks5/net_utils.go:29-31 | Unsigned decimal port text beyond 64 bits is clamped by `Atoi` to the int64 maximum and encoded as port 65535 (`[0xFF, 0xFF]`). |
| `Stream.ShortRead` | socks5/tcp_server.go:168 | A short read is `EOF` when nothing is left and `ErrUnexpectedEOF` otherwise. |
| `Stream.Take` | socks5/tcp_server.go:168 | `io.ReadFull` semantics: either exactly the next `n` bytes, or a short-read error after consuming everything left. |
| `Stream.Conn.constructor` | socks5/tcp_server.go:47 | A new connection has read nothing and written nothing. |
| `Stream.Conn.ReadFull` | socks5/tcp_server.go:168 | Reading advances the cursor exactly as `Take` says and returns what `Take` returns. |
| `Stream.Conn.Write` | socks5/client.go:148 | A write appends all its bytes, or fails with nothing appended. |
| `Stream.Conn.Close` | socks5/tcp_server.go:48 | The connection is closed afterwards. |
| `ClientCodec.NewNegotiationRequest` | socks5/client.go:139-145 | Version 5 and the given methods. NMETHODS is the method count modulo 256, and the record meets its documented bounds exactly when there are 1 to 255 methods. |
| `ClientCodec.WriteNegotiationRequest` | socks5/client.go:147-164 | Appends VER NMETHODS METHODS, or reports the write error with nothing appended. |
| `ClientCodec.NegotiationReplyFrom` | socks5/client.go:167-185 | Accepts exactly a 2-byte reply whose VER is 5. A short stream is a short-read error; a wrong VER is `NonSupportCurrentSocksProtocolVersion`. |
| `ClientCodec.ParseNegotiationReply` | socks5/client.go:167-185 | Returns what `NegotiationReplyFrom` decodes from the unread bytes and consumes as much. |
| `ClientCodec.NewUsernamePasswordNegotiationRequest` | socks5/client.go:188-205 | Fails with `UnameOrPasswdTooLength` exactly when a credential is over 255 bytes; otherwise builds the record with both lengths. The record meets the documented bounds exactly when both credentials are non-empty. |
| `ClientCodec.WriteUsernamePasswordNegotiationRequest` | socks5/client.go:207-228 | Appends VER ULEN UNAME PLEN PASSWD, or nothing on a write error. |
| `ClientCodec.UserPassReplyFrom` | socks5/client.go:231-249 | Accepts exactly a 2-byte reply with VER 1; a wrong VER is `NonSupportCurrentUnamePasswdVersion`. |
| `ClientCodec.NewUsernamePasswordNegotiationReply` | socks5/client.go:231-249 | Returns what `UserPassReplyFrom` decodes and consumes as much. |
| `ClientCodec.NewSocksRequest` | socks5/client.go:252-269 | `BadRequest` exactly when the address is shorter than 2 bytes. A domain name gets a length byte (mod 256) in front; other addresses are kept. The record meets its documented bounds exactly when the port is 2 bytes. |
| `ClientCodec.WriteSocksRequest` | socks5/client.go:271-288 | Appends VER CMD RSV ATYP DST.ADDR DST.PORT, or nothing on a write error. |
| `ClientCodec.ReplyAddrFrom` | socks5/client.go:303-332 | Never consumes more than is there (its shape is characterised in `ClientCodec.SocksReplyShape`). |
| `ClientCodec.SocksReplyFrom` | socks5/client.go:291-351 | Never consumes more than is there. A reply is accepted exactly when its 4-byte header has VER 5, the address branch of its ATYP succeeds, and 2 port bytes follow the address. |
| `ClientCodec.ReadReplyAddr` | socks5/client.go:303-332 | Returns what `ReplyAddrFrom` decodes and consumes as much. |
| `ClientCodec.ParseSocksReply` | socks5/client.go:291-351 | Returns what `SocksReplyFrom` decodes and consumes as much. |
| `ClientCodec.SocksReplyShape` | socks5/client.go:291-351 | An accepted reply has VER 5, with REP/RSV/ATYP copied and ATYP one of 1, 3, 4. The port is the 2 bytes before the end of what was read. The address is the next 4 bytes for IPv4 and the next 16 bytes for ATYP 3. For IPv6 it is EMPTY after a non-zero length byte and that many bytes. |
| `ClientCodec.SocksReplyRefusals` | socks5/client.go:297-332 | A wrong VER, an unknown ATYP, and an IPv6 length byte of 0 are each refused with the stated error after the stated number of bytes. |
| `ClientCodec.IPv6ReplyDropsAddress` | socks5/client.go:315-330 | An IPv6 reply with a length byte L of at least 1, then L address bytes and a port, is accepted with an EMPTY address, the port kept, and 7 + L bytes consumed. |
| `ServerCodec.NegotiationRequestFrom` | socks5/tcp_server.go:166-191 | Accepts exactly VER 5 followed by NMETHODS and that many bytes (NMETHODS = 0 included). Each failure gives its error: short read, or a wrong version. |
| `ServerCodec.ParseNegotiationRequest` | socks5/tcp_server.go:166-191 | Returns what `NegotiationRequestFrom` decodes and consumes as much. |
| `ServerCodec.NewNegotiationReply` | socks5/tcp_server.go:194-199 | Version 5 and the given method. |
| `ServerCodec.WriteNegotiationReply` | socks5/tcp_server.go:201-209 | Appends VER METHOD, or nothing on a write error. |
| `ServerCodec.UserPassRequestFrom` | socks5/tcp_server.go:212-257 | A wrong VER is `UnamePasswdVersion`, and ULEN 0 is `BadRequest`. An accepted request meets the documented bounds and is exactly the bytes it consumed. |
| `ServerCodec.PasswordFrom` | socks5/tcp_server.go:233-245 | An accepted password is non-empty, as long as PLEN says, and exactly the bytes consumed. |
| `ServerCodec.ParseUnamePasswdNegotiationRequest` | socks5/tcp_server.go:212-257 | Returns what `UserPassRequestFrom` decodes and consumes as much. |
| `ServerCodec.ReadPassword` | socks5/tcp_server.go:233-245 | Returns what `PasswordFrom` decodes and consumes as much. |
| `ServerCodec.NewUserPassNegotiationReply` | socks5/tcp_server.go:260-265 | Version 1 and the given status. |
| `ServerCodec.WriteUserPassNegotiationReply` | socks5/tcp_server.go:267-275 | Appends VER STATUS, or nothing on a write error. |
| `ServerCodec.RequestAddrFrom` | socks5/tcp_server.go:288-321 | IPv4 reads 4 bytes and IPv6 reads 16; an unknown ATYP is `BadRequest`. A domain name is accepted exactly when a non-zero length byte and that many bytes are present, and then keeps the length byte as its first byte. |
| `ServerCodec.SocksRequestFrom` | socks5/tcp_server.go:278-340 | A wrong VER is `NonSupportCurrentUnamePasswdVersion`. An unknown ATYP is `BadRequest` after 4 bytes. A request is accepted exactly when VER is 5, the address branch of `RequestAddrFrom` accepts and two port bytes follow, whatever CMD and RSV are. An accepted request has a known ATYP with an address of its size, a 2-byte port, and is exactly the bytes it consumed. |
| `ServerCodec.ReadRequestAddr` | socks5/tcp_server.go:288-321 | Returns what `RequestAddrFrom` decodes and consumes as much. |
| `ServerCodec.ParseSocksRequest` | socks5/tcp_server.go:278-340 | Returns what `SocksRequestFrom` decodes and consumes as much. |
| `ServerCodec.NewSocksReply` | socks5/tcp_server.go:343-355 | Version 5 and RSV 0. A domain address gets a length byte (mod 256) in front. The reply meets its documented bounds exactly when the port is 2 bytes. |
| `ServerCodec.WriteSocksReply` | socks5/tcp_server.go:357-371 | Appends VER REP RSV ATYP BND.ADDR BND.PORT, or nothing on a write error. |
| `Handler.TargetPort` | socks5/handler.go:131 | The port text is non-empty decimal digits. |
| `Handler.TargetPortRoundTrip` | socks5/handler.go:121-143 | The request's port survives joining into the target address and parsing back through `ParseAddress`. |
| `Handler.FailReply` | socks5/handler.go:27 | The failure reply: REP 0x05, the request's ATYP, a zero port, and a 3-zero address (with a length byte 3 in front for a domain type). |
| `Handler.TCPHandlingOutcome` | socks5/handler.go:21-114 | CONNECT always ends with an error. Only a UDP ASSOCIATE whose target resolves and whose server address parses ends without one. Any other command writes nothing and is `NonSupportCommand`. A failed dial or resolve returns that error, and a failed `ParseAddress` returns its error; either writes the failure reply (REP 0x05, the request's ATYP, address `{0,0,0}`, port `{0,0}`). Otherwise the one reply written is REP 0x00 with the ATYP, BND.ADDR and BND.PORT that `ParseAddress` gives for the dialled connection's local address (CONNECT) or the server's UDP address (UDP ASSOCIATE). The no-error outcome of a UDP ASSOCIATE stands for the `return nil` of socks5/handler.go:111, which the code as written does not reach (see Behaviour of the code modelled as written). |
| `Handler.TCPHandler` | socks5/handler.go:21-114 | Returns the error `TCPHandling` gives and appends exactly its reply bytes. |
| `Handler.UDPHandler` | socks5/handler.go:116-118 | Every datagram is refused with `NonSupportCommand`. |
| `SocksClient.AdvertisedMethod` | socks5/client.go:79-82 | Username/password exactly when both credentials are set; 0xFF otherwise. |
| `SocksClient.NegotiationExchange` | socks5/client.go:77-117 | Succeeds exactly when the reply is VER 5 with the offered method and, for username/password, the sub-negotiation is answered with status success. The client always first writes `[5, 1, offered]`. A reply error is returned with only the greeting written and the reply's bytes read. A reply naming another method is `NonSupportCurrentMethod` after 2 bytes, with only the greeting written. For username/password the result is that of `AuthExchange` on the rest, and the greeting is followed by what `AuthExchange` writes, with 2 bytes more read than it reads. The bytes written and read on success are stated. |
| `SocksClient.AuthExchange` | socks5/client.go:101-116 | A credential over 255 bytes is `UnameOrPasswdTooLength` with nothing written or read. A refused write is `WriteFailed` with nothing written. Otherwise the credentials `[1, ULEN] + UNAME + [PLEN] + PASSWD` are written and the reply is read as `UserPassReplyFrom` reads it: a reply error is returned as is, a non-success status is `UnameOrPasswdError`, and success comes exactly when the reply is `[1, 0]`. |
| `SocksClient.RequestExchange` | socks5/client.go:120-134 | Writes the request. Succeeds exactly when the reply parses with REP success, and then returns that reply. A parse error is passed on; a non-success REP is `RequestFail`. |
| `SocksClient.Client.constructor` | socks5/client.go:46-56 | Stores the configuration, with no connection yet. |
| `SocksClient.Client.Negotiation` | socks5/client.go:59-118 | A dial error is returned. A failed deadline is `DeadlineFailed`, with nothing exchanged. Otherwise the connection holds exactly `NegotiationExchange`. |
| `SocksClient.Client.Handshake` | socks5/client.go:77-117 | The connection holds exactly `NegotiationExchange` (bytes written, bytes read, error). |
| `SocksClient.Client.Authenticate` | socks5/client.go:101-116 | The connection holds exactly `AuthExchange`. |
| `SocksClient.Client.Request` | socks5/client.go:120-134 | The connection holds exactly `RequestExchange`. Without a connection the result is a write failure. |
| `SocksClient.NewClient` | socks5/client.go:35-57 | A TCP or UDP resolution error is returned with no client. Otherwise a fresh client holds the resolved addresses and the settings. |
| `SocksServer.ValidateMode` | socks5/server.go:60-63 | Username/password exactly when both credentials are set; no authentication otherwise. |
| `SocksServer.Contains` | socks5/tcp_server.go:90-96 | The membership loop finds `x` exactly when `x` is in the list. |
| `SocksServer.AuthStatus` | socks5/tcp_server.go:120-133 | Status success exactly when both credentials match, ignoring case; failure otherwise. |
| `SocksServer.ServerAuthExchange` | socks5/tcp_server.go:113-135 | Succeeds exactly when the request parses and the reply is written, whatever the credentials. Writes `[1, status]`. |
| `SocksServer.ServerNegotiationExchange` | socks5/tcp_server.go:84-137 | A parse error is returned with nothing written; a refused write with nothing written after the greeting is read. Success exactly when the greeting parses, the reply is written and, for username/password, the credentials request parses. What is written is `[5, 0xFF]` if the server's method was not offered, then `[5, m]`, then, for username/password, what `ServerAuthExchange` writes. What is read is the greeting, plus the credentials request for username/password. For username/password the result is `ServerAuthExchange`'s, so its errors pass through unchanged. |
| `SocksServer.ServerRequestExchange` | socks5/tcp_server.go:139-161 | Accepts exactly a parsed request with a supported command, writing nothing. An unsupported command is answered with REP 0x07 echoing the address and port, and refused. |
| `SocksServer.Backoff` | socks5/tcp_server.go:28-35 | The first delay is 5ms; each next one doubles; a doubling beyond 1s gives 1s. |
| `SocksServer.Delay` | socks5/tcp_server.go:28-35 | The k-th delay lies between 5ms and 1s. |
| `SocksServer.BackoffDelay` | socks5/tcp_server.go:28-35 | One back-off step takes the k-th delay to the (k+1)-th. |
| `SocksServer.AcceptLoop` | socks5/tcp_server.go:18-43 | A closed done channel gives no sleeps, and the loop ends with `ErrServerClosed` exactly when some accept failed. An open channel ends with an error exactly when some accept failed permanently, and the error is one of those. |
| `SocksServer.FirstStop` | socks5/tcp_server.go:20-40 | The index of the first accept outcome that ends the loop (any failure when the done channel is closed, a permanent error when it is open), or the end when there is none. |
| `SocksServer.AcceptLoopStops` | socks5/tcp_server.go:18-43 | The loop stops at `FirstStop`: with `ErrServerClosed` when the done channel is closed, and with the first permanent error itself when it is open. The connections handed on and the sleeps taken are exactly the accepts and the temporary errors before that point. |
| `SocksServer.SleepSchedule` | socks5/tcp_server.go:18-43 | The j-th sleep is the (k+j+1)-th delay whatever accepts come between: the back-off is never reset. |
| `SocksServer.SleepsFromStart` | socks5/tcp_server.go:18-43 | From a fresh start the sleeps are 5ms, 10ms, 20ms, … each between 5ms and 1s. |
| `SocksServer.DoneChan.constructor` | socks5/server.go:105-110 | A new done channel is open. |
| `SocksServer.Server.constructor` | socks5/server.go:65-79 | Stores the configuration, with no done channel. |
| `SocksServer.Server.Session` | socks5/tcp_server.go:47-82 | A failed keep-alive or deadline setting ends the session with that error and nothing exchanged; a failed negotiation ends it with the negotiation's error, bytes and reads. Never reads more than was sent. Once the options are set, a request reaches the handler exactly when the negotiation succeeds and the bytes after it decode to a request with a supported command; the session then writes the negotiation's bytes followed by the handler's reply, and logs the handler's error. |
| `SocksServer.Server.Conversation` | socks5/tcp_server.go:64-81 | A failed negotiation ends the session with its error, and nothing more is written or read. A request reaches the handler exactly when the negotiation succeeds and the bytes after it decode to a request with a supported command. A request that fails to parse or is refused ends the session with its error after the negotiation's and the request exchange's bytes. A handled request leaves the negotiation's bytes followed by the handler's reply on the wire, and the handler's error logged. |
| `SocksServer.Server.RequestPhase` | socks5/tcp_server.go:71-81 | A request that fails to parse or is refused ends the session with that error and that exchange, and never reaches the handler. Otherwise the request is handed to the handler: what the handler writes is exactly what is written, and the handler's error is the one logged. |
| `SocksServer.Server.Negotiation` | socks5/tcp_server.go:84-137 | The connection holds exactly `ServerNegotiationExchange`. |
| `SocksServer.Server.CheckCredentials` | socks5/tcp_server.go:113-135 | The connection holds exactly `ServerAuthExchange`. |
| `SocksServer.Server.ParseRequest` | socks5/tcp_server.go:139-161 | The connection holds exactly `ServerRequestExchange`. |
| `SocksServer.Server.ProcessTCPConn` | socks5/tcp_server.go:47-82 | The connection holds exactly `Session` and is closed afterwards; the returned error is the one logged. |
| `SocksServer.Server.Serve` | socks5/tcp_server.go:50-81 | The connection holds exactly `Session`. |
| `SocksServer.Server.Converse` | socks5/tcp_server.go:64-81 | The connection holds exactly `Conversation`. |
| `SocksServer.Server.ServeRequest` | socks5/tcp_server.go:71-81 | The connection holds exactly `RequestPhase`. |
| `SocksServer.Server.GetDoneChan` | socks5/server.go:99-110 | Returns the existing done channel, or makes an open one on first use. |
| `SocksServer.Server.Stop` | socks5/server.go:95-97 | Stop changes nothing: the done channel is not closed. |
| `SocksServer.Server.RunTCPServer` | socks5/tcp_server.go:11-45 | A listen error is returned. Otherwise the error, the sleeps and the accept count are those of `AcceptLoop` from a zero delay. |
| `SocksServer.SessionOutcome` | socks5/tcp_server.go:47-82 | A session logs no error only when a UDP ASSOCIATE reached the handler; a CONNECT always ends with an error logged. The UDP ASSOCIATE case stands for socks5/handler.go:111, which the code as written does not reach (see Behaviour of the code modelled as written). |
| `SocksServer.NewServer` | socks5/server.go:44-80 | A TCP or UDP resolution error is returned with no server. Otherwise a fresh server holds: the credentials; the method `ValidateMode` picks; CONNECT and UDP ASSOCIATE as supported commands; the resolved addresses; the settings. |
| `Interop.NegotiationRequestRoundTrip` | socks5/tcp_server.go:166-191 | A greeting the client builds is read back whole by the server, whatever follows. |
| `Interop.NegotiationReplyRoundTrip` | socks5/client.go:167-185 | A method choice the server builds is read back by the client. |
| `Interop.UserPassRequestRoundTrip` | socks5/tcp_server.go:212-257 | Credentials the client sends are read back by the server exactly when both are non-empty; an empty one is `BadRequest`. |
| `Interop.UserPassReplyRoundTrip` | socks5/client.go:231-249 | A status the server builds is read back by the client. |
| `Interop.SocksRequestRoundTrip` | socks5/tcp_server.go:278-340 | An IPv4 or IPv6 request the client builds is read back whole by the server. |
| `Interop.DomainRequestRoundTrip` | socks5/tcp_server.go:278-340 | A domain-name request is read back by the server exactly when the name fits in 255 bytes. |
| `Interop.DomainRequestTarget` | socks5/handler.go:123-129 | The handler targets exactly the domain name the client asked for, without its length byte. |
| `Interop.IPv4ReplyRoundTrip` | socks5/client.go:291-351 | An IPv4 reply the server builds is read back whole by the client. |
| `Interop.DomainReplyRoundTrip` | socks5/client.go:303-313 | A domain-name reply is read back by the client exactly when the name is 15 bytes long. |
| `Interop.RefusedDomainRequestReply` | socks5/tcp_server.go:153-159 | Refusing an unsupported domain-name request echoes the address with a second length byte in front. |
| `Interop.AuthenticatedHandshake` | socks5/tcp_server.go:113-135 | The server reads the whole greeting plus credentials and answers `[5, 2, 1, status]`. On those bytes the client succeeds exactly when the credentials match, and fails with `UnameOrPasswdError` otherwise. |
| `Interop.NoAuthDesync` | socks5/client.go:79-99 | A no-credential client against a no-auth server: the server answers `[5, 0xFF, 5, 0]`; the client accepts after 2 bytes, leaving `[5, 0]` unread. |
| `Interop.CredentialsAgainstNoAuthServer` | socks5/client.go:97-99 | A client with credentials against a no-auth server fails with `NonSupportCurrentMethod` before sending them. |

## Left out

- Relay: the byte relay goroutines after a successful CONNECT (socks5/handler.go:48-85) are not modelled; they are concurrent I/O loops.
- UDP ASSOCIATE: after the success reply of a UDP ASSOCIATE the model returns no error in place of socks5/handler.go:108-110. There the code stores a channel in `Server.TCPUDPAssociate`, which is never initialised (a nil-pointer panic that ends the server), and then waits on that channel, which nothing sends on. The no-error outcome therefore stands for socks5/handler.go:111, which the code as written does not reach.
- Network and clock: `Dial`, `ResolveTCPAddr`, `ResolveUDPAddr`, `SplitHostPort`, `JoinHostPort`, `ParseIP`, and `IP.String` are fields of `GoLib.Net`, left unspecified. The outcomes of `SetKeepAlivePeriod`, `SetDeadline`, `ListenTCP`, and `AcceptTCP` are parameters. `time.Sleep` becomes the returned list of sleeps.
- GoLib.EqualFold: restricted to ASCII case folding of byte strings of equal length. Go's `strings.EqualFold` compares runes: it also folds non-ASCII letters, so it can equate strings of different byte lengths (the Kelvin sign U+212A and "k"), and it treats any two invalid UTF-8 bytes as equal ("\x80" and "\x81"). The credential check of the username/password step uses it.
- Stream.Conn.Write: whether writes succeed is fixed when the connection is built, so every write on a connection succeeds or every one fails. A write that fails after earlier writes succeeded is not modelled, and neither is a single write that sends only part of its bytes.
- ClientCodec.WriteNegotiationRequest: the source sends the greeting in three writes; a failure after the first or second, which leaves part of the greeting on the wire, is not modelled (see `Stream.Conn.Write`).
- ClientCodec.WriteUsernamePasswordNegotiationRequest: the source sends the credentials in four writes; a failure part-way, which leaves part of them on the wire, is not modelled.
- ClientCodec.WriteSocksRequest: the source sends the request in three writes; a failure part-way is not modelled.
- ServerCodec.WriteSocksReply: the source sends the reply in three writes; a failure part-way is not modelled.
- SocksServer.Server.Negotiation: the refusal and the method reply are two separate writes; a failure of the second after the first succeeded is not modelled.
- Stream.Conn.ReadFull: a read fails only at the end of the input (`EOF` or `ErrUnexpectedEOF`). A read that runs into the deadline set by `processTCPConn` or `Client.Negotiation`, and returns a timeout error, is not modelled.
- `Server.Run`, `RunUDPServer` and socks5/socks5_server.go are not part of this model (UDP relay server).
- Logging: `log.Println` calls are not modelled; the logged error is the session's result.
- main/ and utils/ (command-line entry points and hashing) are not part of this model.
- Locking: the mutex around `getDoneChan` is not modelled (no concurrency).
- `Handler` interface: the handler is always the default handler; the `Handler` interface is not modelled.
- Server fields: `TCPListen`, `UDPConn`, `Handler` and `TCPUDPAssociate` are not modelled.
- Reply codes: `ReplySuccess`, `ReplyRemoteAddrConnFail` and `ReplyCommandNonSupport` are declared outside the modelled files. The values used are those of section 6 of RFC 1928.
- SocksServer.Server.RunTCPServer: the source loops forever; the model consumes a finite list of accept outcomes and returns no error when they run out. An accepted connection is only counted; the session it would start is modelled separately by `Server.ProcessTCPConn` and `Server.Session`.
- SocksServer.NewServer: the unused `ip` argument is accepted and ignored, as in the source.
- SocksClient.Client.Negotiation: the client sets the keep-alive period but ignores its error, so the model has no input for that outcome.
- SocksClient.Client.Request: calling it before `Negotiation` would make the source write on a nil connection and panic; the model returns a write failure instead.
- ClientCodec.ReplyAddrFrom: its own contract only bounds what it consumes. Its behaviour is stated for whole replies: acceptance in `ClientCodec.SocksReplyFrom`, the accepted shape in `ClientCodec.SocksReplyShape` and `ClientCodec.IPv6ReplyDropsAddress`, and the refusals in `ClientCodec.SocksReplyRefusals`.
- ClientCodec.SocksReplyFrom: its own contract bounds what it consumes and says exactly when a reply is accepted, in terms of `ReplyAddrFrom`. What an accepted reply is made of is stated in `ClientCodec.SocksReplyShape` and `ClientCodec.IPv6ReplyDropsAddress`, and the refusals with their errors in `ClientCodec.SocksReplyRefusals`.
- Integer widths: the timeout and deadline settings are unbounded integers; they are only compared with zero.
