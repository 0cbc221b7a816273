/**
 * Bytes, Go strings and the error values shared by the client and the server
 * halves of the socks5 package.
 */
module Base {

  /** A Go `byte`. */
  type byte = x: int | 0 <= x < 256

  /** A Go `[]byte` or `string`: a sequence of bytes; a nil slice is the empty sequence. */
  type Bytes = seq<byte>

  datatype Option<+T> = None | Some(value: T)

  datatype Result<+T> = Ok(value: T) | Err(error: Error)

  /** The `error` a Go function returns: `nil` is `None`. */
  function ErrorOf<T>(r: Result<T>): (e: Option<Error>)
    ensures e.None? <==> r.Ok?
    ensures r.Err? ==> e == Some(r.error)
  {
    if r.Ok? then None else Some(r.error)
  }

  /**
   * Every error value the modelled code can return. The first group are the
   * package's own sentinels; the second group stands for errors produced by the
   * Go runtime and standard library.
   */
  datatype Error =
    // socks5/client.go
    | NonSupportCurrentMethod
    | NonSupportCurrentSocksProtocolVersion
    | UnameOrPasswdTooLength
    | NonSupportCurrentUnamePasswdVersion
    | UnameOrPasswdError
    | BadReply
    | RequestFail
    // socks5/server.go
    | ServerClosed
    | UnamePasswdVersion
    | BadRequest
    | NonSupportCommand
    // io.ReadFull on a stream that ends before the buffer is full
    | EOF
    | UnexpectedEOF
    // a failed Write, Dial, SetDeadline, SetKeepAlivePeriod, ListenTCP or
    // AcceptTCP, or a failed
    // address parse or resolution inside the standard library
    | WriteFailed
    | DialFailed
    | DeadlineFailed
    | KeepAliveFailed
    | ListenFailed
    | AcceptFailed
    | AddressError
}
