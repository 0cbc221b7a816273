/**
 * A TCP connection seen as two byte streams: the bytes the peer sends, read
 * in order through a cursor, and the log of everything written so far.
 */
module Stream {
  import opened Base

  /** What a decoder produced from the front of a byte stream, and how many bytes it consumed. */
  datatype Read<+T> = Read(result: Result<T>, used: nat)

  /** One side of a conversation: its result, the bytes it wrote and the bytes it consumed. */
  datatype Exchange<+T> = Exchange(result: Result<T>, sent: Bytes, used: nat)

  /** The error `io.ReadFull` reports when only `available` bytes are left and more were asked for. */
  function ShortRead(available: nat): (e: Error)
    ensures e == EOF <==> available == 0
    ensures e.EOF? || e.UnexpectedEOF?
  {
    if available == 0 then EOF else UnexpectedEOF
  }

  /** The pure counterpart of `io.ReadFull`: the first `n` bytes, or a short-read error after consuming everything. */
  function Take(s: Bytes, n: nat): (p: Read<Bytes>)
    ensures p.used <= |s|
    ensures p.result.Ok? <==> n <= |s|
    ensures p.result.Ok? ==> p.used == n && |p.result.value| == n && p.result.value == s[..n]
    ensures p.result.Err? ==> p.used == |s| && p.result.error == ShortRead(|s|)
  {
    if n <= |s| then Read(Ok(s[..n]), n) else Read(Err(ShortRead(|s|)), |s|)
  }

  /** Writing `a`, then `b`, then `c` leaves the same log as writing `a` and then `b + c`. */
  lemma AppendAssoc(a: Bytes, b: Bytes, c: Bytes)
    ensures (a + b) + c == a + (b + c)
  {
  }

  class Conn {
    /** Every byte the peer sends on this connection, in order. */
    const incoming: Bytes
    /** When false, every `Write` fails and nothing reaches the wire. */
    const writable: bool
    /** Number of incoming bytes consumed so far. */
    var pos: nat
    /** Every byte written so far, in order. */
    var outgoing: Bytes
    var closed: bool

    ghost predicate Valid()
      reads this
    {
      pos <= |incoming|
    }

    /** The bytes not yet read. */
    function Unread(): (u: Bytes)
      reads this
      requires Valid()
      ensures |u| == |incoming| - pos
    {
      incoming[pos..]
    }

    constructor (incoming: Bytes, writable: bool)
      ensures Valid()
      ensures this.incoming == incoming && this.writable == writable
      ensures pos == 0 && outgoing == [] && !closed
    {
      this.incoming := incoming;
      this.writable := writable;
      pos := 0;
      outgoing := [];
      closed := false;
    }

    /**
     * `io.ReadFull(conn, buf)` with `len(buf) == n`: either the next `n` bytes,
     * or, when fewer are left, an error after consuming all that is left.
     */
    method ReadFull(n: nat) returns (r: Result<Bytes>)
      requires Valid()
      modifies this`pos
      ensures Valid()
      ensures r == Take(old(Unread()), n).result
      ensures pos == old(pos) + Take(old(Unread()), n).used
      ensures Unread() == old(Unread())[Take(old(Unread()), n).used..]
    {
      if pos + n <= |incoming| {
        assert incoming[pos..pos + n] == Unread()[..n];
        r := Ok(incoming[pos..pos + n]);
        pos := pos + n;
      } else {
        r := Err(ShortRead(|incoming| - pos));
        pos := |incoming|;
      }
    }

    /** `conn.Write(b)`: all of `b` is sent, or the write fails and nothing is sent. */
    method Write(b: Bytes) returns (err: Option<Error>)
      modifies this`outgoing
      ensures writable ==> err == None && outgoing == old(outgoing) + b
      ensures !writable ==> err == Some(WriteFailed) && outgoing == old(outgoing)
    {
      if writable {
        outgoing := outgoing + b;
        err := None;
      } else {
        err := Some(WriteFailed);
      }
    }

    method Close()
      modifies this`closed
      ensures closed
    {
      closed := true;
    }
  }
}
