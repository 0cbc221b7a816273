/**
 * The parts of Go's standard library the socks5 package leans on.
 *
 * `net.IP.To4`/`To16`, `strconv.Atoi`/`Itoa`, `encoding/binary.BigEndian`
 * and `strings.EqualFold` are given definitions here. Name resolution,
 * address splitting and joining, and dialing are not: they are the fields
 * of `Net`, so every statement about the package holds for any behaviour of
 * those calls.
 */
module GoLib {
  import opened Base

  /** Standard-library calls whose behaviour the model leaves open. */
  datatype Net = Net(
    /** `net.SplitHostPort(address)`: host and port text, or an error. */
    splitHostPort: Bytes -> Result<(Bytes, Bytes)>,
    /** `net.ParseIP(text)`: the address bytes, or nil (`[]`) when the text is no IP literal. */
    parseIP: Bytes -> Bytes,
    /** `net.IP(b).String()`. */
    ipString: Bytes -> Bytes,
    /** `net.JoinHostPort(host, port)`. */
    joinHostPort: (Bytes, Bytes) -> Bytes,
    /** `net.Dial("tcp", address)`: the text of the new connection's local address, or an error. */
    dialTCP: Bytes -> Result<Bytes>,
    /** `net.ResolveTCPAddr("tcp", address)`: the resolved address as text, or an error. */
    resolveTCP: Bytes -> Result<Bytes>,
    /** `net.ResolveUDPAddr("udp", address)`: the resolved address as text, or an error. */
    resolveUDP: Bytes -> Result<Bytes>)

  // ---------------------------------------------------------------------------
  // net.IP

  const IPv4Len := 4
  const IPv6Len := 16

  /** The 12-byte prefix of an IPv4-mapped IPv6 address. */
  const V4InV6Prefix: Bytes := [0, 0, 0, 0, 0, 0, 0, 0, 0, 0, 0xFF, 0xFF]

  /** `ip.To4()`: the 4-byte form of an IPv4 or IPv4-mapped address, nil otherwise. */
  function To4(ip: Bytes): (r: Bytes)
    ensures r == [] || |r| == IPv4Len
    ensures |ip| == IPv4Len ==> r == ip
    ensures |ip| == IPv6Len && ip[..12] == V4InV6Prefix ==> r == ip[12..]
    ensures |ip| != IPv4Len && (|ip| != IPv6Len || ip[..12] != V4InV6Prefix) ==> r == []
  {
    if |ip| == IPv4Len then ip
    else if |ip| == IPv6Len && ip[..12] == V4InV6Prefix then ip[12..16]
    else []
  }

  /** `ip.To16()`: the 16-byte form of any IP address, nil otherwise. */
  function To16(ip: Bytes): (r: Bytes)
    ensures r == [] || |r| == IPv6Len
    ensures r == [] <==> |ip| != IPv4Len && |ip| != IPv6Len
  {
    if |ip| == IPv4Len then V4InV6Prefix + ip
    else if |ip| == IPv6Len then ip
    else []
  }

  /** An IPv4 address survives the trip through its IPv4-mapped 16-byte form. */
  lemma To4OfTo16(ip: Bytes)
    requires |ip| == IPv4Len
    ensures To16(ip) != [] && To4(To16(ip)) == ip
  {
    assert To16(ip)[..12] == V4InV6Prefix;
    assert To16(ip)[12..] == ip;
  }

  // ---------------------------------------------------------------------------
  // encoding/binary.BigEndian and integer conversions

  /** Go's `uint16(i)` conversion of an `int`: the low 16 bits. */
  function ToUint16(i: int): (u: int)
    ensures 0 <= u < 0x1_0000
    ensures (u - i) % 0x1_0000 == 0
  {
    i % 0x1_0000
  }

  /** `binary.BigEndian.PutUint16` into a fresh 2-byte slice. */
  function PutUint16(v: int): (b: Bytes)
    requires 0 <= v < 0x1_0000
    ensures |b| == 2
  {
    [v / 0x100, v % 0x100]
  }

  /** `binary.BigEndian.Uint16(b)`: the big-endian value of the first two bytes (panics on fewer). */
  function Uint16(b: Bytes): (v: int)
    requires |b| >= 2
    ensures 0 <= v < 0x1_0000
  {
    (b[0] as int) * 0x100 + b[1] as int
  }

  /** Big-endian encoding and decoding of 16-bit values are inverse to each other. */
  lemma BigEndianRoundTrip(v: int, b: Bytes)
    requires 0 <= v < 0x1_0000 && |b| == 2
    ensures Uint16(PutUint16(v)) == v
    ensures PutUint16(Uint16(b)) == b
  {
  }

  // ---------------------------------------------------------------------------
  // strconv

  const MaxUint64: int := 0xFFFF_FFFF_FFFF_FFFF
  const MaxInt64: int := 0x7FFF_FFFF_FFFF_FFFF
  const MinInt64: int := -0x8000_0000_0000_0000

  const CharZero: byte := 48
  const CharPlus: byte := 43
  const CharMinus: byte := 45

  predicate IsDigit(c: byte)
  {
    CharZero <= c <= CharZero + 9
  }

  /** Outcome of the digit loop of `strconv.ParseUint(s, 10, 64)`. */
  datatype UintScan = Value(n: nat) | SyntaxError | RangeError

  /**
   * The digit loop of `strconv.ParseUint` in base 10, with `acc` the value of
   * the digits already read: a non-digit is a syntax error, a value above
   * the 64-bit maximum a range error, whichever comes first from the left.
   */
  function ScanDecimal(s: Bytes, acc: nat): UintScan
    decreases |s|
  {
    if s == [] then Value(acc)
    else if !IsDigit(s[0]) then SyntaxError
    else if acc * 10 + (s[0] - CharZero) > MaxUint64 then RangeError
    else ScanDecimal(s[1..], acc * 10 + (s[0] - CharZero))
  }

  /** One more character through the digit loop. */
  function ScanStep(r: UintScan, c: byte): UintScan
  {
    match r
    case Value(n) =>
      if !IsDigit(c) then SyntaxError
      else if n * 10 + (c - CharZero) > MaxUint64 then RangeError
      else Value(n * 10 + (c - CharZero))
    case _ => r
  }

  /** The digit loop read from the left, taken apart at its last character. */
  lemma {:induction false} ScanDecimalSnoc(s: Bytes, c: byte, acc: nat)
    ensures ScanDecimal(s + [c], acc) == ScanStep(ScanDecimal(s, acc), c)
    decreases |s|
  {
    if s == [] {
      assert [c][1..] == [];
    } else {
      assert (s + [c])[0] == s[0];
      assert (s + [c])[1..] == s[1..] + [c];
      if IsDigit(s[0]) && acc * 10 + (s[0] - CharZero) <= MaxUint64 {
        ScanDecimalSnoc(s[1..], c, acc * 10 + (s[0] - CharZero));
      }
    }
  }

  /**
   * `strconv.Atoi(s)` as the package uses it, with the error dropped: an
   * optional sign and decimal digits give their value, clamped to the int64
   * range on overflow; any other text gives 0.
   */
  function Atoi(s: Bytes): (n: int)
    ensures MinInt64 <= n <= MaxInt64
    ensures s == [] ==> n == 0
  {
    if |s| == 0 then 0
    else
      var negative := s[0] == CharMinus;
      var digits := if s[0] == CharPlus || s[0] == CharMinus then s[1..] else s;
      if |digits| == 0 then 0
      else match ScanDecimal(digits, 0)
        case SyntaxError => 0
        case RangeError => if negative then MinInt64 else MaxInt64
        case Value(u) =>
          if negative then (if u > -MinInt64 then MinInt64 else -(u as int))
          else (if u > MaxInt64 then MaxInt64 else u)
  }

  /** `strconv.Itoa(n)` for the non-negative values the package formats. */
  function Itoa(n: nat): (s: Bytes)
    ensures 1 <= |s|
    ensures forall i :: 0 <= i < |s| ==> IsDigit(s[i])
    decreases n
  {
    if n < 10 then [CharZero + n] else Itoa(n / 10) + [CharZero + n % 10]
  }

  lemma {:induction false} ScanItoa(n: nat)
    requires n <= MaxUint64
    ensures ScanDecimal(Itoa(n), 0) == Value(n)
    decreases n
  {
    if n < 10 {
      assert Itoa(n)[1..] == [];
    } else {
      ScanItoa(n / 10);
      ScanDecimalSnoc(Itoa(n / 10), CharZero + n % 10, 0);
    }
  }

  /** Formatting a non-negative int64 and parsing it back gives the same number. */
  lemma AtoiItoa(n: nat)
    requires n <= MaxInt64
    ensures Atoi(Itoa(n)) == n
  {
    ScanItoa(n);
    assert IsDigit(Itoa(n)[0]);
  }

  // ---------------------------------------------------------------------------
  // strings.EqualFold

  /** ASCII simple case folding: upper-case letters map to lower case. */
  function FoldAscii(c: byte): (f: byte)
    ensures 65 <= c <= 90 ==> f == c + 32
    ensures !(65 <= c <= 90) ==> f == c
  {
    if 65 <= c <= 90 then c + 32 else c
  }

  /** `strings.EqualFold(a, b)`, restricted to ASCII case folding. */
  predicate EqualFold(a: Bytes, b: Bytes)
  {
    |a| == |b| && forall i :: 0 <= i < |a| ==> FoldAscii(a[i]) == FoldAscii(b[i])
  }
}
