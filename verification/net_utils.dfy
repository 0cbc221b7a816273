/** `ParseAddress`: a `host:port` text turned into the SOCKS address triple. */
module NetUtils {
  import opened Base
  import opened Socks5
  import opened GoLib

  /** The four results of `ParseAddress`: ATYP, ADDR, PORT and the error. */
  datatype ParsedAddress = ParsedAddress(addrType: byte, addr: Bytes, port: Bytes, err: Option<Error>)

  /**
   * ParseAddress splits `address` into host and port. A host that is an
   * IPv4 literal (IPv4-mapped included) gives ATYP 0x01 and its 4 bytes; any
   * other IP literal gives ATYP 0x04, but the address assigned is the nil
   * IPv4 form, so ADDR is empty; anything else is a domain name, given as a
   * length byte (wrapping at 256) followed by the name. PORT is always the
   * big-endian `uint16` of the port text's `Atoi` value.
   */
  function ParseAddress(net: Net, address: Bytes): (r: ParsedAddress)
    ensures net.splitHostPort(address).Err? ==>
              r == ParsedAddress(0, [], [], Some(net.splitHostPort(address).error))
    ensures net.splitHostPort(address).Ok? ==>
              var (host, portText) := net.splitHostPort(address).value;
              var ip := net.parseIP(host);
              && r.err == None
              && (r.addrType == ATYPIPv4 <==> To4(ip) != [])
              && (r.addrType == ATYPIPv6 <==> To4(ip) == [] && To16(ip) != [])
              && (r.addrType == ATYPDomain <==> To4(ip) == [] && To16(ip) == [])
              && (r.addrType == ATYPIPv4 ==> r.addr == To4(ip) && |r.addr| == 4)
              && (r.addrType == ATYPIPv6 ==> r.addr == [])
              && (r.addrType == ATYPDomain ==> r.addr == [|host| % 256] + host)
              && |r.port| == 2
              && Uint16(r.port) == ToUint16(Atoi(portText))
  {
    match net.splitHostPort(address)
    case Err(e) => ParsedAddress(0, [], [], Some(e))
    case Ok((host, portText)) =>
      var ip := net.parseIP(host);
      var ipv4 := To4(ip);
      var port := PutUint16(ToUint16(Atoi(portText)));
      if ipv4 != [] then ParsedAddress(ATYPIPv4, ipv4, port, None)
      else if To16(ip) != [] then ParsedAddress(ATYPIPv6, ipv4, port, None)
      else ParsedAddress(ATYPDomain, [|host| % 256] + host, port, None)
  }

  /**
   * For port text that is the decimal form of a 16-bit number, the PORT
   * bytes decode back, as the handler decodes them, to that number.
   */
  lemma ParseAddressPortRoundTrip(net: Net, address: Bytes, n: nat)
    requires n < 0x1_0000
    requires net.splitHostPort(address).Ok? && net.splitHostPort(address).value.1 == Itoa(n)
    ensures ParseAddress(net, address).err == None
    ensures Uint16(ParseAddress(net, address).port) == n
  {
    AtoiItoa(n);
  }

  /** Unsigned port text that is not a decimal number is encoded as port 0. */
  lemma ParseAddressBadPortIsZero(net: Net, address: Bytes)
    requires net.splitHostPort(address).Ok?
    requires var portText := net.splitHostPort(address).value.1;
             |portText| > 0 && ScanDecimal(portText, 0) == SyntaxError &&
             portText[0] != CharPlus && portText[0] != CharMinus
    ensures ParseAddress(net, address).port == [0, 0]
  {
  }

  /**
   * Unsigned decimal port text too large for 64 bits is clamped by `Atoi`
   * to the int64 maximum, whose low 16 bits encode port 65535.
   */
  lemma ParseAddressPortOverflowIsMax(net: Net, address: Bytes)
    requires net.splitHostPort(address).Ok?
    requires var portText := net.splitHostPort(address).value.1;
             |portText| > 0 && ScanDecimal(portText, 0) == RangeError &&
             portText[0] != CharPlus && portText[0] != CharMinus
    ensures ParseAddress(net, address).port == [0xFF, 0xFF]
  {
  }
}
