/**
 * Parsing of SDF flow descriptions (IPFilterRule, RFC 6733 section 4.3.1, in the subset TS 29.244
 * section 8.2.5 uses).  The regular expression of the original separates its fields by single
 * spaces and no field may contain one, so it is modelled by splitting at spaces.
 */
module SdfParser {
  import opened Base

  datatype IpWMask = IpWMask(kind: nat, ip: seq<Byte>, mask: seq<Byte>)  // kind 0: any, 1: ip4, 2: ip6

  datatype PortRange = PortRange(lower: nat, upper: nat)

  datatype SdfFilter = SdfFilter(protocol: nat, src: IpWMask, srcPorts: PortRange, dst: IpWMask, dstPorts: PortRange)

  const ANY_ADDRESS := IpWMask(0, [], [])
  const ALL_PORTS := PortRange(0, 65535)

  // ---------------------------------------------------------------- text

  function IndexOf(s: string, c: char): (i: nat)
    ensures i <= |s| && c !in s[..i] && (i < |s| ==> s[i] == c)
  {
    if s == [] || s[0] == c then 0 else 1 + IndexOf(s[1..], c)
  }

  function Split(s: string, c: char): (parts: seq<string>)
    ensures parts != []
    decreases |s|
  {
    var i := IndexOf(s, c);
    if i == |s| then [s] else [s[..i]] + Split(s[i + 1..], c)
  }

  function Join(parts: seq<string>, c: char): string
    requires parts != []
  {
    if |parts| == 1 then parts[0] else parts[0] + [c] + Join(parts[1..], c)
  }

  predicate IsDigit(c: char) { '0' <= c <= '9' }

  predicate IsHex(c: char) { IsDigit(c) || 'a' <= c <= 'f' || 'A' <= c <= 'F' }

  /** The class \d+ of the regular expression. */
  predicate IsNumber(s: string) {
    s != [] && forall c :: c in s ==> IsDigit(c)
  }

  function DigitValue(c: char): nat
    requires IsDigit(c)
  {
    (c - '0') as int
  }

  function NumberValue(s: string): nat
    requires forall c :: c in s ==> IsDigit(c)
  {
    if s == [] then 0 else 10 * NumberValue(s[..|s| - 1]) + DigitValue(s[|s| - 1])
  }

  /** strconv.ParseUint(s, 10, 64). */
  function ParseUint(s: string): Result<nat> {
    if IsNumber(s) && NumberValue(s) < 0x1_0000_0000_0000_0000 then Ok(NumberValue(s)) else Err
  }

  // ---------------------------------------------------------------- addresses

  /** One decimal field of a dotted quad: no leading zero, at most 255. */
  function ParseOctet(s: string): Result<Byte> {
    if IsNumber(s) && (|s| == 1 || s[0] != '0') && NumberValue(s) <= 255 then Ok(NumberValue(s)) else Err
  }

  function ParseIp4(s: string): Result<seq<Byte>> {
    var parts := Split(s, '.');
    if |parts| != 4 then Err
    else
      match (ParseOctet(parts[0]), ParseOctet(parts[1]), ParseOctet(parts[2]), ParseOctet(parts[3]))
      case (Ok(a), Ok(b), Ok(c), Ok(d)) => Ok([a, b, c, d])
      case _ => Err
  }

  function HexValue(c: char): nat
    requires IsHex(c)
  {
    if IsDigit(c) then (c - '0') as int
    else if 'a' <= c <= 'f' then (c - 'a') as int + 10
    else (c - 'A') as int + 10
  }

  function HexPrefix(s: string): (n: nat)
    ensures n <= |s| && forall i :: 0 <= i < n ==> IsHex(s[i])
  {
    if s == [] || !IsHex(s[0]) then 0 else 1 + HexPrefix(s[1..])
  }

  function HexNumber(s: string): nat
    requires forall i :: 0 <= i < |s| ==> IsHex(s[i])
  {
    if s == [] then 0 else 16 * HexNumber(s[..|s| - 1]) + HexValue(s[|s| - 1])
  }

  /**
   * The groups of an IPv6 address: bytes parsed so far, and where "::" stood (None if nowhere).
   * A group has one to four hexadecimal digits; at most one "::" may appear.
   */
  function ParseGroups(s: string, bytes: seq<Byte>, ellipsis: Option<nat>): Result<(seq<Byte>, Option<nat>)>
    decreases |s|
  {
    if |bytes| >= 16 then (if s == [] then Ok((bytes, ellipsis)) else Err)
    else
      var n := HexPrefix(s);
      if n == 0 || n > 4 then Err
      else
        var v := HexNumber(s[..n]);
        var more := bytes + [v / 256 % 256, v % 256];
        var rest := s[n..];
        if rest == [] then Ok((more, ellipsis))
        else if rest[0] != ':' || |rest| == 1 then Err
        else if rest[1] != ':' then ParseGroups(rest[1..], more, ellipsis)
        else if ellipsis.Some? then Err
        else if |rest| == 2 then Ok((more, Some(|more|)))
        else ParseGroups(rest[2..], more, Some(|more|))
  }

  function ParseIp6(s: string): Result<seq<Byte>> {
    var starts := |s| >= 2 && s[0] == ':' && s[1] == ':';
    if starts && |s| == 2 then Ok(seq(16, _ => 0))
    else
      match ParseGroups(if starts then s[2..] else s, [], if starts then Some(0) else None)
      case Err => Err
      case Ok((bytes, None)) => if |bytes| == 16 then Ok(bytes) else Err
      case Ok((bytes, Some(at))) =>
        if |bytes| >= 16 || at > |bytes| then Err
        else Ok(bytes[..at] + seq(16 - |bytes|, _ => 0) + bytes[at..])
  }

  /** net.ParseIP followed by To4: four bytes for IPv4 and IPv4-mapped addresses, else sixteen. */
  function ParseIp(s: string): Result<seq<Byte>> {
    if '.' in s && ':' !in s then ParseIp4(s)
    else if ':' in s && '.' !in s then
      match ParseIp6(s)
      case Err => Err
      case Ok(b) =>
        if |b| == 16 && b[..10] == seq(10, _ => 0) && b[10] == 255 && b[11] == 255 then Ok(b[12..]) else Ok(b)
    else Err
  }

  /** 2^k for k at most 8. */
  function ByteShift(k: nat): (p: nat)
    requires k <= 8
    ensures 1 <= p <= 256
  {
    [1, 2, 4, 8, 16, 32, 64, 128, 256][k]
  }

  /** net.CIDRMask for a mask of the given number of bytes; nil when ones is too large. */
  function CidrMask(ones: nat, bytes: nat): (m: seq<Byte>)
    ensures |m| == if ones <= 8 * bytes then bytes else 0
  {
    if ones > 8 * bytes then []
    else seq(bytes, i requires 0 <= i < bytes => MaskByte(ones, i))
  }

  function MaskByte(ones: nat, i: nat): Byte {
    if ones >= 8 * (i + 1) then 255
    else if ones <= 8 * i then 0
    else 256 - ByteShift(8 - (ones - 8 * i))
  }

  /** The bitwise and of two bytes, bit by bit. */
  function BitAnd(x: nat, y: nat): nat
    decreases x
  {
    if x == 0 then 0 else 2 * BitAnd(x / 2, y / 2) + (x % 2) * (y % 2)
  }

  lemma {:induction false} BitAndBound(x: nat, y: nat)
    ensures BitAnd(x, y) <= x
    decreases x
  {
    if x != 0 {
      BitAndBound(x / 2, y / 2);
      assert (x % 2) * (y % 2) <= x % 2 by { assert y % 2 == 0 || y % 2 == 1; }
    }
  }

  function AndByte(x: Byte, y: Byte): Byte {
    BitAndBound(x, y);
    BitAnd(x, y)
  }

  /** net.IP.Mask: nil unless the lengths agree. */
  function MaskIp(ip: seq<Byte>, mask: seq<Byte>): seq<Byte> {
    if |ip| != |mask| then [] else seq(|ip|, i requires 0 <= i < |ip| => AndByte(ip[i], mask[i]))
  }

  function ParseCidrIp(ipText: string, maskText: Option<string>): Result<IpWMask> {
    match ParseIp(ipText)
    case Err => Err
    case Ok(ip) =>
      var kind := if |ip| == 4 then 1 else 2;
      match maskText
      case None => Ok(IpWMask(kind, ip, CidrMask(8 * |ip|, |ip|)))
      case Some(text) =>
        match ParseUint(text)
        case Err => Err
        case Ok(ones) =>
          var mask := CidrMask(ones, |ip|);
          Ok(IpWMask(kind, MaskIp(ip, mask), mask))
  }

  // ---------------------------------------------------------------- ports and protocol

  function ParsePort(s: string): Result<nat> {
    match ParseUint(s)
    case Ok(port) => if port > 65535 then Err else Ok(port)
    case Err => Err
  }

  function ParsePortRange(s: string): Result<PortRange> {
    var parts := Split(s, '-');
    if |parts| == 1 then
      match ParsePort(parts[0])
      case Ok(port) => Ok(PortRange(port, port))
      case Err => Err
    else if |parts| == 2 then
      match (ParsePort(parts[0]), ParsePort(parts[1]))
      case (Ok(lower), Ok(upper)) => if lower > upper then Err else Ok(PortRange(lower, upper))
      case _ => Err
    else Err
  }

  function ParseProtocol(s: string): Result<nat> {
    if s == "icmp" then Ok(0)
    else if s == "ip" then Ok(1)
    else if s == "tcp" then Ok(2)
    else if s == "udp" then Ok(3)
    else if s == "58" then Ok(4)
    else Err
  }

  // ---------------------------------------------------------------- the flow description

  /** An address word: the address and, after a slash, an optional mask length. */
  function AddressWord(word: string): Result<(string, Option<string>)> {
    var parts := Split(word, '/');
    if |parts| == 1 then Ok((parts[0], None))
    else if |parts| == 2 && IsNumber(parts[1]) then Ok((parts[0], Some(parts[1])))
    else Err
  }

  /** The classes [\d.]+ and [\da-fA-F:]+ of the regular expression. */
  predicate IsAddressText(s: string) {
    s != [] && ((forall c :: c in s ==> IsDigit(c) || c == '.') || (forall c :: c in s ==> IsHex(c) || c == ':'))
  }

  function ParseSource(word: string): Result<IpWMask> {
    match AddressWord(word)
    case Err => Err
    case Ok((text, mask)) =>
      if text == "any" then (if mask.Some? then Err else Ok(ANY_ADDRESS))
      else if IsAddressText(text) then ParseCidrIp(text, mask)
      else Err
  }

  /** Unlike the source, an "any" destination may carry a mask, which is ignored. */
  function ParseDestination(word: string): Result<IpWMask> {
    match AddressWord(word)
    case Err => Err
    case Ok((text, mask)) =>
      if text == "any" || text == "assigned" then Ok(ANY_ADDRESS)
      else if IsAddressText(text) then ParseCidrIp(text, mask)
      else Err
  }

  function ParsePorts(words: seq<string>): Result<PortRange> {
    if words == [] then Ok(ALL_PORTS)
    else if |words| == 1 then ParsePortRange(words[0])
    else Err
  }

  /** The words after "permit out <protocol> from": source [ports] "to" destination [ports]. */
  function ParseEndpoints(protocol: nat, words: seq<string>): Result<SdfFilter> {
    if |words| < 3 then Err
    else
      var to := if words[1] == "to" then 1 else 2;
      if to + 1 >= |words| || words[to] != "to" then Err
      else
        match (ParseSource(words[0]), ParsePorts(words[1..to]),
               ParseDestination(words[to + 1]), ParsePorts(words[to + 2..]))
        case (Ok(src), Ok(srcPorts), Ok(dst), Ok(dstPorts)) => Ok(SdfFilter(protocol, src, srcPorts, dst, dstPorts))
        case _ => Err
  }

  function ParseSdfFilter(text: string): Result<SdfFilter> {
    var words := Split(text, ' ');
    if |words| < 4 || words[0] != "permit" || words[1] != "out" || words[3] != "from" then Err
    else
      match ParseProtocol(words[2])
      case Err => Err
      case Ok(protocol) => ParseEndpoints(protocol, words[4..])
  }
}
