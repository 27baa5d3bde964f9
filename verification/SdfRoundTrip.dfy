/** Printing a flow rule as an IPFilterRule and parsing it back. */
module SdfRoundTrip {
  import opened Base
  import opened SdfParser

  /** An address as an operator writes it: anything, or a network given by any of its members. */
  datatype Address = Any | Network(ip: Ip4, ones: nat)

  datatype FlowRule = FlowRule(protocol: nat, src: Address, srcPorts: PortRange, dst: Address, dstPorts: PortRange)

  /** Which optional parts the printer leaves out when they say nothing new. */
  datatype Style = Style(hideFullMask: bool, hideAllPorts: bool, shortSinglePort: bool)

  predicate ValidAddress(a: Address) { a.Network? ==> a.ones <= 32 }

  predicate ValidPorts(r: PortRange) { r.lower <= r.upper <= 65535 }

  predicate ValidRule(r: FlowRule) {
    r.protocol <= 4 && ValidAddress(r.src) && ValidAddress(r.dst) && ValidPorts(r.srcPorts) && ValidPorts(r.dstPorts)
  }

  /** What the rule means as a stored filter: the network address is masked. */
  function DenoteAddress(a: Address): IpWMask {
    match a
    case Any => ANY_ADDRESS
    case Network(ip, ones) => IpWMask(1, MaskIp(ip, CidrMask(ones, 4)), CidrMask(ones, 4))
  }

  function Denote(r: FlowRule): SdfFilter {
    SdfFilter(r.protocol, DenoteAddress(r.src), r.srcPorts, DenoteAddress(r.dst), r.dstPorts)
  }

  // ---------------------------------------------------------------- printing

  function Digit(d: nat): (c: char)
    requires d < 10
    ensures IsDigit(c) && DigitValue(c) == d && (c == '0' <==> d == 0)
  {
    ['0', '1', '2', '3', '4', '5', '6', '7', '8', '9'][d]
  }

  function Decimal(n: nat): string {
    if n < 10 then [Digit(n)] else Decimal(n / 10) + [Digit(n % 10)]
  }

  function Quad(ip: Ip4): string {
    Join([Decimal(ip[0]), Decimal(ip[1]), Decimal(ip[2]), Decimal(ip[3])], '.')
  }

  function PrintAddress(a: Address, style: Style): string {
    match a
    case Any => "any"
    case Network(ip, ones) =>
      if ones == 32 && style.hideFullMask then Quad(ip) else Quad(ip) + "/" + Decimal(ones)
  }

  function PrintPorts(r: PortRange, style: Style): seq<string> {
    if r == ALL_PORTS && style.hideAllPorts then []
    else if r.lower == r.upper && style.shortSinglePort then [Decimal(r.lower)]
    else [Decimal(r.lower) + "-" + Decimal(r.upper)]
  }

  function PrintProtocol(protocol: nat): string
    requires protocol <= 4
  {
    ["icmp", "ip", "tcp", "udp", "58"][protocol]
  }

  function EndpointWords(r: FlowRule, style: Style): seq<string> {
    [PrintAddress(r.src, style)] + PrintPorts(r.srcPorts, style)
    + ["to", PrintAddress(r.dst, style)] + PrintPorts(r.dstPorts, style)
  }

  function PrintWords(r: FlowRule, style: Style): seq<string>
    requires ValidRule(r)
  {
    ["permit", "out", PrintProtocol(r.protocol), "from"] + EndpointWords(r, style)
  }

  function Print(r: FlowRule, style: Style): string
    requires ValidRule(r)
  {
    Join(PrintWords(r, style), ' ')
  }

  // ---------------------------------------------------------------- splitting undoes joining

  lemma {:induction false} IndexAfter(s: string, c: char, t: string)
    requires c !in s
    ensures IndexOf(s + [c] + t, c) == |s|
  {
    var all := s + [c] + t;
    if s != [] {
      assert all[0] == s[0] && all[1..] == s[1..] + [c] + t;
      IndexAfter(s[1..], c, t);
    }
  }

  lemma IndexAbsent(s: string, c: char)
    requires c !in s
    ensures IndexOf(s, c) == |s|
  {
    var i := IndexOf(s, c);
    if i < |s| { assert false; }
  }

  lemma {:induction false} SplitJoin(parts: seq<string>, c: char)
    requires parts != [] && forall p :: p in parts ==> c !in p
    ensures Split(Join(parts, c), c) == parts
  {
    if |parts| == 1 {
      IndexAbsent(parts[0], c);
    } else {
      var rest := Join(parts[1..], c);
      var all := parts[0] + [c] + rest;
      IndexAfter(parts[0], c, rest);
      assert all[..|parts[0]|] == parts[0] && all[|parts[0]| + 1..] == rest;
      SplitJoin(parts[1..], c);
    }
  }

  // ---------------------------------------------------------------- numbers

  lemma {:induction false} DecimalReads(n: nat)
    ensures IsNumber(Decimal(n)) && NumberValue(Decimal(n)) == n
    ensures |Decimal(n)| == 1 || Decimal(n)[0] != '0'
    ensures n != 0 ==> Decimal(n)[0] != '0'
  {
    var s := Decimal(n);
    if n < 10 {
      assert s[..0] == [] && s[0] == Digit(n);
      assert NumberValue(s) == 10 * NumberValue(s[..|s| - 1]) + DigitValue(s[0]);
    } else {
      DecimalReads(n / 10);
      assert s[..|s| - 1] == Decimal(n / 10) && s[|s| - 1] == Digit(n % 10);
    }
  }

  lemma UintReads(n: nat)
    requires n < 0x1_0000_0000_0000_0000
    ensures ParseUint(Decimal(n)) == Ok(n)
  {
    DecimalReads(n);
  }

  // ---------------------------------------------------------------- addresses

  lemma QuadReads(ip: Ip4)
    ensures ParseIp(Quad(ip)) == Ok(ip)
    ensures forall c :: c in Quad(ip) ==> IsDigit(c) || c == '.'
  {
    var parts := [Decimal(ip[0]), Decimal(ip[1]), Decimal(ip[2]), Decimal(ip[3])];
    forall i | 0 <= i < 4 ensures '.' !in parts[i] && ParseOctet(parts[i]) == Ok(ip[i]) {
      DecimalReads(ip[i]);
    }
    SplitJoin(parts, '.');
    QuadText(ip);
    assert ParseIp4(Quad(ip)) == Ok([ip[0], ip[1], ip[2], ip[3]]);
    assert [ip[0], ip[1], ip[2], ip[3]] == ip;
  }

  lemma {:induction false} JoinedNumbers(parts: seq<string>, c: char)
    requires parts != [] && forall p :: p in parts ==> IsNumber(p)
    ensures Join(parts, c) != [] && (forall ch :: ch in Join(parts, c) ==> IsDigit(ch) || ch == c)
    ensures |parts| > 1 ==> c in Join(parts, c)
  {
    assert IsNumber(parts[0]) && Join(parts[..1], c) == parts[0];
    if |parts| > 1 {
      JoinedNumbers(parts[1..], c);
      assert Join(parts, c)[|parts[0]|] == c;
    }
  }

  lemma QuadText(ip: Ip4)
    ensures forall c :: c in Quad(ip) ==> IsDigit(c) || c == '.'
    ensures '.' in Quad(ip) && ':' !in Quad(ip) && Quad(ip) != []
  {
    DecimalReads(ip[0]); DecimalReads(ip[1]); DecimalReads(ip[2]); DecimalReads(ip[3]);
    JoinedNumbers([Decimal(ip[0]), Decimal(ip[1]), Decimal(ip[2]), Decimal(ip[3])], '.');
  }

  function Pow2(k: nat): (p: nat)
    ensures p > 0
  {
    if k == 0 then 1 else 2 * Pow2(k - 1)
  }

  lemma AndStep(x: nat, y: nat)
    ensures BitAnd(x, y) == 2 * BitAnd(x / 2, y / 2) + (x % 2) * (y % 2)
  {
  }

  lemma {:induction false} AndOnes(k: nat, x: nat)
    requires x < Pow2(k)
    ensures BitAnd(x, Pow2(k) - 1) == x
  {
    if k != 0 {
      AndOnes(k - 1, x / 2);
      AndStep(x, Pow2(k) - 1);
      assert (Pow2(k) - 1) / 2 == Pow2(k - 1) - 1 && (Pow2(k) - 1) % 2 == 1;
    }
  }

  lemma FullMaskKeeps(ip: Ip4)
    ensures MaskIp(ip, CidrMask(32, 4)) == ip
  {
    assert Pow2(8) == 256;
    forall i | 0 <= i < 4 ensures MaskIp(ip, CidrMask(32, 4))[i] == ip[i] {
      AndOnes(8, ip[i]);
    }
  }

  /** The word splits back into the quad and, if printed, the mask length. */
  lemma NetworkWordReads(ip: Ip4, ones: nat, style: Style)
    ensures AddressWord(PrintAddress(Network(ip, ones), style))
         == Ok((Quad(ip), if ones == 32 && style.hideFullMask then None else Some(Decimal(ones))))
    ensures ' ' !in PrintAddress(Network(ip, ones), style)
  {
    QuadText(ip);
    DecimalReads(ones);
    var word := PrintAddress(Network(ip, ones), style);
    if ones == 32 && style.hideFullMask {
      IndexAbsent(word, '/');
    } else {
      var parts := [Quad(ip), Decimal(ones)];
      assert word == Join(parts, '/');
      SplitJoin(parts, '/');
    }
  }

  lemma CidrReads(ip: Ip4, ones: nat)
    requires ones <= 32
    ensures ParseCidrIp(Quad(ip), Some(Decimal(ones))) == Ok(DenoteAddress(Network(ip, ones)))
    ensures ParseCidrIp(Quad(ip), None) == Ok(DenoteAddress(Network(ip, 32)))
  {
    QuadReads(ip);
    UintReads(ones);
    FullMaskKeeps(ip);
  }

  lemma DottedIsNoKeyword(s: string)
    requires '.' in s
    ensures s != "any" && s != "assigned"
  {
  }

  lemma AddressReads(a: Address, style: Style)
    requires ValidAddress(a)
    ensures ParseSource(PrintAddress(a, style)) == Ok(DenoteAddress(a))
    ensures ParseDestination(PrintAddress(a, style)) == Ok(DenoteAddress(a))
    ensures ' ' !in PrintAddress(a, style)
  {
    match a {
      case Any =>
        IndexAbsent("any", '/');
      case Network(ip, ones) =>
        NetworkWordReads(ip, ones, style);
        QuadText(ip);
        DottedIsNoKeyword(Quad(ip));
        CidrReads(ip, ones);
    }
  }

  // ---------------------------------------------------------------- ports

  lemma SinglePortReads(port: nat)
    requires port <= 65535
    ensures ParsePortRange(Decimal(port)) == Ok(PortRange(port, port))
  {
    DecimalReads(port);
    UintReads(port);
    IndexAbsent(Decimal(port), '-');
  }

  lemma PortPairReads(r: PortRange)
    requires ValidPorts(r)
    ensures ParsePortRange(Decimal(r.lower) + "-" + Decimal(r.upper)) == Ok(r)
  {
    var parts := [Decimal(r.lower), Decimal(r.upper)];
    DecimalReads(r.lower); DecimalReads(r.upper);
    UintReads(r.lower); UintReads(r.upper);
    assert Decimal(r.lower) + "-" + Decimal(r.upper) == Join(parts, '-');
    SplitJoin(parts, '-');
  }

  /** A port word starts with a digit, so it is never the keyword "to". */
  lemma PortWordText(r: PortRange, style: Style)
    ensures forall w :: w in PrintPorts(r, style) ==> ' ' !in w && w != "to"
  {
    DecimalReads(r.lower); DecimalReads(r.upper);
    forall w | w in PrintPorts(r, style) ensures ' ' !in w && w != "to" {
      assert IsDigit(Decimal(r.lower)[0]);
      assert w[0] == Decimal(r.lower)[0];
    }
  }

  lemma PortsRead(r: PortRange, style: Style)
    requires ValidPorts(r)
    ensures ParsePorts(PrintPorts(r, style)) == Ok(r)
  {
    SinglePortReads(r.lower);
    PortPairReads(r);
  }

  // ---------------------------------------------------------------- the whole description

  /** The words of the two endpoints are taken apart where they were put together. */
  lemma EndpointShape(protocol: nat, src: string, srcPorts: seq<string>, dst: string, dstPorts: seq<string>)
    requires |srcPorts| <= 1 && (srcPorts != [] ==> srcPorts[0] != "to")
    ensures ParseEndpoints(protocol, [src] + srcPorts + ["to", dst] + dstPorts)
         == match (ParseSource(src), ParsePorts(srcPorts), ParseDestination(dst), ParsePorts(dstPorts))
            case (Ok(s), Ok(sp), Ok(d), Ok(dp)) => Ok(SdfFilter(protocol, s, sp, d, dp))
            case _ => Err
  {
    var words := [src] + srcPorts + ["to", dst] + dstPorts;
    var to := 1 + |srcPorts|;
    assert words[to] == "to" && (srcPorts != [] ==> words[1] == srcPorts[0]);
    assert words[1..to] == srcPorts && words[to + 2..] == dstPorts && words[to + 1] == dst;
  }

  lemma EndpointsRead(r: FlowRule, style: Style)
    requires ValidRule(r)
    ensures ParseEndpoints(r.protocol, EndpointWords(r, style)) == Ok(Denote(r))
  {
    AddressReads(r.src, style); AddressReads(r.dst, style);
    PortsRead(r.srcPorts, style); PortsRead(r.dstPorts, style);
    PortWordText(r.srcPorts, style);
    EndpointShape(r.protocol, PrintAddress(r.src, style), PrintPorts(r.srcPorts, style),
                  PrintAddress(r.dst, style), PrintPorts(r.dstPorts, style));
  }

  lemma WordsHaveNoSpace(r: FlowRule, style: Style)
    requires ValidRule(r)
    ensures forall w :: w in PrintWords(r, style) ==> ' ' !in w
  {
    AddressReads(r.src, style); AddressReads(r.dst, style);
    PortWordText(r.srcPorts, style); PortWordText(r.dstPorts, style);
    assert ' ' !in PrintProtocol(r.protocol) && ' ' !in "to" && ' ' !in "permit" && ' ' !in "out" && ' ' !in "from";
    assert forall w :: w in EndpointWords(r, style) ==> ' ' !in w;
  }

  lemma ProtocolReads(protocol: nat)
    requires protocol <= 4
    ensures ParseProtocol(PrintProtocol(protocol)) == Ok(protocol)
  {
  }

  /** Every printed rule parses to the filter it means, whichever optional parts are left out. */
  lemma PrintParses(r: FlowRule, style: Style)
    requires ValidRule(r)
    ensures ParseSdfFilter(Print(r, style)) == Ok(Denote(r))
  {
    var words := PrintWords(r, style);
    WordsHaveNoSpace(r, style);
    SplitJoin(words, ' ');
    EndpointsRead(r, style);
    assert words[4..] == EndpointWords(r, style);
    ProtocolReads(r.protocol);
  }

  // ---------------------------------------------------------------- everything accepted is such a rule

  /** The record a prefix length above 32 produces: type IPv4, but neither address nor mask. */
  const NIL_NETWORK := IpWMask(1, [], [])

  lemma LongPrefixReads(ip: Ip4, n: nat)
    ensures ParseCidrIp(Quad(ip), Some(Decimal(n)))
         == if n >= 0x1_0000_0000_0000_0000 then Err
            else if n > 32 then Ok(NIL_NETWORK) else Ok(DenoteAddress(Network(ip, n)))
  {
    QuadReads(ip);
    DecimalReads(n);
  }

  /**
   * The word a.b.c.d/n is an address exactly for n below 2^64; up to 32 it is that network, and above
   * it is the record without address and mask.
   */
  lemma PrefixWordReads(ip: Ip4, n: nat)
    ensures var word := Quad(ip) + "/" + Decimal(n);
      && ParseDestination(word) == ParseSource(word)
      && (ParseSource(word).Ok? <==> n < 0x1_0000_0000_0000_0000)
      && (ParseSource(word) == Ok(NIL_NETWORK) <==> 32 < n < 0x1_0000_0000_0000_0000)
      && (n <= 32 ==> ParseSource(word) == Ok(DenoteAddress(Network(ip, n))))
  {
    NetworkWordReads(ip, n, Style(false, false, false));
    QuadText(ip);
    DottedIsNoKeyword(Quad(ip));
    LongPrefixReads(ip, n);
  }

  lemma CidrDenotes(text: string, mask: Option<string>)
    requires ParseCidrIp(text, mask).Ok?
    ensures var a := ParseCidrIp(text, mask).value;
      a.kind == 2 || a == NIL_NETWORK || exists r :: ValidAddress(r) && a == DenoteAddress(r)
  {
    var ip := ParseIp(text).value;
    var a := ParseCidrIp(text, mask).value;
    if |ip| == 4 {
      var ones := if mask.None? then 32 else ParseUint(mask.value).value;
      FullMaskKeeps(ip);
      if ones <= 32 {
        assert ValidAddress(Network(ip, ones)) && a == DenoteAddress(Network(ip, ones));
      }
    }
  }

  lemma AcceptedAddressDenotes(word: string, a: IpWMask)
    requires ParseSource(word) == Ok(a) || ParseDestination(word) == Ok(a)
    ensures a.kind == 2 || a == NIL_NETWORK || exists r :: ValidAddress(r) && a == DenoteAddress(r)
  {
    var (text, mask) := AddressWord(word).value;
    if a == ANY_ADDRESS {
      assert a == DenoteAddress(Any) && ValidAddress(Any);
    } else {
      CidrDenotes(text, mask);
    }
  }

  lemma AcceptedPortsAreOrdered(words: seq<string>)
    requires ParsePorts(words).Ok?
    ensures ValidPorts(ParsePorts(words).value)
  {
  }

  /**
   * Whatever the parser accepts has ordered 16-bit port ranges; and unless it names an IPv6
   * address or a prefix longer than 32, printing it in any style and parsing that gives it back.
   */
  lemma AcceptedReparses(text: string, style: Style)
    requires ParseSdfFilter(text).Ok?
    ensures var f := ParseSdfFilter(text).value;
      && ValidPorts(f.srcPorts) && ValidPorts(f.dstPorts)
      && (f.src.kind != 2 && f.src != NIL_NETWORK && f.dst.kind != 2 && f.dst != NIL_NETWORK ==>
            exists r :: ValidRule(r) && Denote(r) == f && ParseSdfFilter(Print(r, style)) == Ok(f))
  {
    var f := ParseSdfFilter(text).value;
    var words := Split(text, ' ')[4..];
    var to := if words[1] == "to" then 1 else 2;
    AcceptedPortsAreOrdered(words[1..to]);
    AcceptedPortsAreOrdered(words[to + 2..]);
    AcceptedAddressDenotes(words[0], f.src);
    AcceptedAddressDenotes(words[to + 1], f.dst);
    if f.src.kind != 2 && f.src != NIL_NETWORK && f.dst.kind != 2 && f.dst != NIL_NETWORK {
      var src :| ValidAddress(src) && f.src == DenoteAddress(src);
      var dst :| ValidAddress(dst) && f.dst == DenoteAddress(dst);
      var r := FlowRule(f.protocol, src, f.srcPorts, dst, f.dstPorts);
      assert ValidRule(r) && Denote(r) == f;
      PrintParses(r, style);
    }
  }
}
