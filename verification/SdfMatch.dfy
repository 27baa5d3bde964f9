/**
 * The kernel's bit-level filter match, on the record the control plane builds, agrees with the
 * arithmetic meaning of the flow rule: protocol, address prefixes and port intervals.
 */
module SdfMatch {
  import opened Base
  import opened SdfParser
  import opened SdfRoundTrip
  import opened PdrRecords

  /** The address as a number, first byte most significant. */
  function AddressValue(b: seq<Byte>): nat
    requires |b| == 4
  {
    Number(b[3], b[2], b[1], b[0])
  }

  // ---------------------------------------------------------------- the meaning of a rule

  /** The packet address lies in the network: the leading ones bits agree. */
  predicate InNetwork(a: Address, packet: Ip4)
    requires ValidAddress(a)
  {
    a.Any? || AddressValue(packet) / Pow2(32 - a.ones) == AddressValue(a.ip) / Pow2(32 - a.ones)
  }

  /** IP protocol numbers: 1 ICMP, 6 TCP, 17 UDP.  A rule for ICMPv6 accepts no IPv4 packet. */
  predicate ProtocolAccepts(protocol: nat, ipProtocol: Byte) {
    match protocol
    case 0 => ipProtocol == 1
    case 1 => true
    case 2 => ipProtocol == 6
    case 3 => ipProtocol == 17
    case _ => false
  }

  predicate RuleAccepts(r: FlowRule, p: Packet)
    requires ValidRule(r)
  {
    var ports := p.ports.GetOr((0, 0));
    && ProtocolAccepts(r.protocol, p.protocol)
    && InNetwork(r.src, p.src) && InNetwork(r.dst, p.dst)
    && r.srcPorts.lower <= ports.0 <= r.srcPorts.upper
    && r.dstPorts.lower <= ports.1 <= r.dstPorts.upper
  }

  // ---------------------------------------------------------------- bitwise and, arithmetically

  /** u shifted left by k bits. */
  function Shift(k: nat, u: nat): nat {
    if k == 0 then u else 2 * Shift(k - 1, u)
  }

  lemma {:induction false} ShiftMultiplies(k: nat, u: nat)
    ensures Shift(k, u) == Pow2(k) * u
  {
    if k != 0 {
      ShiftMultiplies(k - 1, u);
      assert Pow2(k) * u == 2 * (Pow2(k - 1) * u);
    }
  }

  lemma HalfOfSum(x: nat, s: nat)
    ensures (x + 2 * s) / 2 == x / 2 + s && (x + 2 * s) % 2 == x % 2
  {
  }

  /** And works on a low and a high part separately. */
  lemma {:induction false} AndSplit(k: nat, x: nat, u: nat, y: nat, v: nat)
    requires x < Pow2(k) && y < Pow2(k)
    ensures BitAnd(x + Shift(k, u), y + Shift(k, v)) == BitAnd(x, y) + Shift(k, BitAnd(u, v))
  {
    if k != 0 {
      var su, sv := Shift(k - 1, u), Shift(k - 1, v);
      AndSplit(k - 1, x / 2, u, y / 2, v);
      AndStep(x + 2 * su, y + 2 * sv);
      AndStep(x, y);
      HalfOfSum(x, su);
      HalfOfSum(y, sv);
    } else {
      assert BitAnd(x, y) == 0;
    }
  }

  lemma {:induction false} AndZero(x: nat)
    ensures BitAnd(x, 0) == 0
  {
    if x != 0 { AndZero(x / 2); }
  }

  lemma DivMod(x: nat, d: nat)
    requires d > 0
    ensures x == x % d + d * (x / d) && x % d < d
  {
  }

  /** Masking with ones leading bits keeps the quotient and clears the remainder. */
  lemma AndPrefix(low: nat, ones: nat, q: nat, r: nat)
    requires r < Pow2(low) && q < Pow2(ones)
    ensures BitAnd(r + Shift(low, q), Shift(low, Pow2(ones) - 1)) == Shift(low, q)
  {
    AndSplit(low, r, q, 0, Pow2(ones) - 1);
    AndZero(r);
    AndOnes(ones, q);
  }

  /** And of two addresses byte by byte, in either byte order. */
  lemma AndAddress(a: seq<Byte>, m: seq<Byte>)
    requires |a| == |m| == 4
    ensures BitAnd(AddressValue(a), AddressValue(m)) == AddressValue(MaskIp(a, m))
  {
    var r := MaskIp(a, m);
    MaskedBytes(a, m);
    AndFour(a[3], a[2], a[1], a[0], m[3], m[2], m[1], m[0], r[3], r[2], r[1], r[0]);
  }

  lemma AndLoad(a: seq<Byte>, m: seq<Byte>)
    requires |a| == |m| == 4
    ensures BitAnd(Load32(a), Load32(m)) == Load32(MaskIp(a, m))
  {
    var r := MaskIp(a, m);
    MaskedBytes(a, m);
    AndFour(a[0], a[1], a[2], a[3], m[0], m[1], m[2], m[3], r[0], r[1], r[2], r[3]);
  }

  lemma MaskedBytes(a: seq<Byte>, m: seq<Byte>)
    requires |a| == |m| == 4
    ensures var r := MaskIp(a, m);
      && r[0] == BitAnd(a[0], m[0]) && r[1] == BitAnd(a[1], m[1])
      && r[2] == BitAnd(a[2], m[2]) && r[3] == BitAnd(a[3], m[3])
  {
  }

  /** One byte r of the result in front of the and of the rests. */
  lemma AndByteAndRest(a: Byte, u: nat, e: Byte, v: nat, r: Byte, w: nat)
    requires r == BitAnd(a, e) && w == BitAnd(u, v)
    ensures BitAnd(a + 0x100 * u, e + 0x100 * v) == r + 0x100 * w
  {
    assert Pow2(8) == 256;
    ShiftMultiplies(8, u); ShiftMultiplies(8, v); ShiftMultiplies(8, w);
    AndSplit(8, a, u, e, v);
  }

  lemma AndFour(a: Byte, b: Byte, c: Byte, d: Byte, e: Byte, f: Byte, g: Byte, h: Byte, r: Byte, s: Byte, t: Byte,
                u: Byte)
    requires r == BitAnd(a, e) && s == BitAnd(b, f) && t == BitAnd(c, g) && u == BitAnd(d, h)
    ensures BitAnd(Number(a, b, c, d), Number(e, f, g, h)) == Number(r, s, t, u)
  {
    var cd, gh, tu: nat := c + 0x100 * (d as int), g + 0x100 * (h as int), t + 0x100 * (u as int);
    var bcd, fgh, stu: nat := b + 0x100 * cd, f + 0x100 * gh, s + 0x100 * tu;
    AndByteAndRest(c, d, g, h, t, u);
    AndByteAndRest(b, cd, f, gh, s, tu);
    AndByteAndRest(a, bcd, e, fgh, r, stu);
    assert Number(a, b, c, d) == a + 0x100 * bcd && Number(e, f, g, h) == e + 0x100 * fgh;
    assert Number(r, s, t, u) == r + 0x100 * stu;
  }

  // ---------------------------------------------------------------- the mask

  /** n leading ones, 32 - n zeros. */
  lemma MaskValue(ones: nat)
    requires ones <= 32
    ensures AddressValue(CidrMask(ones, 4)) == Shift(32 - ones, Pow2(ones) - 1)
  {
    MaskBytes(ones);
    HighOnes(32 - ones, ones);
    Pow2Is32(32 - ones + ones);
  }

  lemma MaskBytes(ones: nat)
    requires ones <= 32
    ensures AddressValue(CidrMask(ones, 4)) == 0x1_0000_0000 - Pow2(32 - ones)
  {
    var m := CidrMask(ones, 4);
    assert m[0] == MaskByte(ones, 0) && m[1] == MaskByte(ones, 1);
    assert m[2] == MaskByte(ones, 2) && m[3] == MaskByte(ones, 3);
    MaskTotal(ones);
  }

  lemma Pow2Is32(n: nat)
    requires n == 32
    ensures Pow2(n) == 0x1_0000_0000
  {
    Pow2Of32();
  }

  lemma HighOnes(low: nat, ones: nat)
    ensures Shift(low, Pow2(ones) - 1) == Pow2(low + ones) - Pow2(low)
  {
    ShiftPow2(low, ones);
    ShiftPred(low, Pow2(ones));
  }

  lemma {:induction false} ShiftPow2(k: nat, n: nat)
    ensures Shift(k, Pow2(n)) == Pow2(k + n)
  {
    if k != 0 { ShiftPow2(k - 1, n); }
  }

  lemma {:induction false} ShiftPred(k: nat, u: nat)
    requires u > 0
    ensures Shift(k, u - 1) == Shift(k, u) - Pow2(k)
  {
    if k != 0 { ShiftPred(k - 1, u); }
  }

  lemma Pow2Plus8(k: nat)
    ensures Pow2(k + 8) == 0x100 * Pow2(k)
  {
    assert Pow2(k + 2) == 4 * Pow2(k);
    assert Pow2(k + 4) == 4 * Pow2(k + 2);
    assert Pow2(k + 6) == 4 * Pow2(k + 4);
    assert Pow2(k + 8) == 4 * Pow2(k + 6);
  }

  lemma Pow2Bytes(k: nat)
    ensures Pow2(k + 8) == 0x100 * Pow2(k) && Pow2(k + 16) == 0x1_0000 * Pow2(k) && Pow2(k + 24) == 0x100_0000 * Pow2(k)
  {
    Pow2Plus8(k);
    Pow2Plus8(k + 8);
    Pow2Plus8(k + 16);
  }

  lemma Pow2Of32()
    ensures Pow2(8) == 0x100 && Pow2(16) == 0x1_0000 && Pow2(24) == 0x100_0000 && Pow2(32) == 0x1_0000_0000
  {
    Pow2Plus8(0);
    Pow2Bytes(8);
  }

  /** Full bytes, one partial byte, zero bytes. */
  lemma MaskBytesAt(i: nat, r: nat, j: nat)
    requires i < 4 && r <= 8 && j < 4
    ensures MaskByte(8 * i + r, j) == if j < i then 255 else if j == i then 256 - ByteShift(8 - r) else 0
  {
  }

  lemma ShiftIsPow2(k: nat)
    requires k <= 8
    ensures ByteShift(k) == Pow2(k)
  {
    if k != 0 { ShiftIsPow2(k - 1); }
  }

  /** Four such bytes as a number: all ones without the low bits, p of them. */
  lemma BytesTotal(i: nat, s: nat, p: nat, b: nat, c: nat, d: nat, e: nat)
    requires i < 4 && s <= 256
    requires p == (match i case 0 => 0x100_0000 * s case 1 => 0x1_0000 * s case 2 => 0x100 * s case _ => s)
    requires b == (if i == 0 then 256 - s else 255) && c == (if 1 < i then 255 else if i == 1 then 256 - s else 0)
    requires d == (if 2 < i then 255 else if i == 2 then 256 - s else 0) && e == (if i == 3 then 256 - s else 0)
    ensures e + 0x100 * d + 0x1_0000 * c + 0x100_0000 * b == 0x1_0000_0000 - p
  {
  }

  /** The bytes of a mask, as a number: all ones without its low bits. */
  lemma MaskTotal(ones: nat)
    requires ones <= 32
    ensures (MaskByte(ones, 3) as int) + 0x100 * (MaskByte(ones, 2) as int) + 0x1_0000 * (MaskByte(ones, 1) as int)
            + 0x100_0000 * (MaskByte(ones, 0) as int) == 0x1_0000_0000 - Pow2(32 - ones)
  {
    var i := if ones == 32 then 3 else ones / 8;
    var r := ones - 8 * i;
    MaskBytesAt(i, r, 0); MaskBytesAt(i, r, 1); MaskBytesAt(i, r, 2); MaskBytesAt(i, r, 3);
    ShiftIsPow2(8 - r);
    Pow2Bytes(8 - r);
    BytesTotal(i, ByteShift(8 - r), Pow2(32 - ones), MaskByte(ones, 0), MaskByte(ones, 1), MaskByte(ones, 2),
               MaskByte(ones, 3));
  }

  // ---------------------------------------------------------------- one address

  lemma LowByteUnique(a: Byte, x: nat, b: Byte, y: nat)
    ensures a + 0x100 * x == b + 0x100 * y <==> a == b && x == y
  {
  }

  lemma FourBytesUnique(a: Byte, b: Byte, c: Byte, d: Byte, e: Byte, f: Byte, g: Byte, h: Byte)
    ensures (a as int) + 0x100 * (b as int) + 0x1_0000 * (c as int) + 0x100_0000 * (d as int)
         == (e as int) + 0x100 * (f as int) + 0x1_0000 * (g as int) + 0x100_0000 * (h as int)
       <==> a == e && b == f && c == g && d == h
  {
    var cd, gh: nat := (c as int) + 0x100 * (d as int), (g as int) + 0x100 * (h as int);
    LowByteUnique(c, d, g, h);
    LowByteUnique(b, cd, f, gh);
    LowByteUnique(a, b + 0x100 * cd, e, f + 0x100 * gh);
  }

  lemma Load32Injective(a: seq<Byte>, b: seq<Byte>)
    requires |a| == |b| == 4
    ensures Load32(a) == Load32(b) <==> a == b
    ensures AddressValue(a) == AddressValue(b) <==> a == b
  {
    FourBytesUnique(a[0], a[1], a[2], a[3], b[0], b[1], b[2], b[3]);
    FourBytesUnique(a[3], a[2], a[1], a[0], b[3], b[2], b[1], b[0]);
  }

  /** Masking rounds a number down to a multiple of 2^low. */
  lemma AndRoundsDown(low: nat, ones: nat, x: nat, q: nat, r: nat)
    requires x == r + Pow2(low) * q && r < Pow2(low) && q < Pow2(ones)
    ensures BitAnd(x, Shift(low, Pow2(ones) - 1)) == Pow2(low) * q
  {
    ShiftMultiplies(low, q);
    AndPrefix(low, ones, q, r);
  }

  lemma MaskedValue(a: Ip4, ones: nat, q: nat, r: nat)
    requires ones <= 32 && AddressValue(a) == r + Pow2(32 - ones) * q && r < Pow2(32 - ones) && q < Pow2(ones)
    ensures AddressValue(MaskIp(a, CidrMask(ones, 4))) == Pow2(32 - ones) * q
  {
    MaskValue(ones);
    AndAddress(a, CidrMask(ones, 4));
    AndRoundsDown(32 - ones, ones, AddressValue(a), q, r);
  }

  lemma SamePrefixAt(a: Ip4, b: Ip4, ones: nat, qa: nat, ra: nat, qb: nat, rb: nat)
    requires ones <= 32 && ra < Pow2(32 - ones) && qa < Pow2(ones) && rb < Pow2(32 - ones) && qb < Pow2(ones)
    requires AddressValue(a) == ra + Pow2(32 - ones) * qa && AddressValue(b) == rb + Pow2(32 - ones) * qb
    ensures MaskIp(a, CidrMask(ones, 4)) == MaskIp(b, CidrMask(ones, 4)) <==> qa == qb
  {
    MaskedValue(a, ones, qa, ra);
    MaskedValue(b, ones, qb, rb);
    Load32Injective(MaskIp(a, CidrMask(ones, 4)), MaskIp(b, CidrMask(ones, 4)));
    MulInjective(Pow2(32 - ones), qa, qb);
  }

  lemma Decompose(x: nat, d: nat) returns (q: nat, r: nat)
    requires d > 0
    ensures q == x / d && x == r + d * q && r < d
  {
    q, r := x / d, x % d;
    DivMod(x, d);
  }

  /** Two addresses agree under a mask exactly when their leading bits agree. */
  lemma SamePrefixIff(a: Ip4, b: Ip4, ones: nat)
    requires ones <= 32
    ensures MaskIp(a, CidrMask(ones, 4)) == MaskIp(b, CidrMask(ones, 4))
       <==> AddressValue(a) / Pow2(32 - ones) == AddressValue(b) / Pow2(32 - ones)
  {
    var qa, ra := Decompose(AddressValue(a), Pow2(32 - ones));
    var qb, rb := Decompose(AddressValue(b), Pow2(32 - ones));
    PrefixFits(a, ones); PrefixFits(b, ones);
    SamePrefixAt(a, b, ones, qa, ra, qb, rb);
  }

  lemma MulInjective(d: nat, x: nat, y: nat)
    requires d > 0
    ensures d * x == d * y <==> x == y
  {
  }

  lemma {:induction false} Pow2Product(a: nat, b: nat)
    ensures Pow2(a) * Pow2(b) == Pow2(a + b)
  {
    if a != 0 {
      Pow2Product(a - 1, b);
      assert Pow2(a) * Pow2(b) == 2 * (Pow2(a - 1) * Pow2(b));
    }
  }

  lemma PrefixFits(a: Ip4, ones: nat)
    requires ones <= 32
    ensures AddressValue(a) / Pow2(32 - ones) < Pow2(ones)
  {
    Pow2Of32();
    Pow2Product(32 - ones, ones);
    DivMod(AddressValue(a), Pow2(32 - ones));
    QuotientBound(AddressValue(a), Pow2(32 - ones), Pow2(ones));
  }

  lemma QuotientBound(x: nat, d: nat, n: nat)
    requires d > 0 && x < d * n
    ensures x / d < n
  {
    DivMod(x, d);
    MulMonotone(d, n, x / d);
  }

  lemma MulMonotone(d: nat, x: nat, y: nat)
    ensures x <= y ==> d * x <= d * y
  {
  }

  /** Reversing the bytes into the record and swapping them back on load is the identity. */
  lemma SwappedCopy(b: seq<Byte>)
    requires |b| == 4
    ensures Swapped32(Copy16Ip(b)) == Load32(b)
  {
  }

  /** An empty address and mask, as "any" and a prefix above 32 leave them, match every address. */
  lemma EmptyRecordMatchesAll(a: IpWMask, packet: Ip4)
    requires a.ip == [] && a.mask == []
    ensures AddressMatches(ToKernelAddress(a), packet)
  {
    var r := ToKernelAddress(a);
    assert Swapped32(r.ip) == 0 && Swapped32(r.mask) == 0;
    AndZero(Load32(packet));
  }

  lemma NetworkAgrees(ip: Ip4, ones: nat, packet: Ip4)
    requires ones <= 32
    ensures AddressMatches(ToKernelAddress(DenoteAddress(Network(ip, ones))), packet)
        <==> InNetwork(Network(ip, ones), packet)
  {
    var mask := CidrMask(ones, 4);
    SwappedCopy(mask);
    SwappedCopy(MaskIp(ip, mask));
    AndLoad(packet, mask);
    Load32Injective(MaskIp(packet, mask), MaskIp(ip, mask));
    SamePrefixIff(packet, ip, ones);
  }

  lemma AddressAgrees(a: Address, packet: Ip4)
    requires ValidAddress(a)
    ensures AddressMatches(ToKernelAddress(DenoteAddress(a)), packet) <==> InNetwork(a, packet)
  {
    match a {
      case Any => EmptyRecordMatchesAll(ANY_ADDRESS, packet);
      case Network(ip, ones) => NetworkAgrees(ip, ones, packet);
    }
  }

  lemma QuotientGrows(x: nat, y: nat, d: nat)
    requires d > 0 && x + d <= y
    ensures x / d < y / d
  {
    DivMod(x, d);
    DivMod(y, d);
    if y / d <= x / d { MulMonotone(d, y / d, x / d); }
  }

  function FlipFirstBit(ip: Ip4): Ip4 { [((ip[0] as int) + 128) % 256, ip[1], ip[2], ip[3]] }

  /** The address with its first bit flipped is outside every network of the address but 0.0.0.0/0. */
  lemma FlippedIsOutside(ip: Ip4, n: nat)
    requires 1 <= n <= 32
    ensures !InNetwork(Network(ip, n), FlipFirstBit(ip))
  {
    var other := FlipFirstBit(ip);
    Pow2Of32();
    Pow2Product(32 - n, n - 1);
    MulMonotone(Pow2(32 - n), 1, Pow2(n - 1));
    assert Pow2(31) == 0x8000_0000;
    if ip[0] < 128 {
      QuotientGrows(AddressValue(ip), AddressValue(other), Pow2(32 - n));
    } else {
      QuotientGrows(AddressValue(other), AddressValue(ip), Pow2(32 - n));
    }
  }

  lemma BelowDivisor(x: nat, d: nat)
    requires x < d
    ensures x / d == 0
  {
  }

  lemma NoLeadingBits(ip: Ip4, n: nat)
    requires n == 32
    ensures AddressValue(ip) / Pow2(n) == 0
  {
    Pow2Of32();
    BelowDivisor(AddressValue(ip), Pow2(n));
  }

  lemma EmptyPrefixHoldsAll(ip: Ip4, n: nat, packet: Ip4)
    requires n == 0
    ensures InNetwork(Network(ip, n), packet)
  {
    NoLeadingBits(packet, 32 - n);
    NoLeadingBits(ip, 32 - n);
  }

  lemma EmptyPrefixMatchesAll(ip: Ip4, n: nat, packet: Ip4)
    requires n == 0
    ensures AddressMatches(ToKernelAddress(DenoteAddress(Network(ip, n))), packet)
  {
    EmptyPrefixHoldsAll(ip, n, packet);
    AddressAgrees(Network(ip, n), packet);
  }

  lemma NetworkMissesOne(ip: Ip4, n: nat)
    requires 1 <= n <= 32
    ensures !AddressMatches(ToKernelAddress(DenoteAddress(Network(ip, n))), FlipFirstBit(ip))
  {
    FlippedIsOutside(ip, n);
    AddressAgrees(Network(ip, n), FlipFirstBit(ip));
  }

  ghost predicate MatchesAll(a: KernelAddress) { forall packet: Ip4 :: AddressMatches(a, packet) }

  /** The address word a.b.c.d/n makes the kernel accept every address exactly when n is 0 or above 32. */
  lemma PrefixMatchesAllIff(ip: Ip4, n: nat)
    requires n < 0x1_0000_0000_0000_0000
    ensures var parsed := ParseSource(Quad(ip) + "/" + Decimal(n));
      parsed.Ok? && (MatchesAll(ToKernelAddress(parsed.value)) <==> n == 0 || n > 32)
  {
    PrefixWordReads(ip, n);
    var a := ToKernelAddress(ParseSource(Quad(ip) + "/" + Decimal(n)).value);
    if n > 32 {
      forall packet: Ip4 ensures AddressMatches(a, packet) { EmptyRecordMatchesAll(NIL_NETWORK, packet); }
    } else if n == 0 {
      forall packet: Ip4 ensures AddressMatches(a, packet) { EmptyPrefixMatchesAll(ip, n, packet); }
    } else {
      NetworkMissesOne(ip, n);
    }
  }

  // ---------------------------------------------------------------- the whole filter

  /** Parser, record builder and kernel together accept exactly the packets the rule describes. */
  lemma KernelAgreesWithRule(r: FlowRule, p: Packet)
    requires ValidRule(r)
    ensures FilterMatches(ToKernelFilter(Denote(r)), p) <==> RuleAccepts(r, p)
  {
    AddressAgrees(r.src, p.src);
    AddressAgrees(r.dst, p.dst);
  }

  /** End to end, from the text the peer sends to the packets the kernel selects. */
  lemma PrintedRuleSelects(r: FlowRule, style: Style, p: Packet)
    requires ValidRule(r)
    ensures var parsed := ParseSdfFilter(Print(r, style));
      parsed.Ok? && (FilterMatches(ToKernelFilter(parsed.value), p) <==> RuleAccepts(r, p))
  {
    PrintParses(r, style);
    KernelAgreesWithRule(r, p);
  }
}
