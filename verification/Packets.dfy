/** Frames as byte sequences: the fields the data plane reads and the headers it writes. */
module Packets {
  import opened Base
  import opened Checksum

  // ---------------------------------------------------------------- numbers in network byte order

  function Be16(n: nat): (b: seq<Byte>)
    ensures |b| == 2
  {
    [n / 0x100 % 0x100, n % 0x100]
  }

  function Be32(n: nat): (b: seq<Byte>)
    ensures |b| == 4
  {
    [n / 0x100_0000 % 0x100, n / 0x1_0000 % 0x100, n / 0x100 % 0x100, n % 0x100]
  }

  function Get16(f: seq<Byte>, at: nat): nat
    requires at + 2 <= |f|
  {
    0x100 * (f[at] as int) + f[at + 1]
  }

  function Get32(f: seq<Byte>, at: nat): nat
    requires at + 4 <= |f|
  {
    0x1_0000 * Get16(f, at) + Get16(f, at + 2)
  }

  lemma Get16Back(f: seq<Byte>, at: nat, n: nat)
    requires at + 2 <= |f| && f[at..at + 2] == Be16(n)
    ensures Get16(f, at) == n % 0x1_0000
  {
    assert f[at] == f[at..at + 2][0] && f[at + 1] == f[at..at + 2][1];
    Split16(n);
  }

  lemma Get32Back(f: seq<Byte>, at: nat, n: nat)
    requires at + 4 <= |f| && f[at..at + 4] == Be32(n)
    ensures Get32(f, at) == n % 0x1_0000_0000
  {
    var b := f[at..at + 4];
    assert f[at] == b[0] && f[at + 1] == b[1] && f[at + 2] == b[2] && f[at + 3] == b[3];
    Split32(n);
  }

  lemma Split16(n: nat)
    ensures 0x100 * (n / 0x100 % 0x100) + n % 0x100 == n % 0x1_0000
  {
  }

  lemma Split32(n: nat)
    ensures 0x100_0000 * (n / 0x100_0000 % 0x100) + 0x1_0000 * (n / 0x1_0000 % 0x100) + 0x100 * (n / 0x100 % 0x100)
        + n % 0x100
         == n % 0x1_0000_0000
  {
    var high := n / 0x1_0000;
    assert n / 0x100_0000 == high / 0x100;
    Split16(n);
    Split16(high);
    assert n % 0x1_0000_0000 == 0x1_0000 * (high % 0x1_0000) + n % 0x1_0000;
  }

  /** The 16-bit words a little-endian host sees. */
  function HostWords(b: seq<Byte>): seq<Word>
    requires |b| % 2 == 0
  {
    if b == [] then [] else [b[0] + 0x100 * (b[1] as int)] + HostWords(b[2..])
  }

  lemma {:induction false} WordAt(b: seq<Byte>, i: nat)
    requires |b| % 2 == 0 && 2 * i < |b|
    ensures i < |HostWords(b)| && HostWords(b)[i] == b[2 * i] + 0x100 * (b[2 * i + 1] as int)
  {
    if i == 0 {
    } else {
      var rest := b[2..];
      WordAt(rest, i - 1);
      assert HostWords(b)[i] == HostWords(rest)[i - 1];
      assert rest[2 * i - 2] == b[2 * i] && rest[2 * i - 1] == b[2 * i + 1];
    }
  }

  lemma {:induction false} WordCount(b: seq<Byte>)
    requires |b| % 2 == 0
    ensures 2 * |HostWords(b)| == |b|
  {
    if b != [] { WordCount(b[2..]); }
  }

  lemma WordsLength(b: seq<Byte>)
    requires |b| % 2 == 0
    ensures 2 * |HostWords(b)| == |b|
    ensures forall i :: 0 <= 2 * i < |b| ==> HostWords(b)[i] == b[2 * i] + 0x100 * (b[2 * i + 1] as int)
  {
    WordCount(b);
    forall i | 0 <= 2 * i < |b| ensures HostWords(b)[i] == b[2 * i] + 0x100 * (b[2 * i + 1] as int) {
      WordAt(b, i);
    }
  }

  /** A message of odd length is summed with a zero byte behind it (RFC 1071 section 1). */
  function Padded(b: seq<Byte>): (p: seq<Byte>)
    ensures |p| % 2 == 0
  {
    if |b| % 2 == 0 then b else b + [0]
  }

  // ---------------------------------------------------------------- the parsers

  const ETH_P_IP := 0x0800
  const ETH_P_IPV6 := 0x86DD
  const GTP_UDP_PORT := 2152
  const GTPU_G_PDU := 255

  /** A parser's verdict: the field it returns and the cursor behind the header. */
  datatype Parsed = Parsed(field: nat, cursor: nat)

  function ParseEthernet(f: seq<Byte>, at: nat): Option<Parsed> {
    if at + 14 > |f| then None else Some(Parsed(Get16(f, at + 12), at + 14))
  }

  /** The header length in words is the low nibble of the first byte. */
  function ParseIp4(f: seq<Byte>, at: nat): Option<Parsed> {
    if at + 20 > |f| then None else Some(Parsed(f[at + 9], at + f[at] % 16 * 4))
  }

  function ParseIp6(f: seq<Byte>, at: nat): Option<Parsed> {
    if at + 40 > |f| then None else Some(Parsed(f[at + 6], at + 40))
  }

  function ParseUdp(f: seq<Byte>, at: nat): Option<Parsed> {
    if at + 8 > |f| then None else Some(Parsed(Get16(f, at + 2), at + 8))
  }

  /** Any of the flags E, S and PN announces eight more bytes. */
  function GtpExtra(flags: Byte): nat { if flags % 8 != 0 then 8 else 0 }

  function ParseGtp(f: seq<Byte>, at: nat): Option<Parsed> {
    if at + 8 > |f| then None else Some(Parsed(f[at + 1], at + 8 + GtpExtra(f[at])))
  }

  /** context_reinit: Ethernet, then IPv4 or IPv6. */
  function Reinit(f: seq<Byte>): bool {
    match ParseEthernet(f, 0)
    case None => false
    case Some(p) =>
      if p.field == ETH_P_IPV6 then ParseIp6(f, 14).Some?
      else if p.field == ETH_P_IP then ParseIp4(f, 14).Some?
      else false
  }

  /** The pointers and the cursor context_reinit leaves: Ethernet, IPv4, IPv6, cursor. */
  function Reparsed(f: seq<Byte>): (Option<nat>, Option<nat>, Option<nat>, nat) {
    match ParseEthernet(f, 0)
    case None => (None, None, None, 0)
    case Some(p) =>
      if p.field == ETH_P_IPV6 && ParseIp6(f, 14).Some? then (Some(0), None, Some(14), 54)
      else if p.field == ETH_P_IP && ParseIp4(f, 14).Some? then (Some(0), Some(14), None, ParseIp4(f, 14).value.cursor)
      else (Some(0), None, None, 14)
  }

  // ---------------------------------------------------------------- the headers added

  /** fill_ip_header, with the checksum word stored as the host does. */
  function IpHeader(saddr: Ip4, daddr: Ip4, tos: Byte, len: nat, check: Word): (b: seq<Byte>)
    ensures |b| == 20
  {
    [0x45, tos] + Be16(len) + [0, 0, 0x40, 0, 64, 17, check % 0x100, check / 0x100] + saddr + daddr
  }

  function UdpHeader(port: nat, len: nat): (b: seq<Byte>)
    ensures |b| == 8
  {
    Be16(port) + Be16(port) + Be16(len) + [0, 0]
  }

  /** Version 1, protocol type GTP, E flag set: 0x34. */
  function GtpHeader(teid: nat, len: nat): (b: seq<Byte>)
    ensures |b| == 8
  {
    [0x34, GTPU_G_PDU] + Be16(len) + Be32(teid)
  }

  /** Sequence number and N-PDU 0, then a PDU Session Container with the QFI. */
  function GtpExtension(qfi: Byte): (b: seq<Byte>)
    ensures |b| == 8
  {
    [0, 0, 0, 0x85, 1, 0, qfi % 64, 0]
  }

  /** The checksum ipv4_csum yields for the header with a zeroed checksum word. */
  function HeaderChecksum(header: seq<Byte>): Word
    requires |header| == 20
  {
    Complement(OnesSum(HostWords(header)))
  }

  /** All 44 bytes between the Ethernet header and the inner packet. */
  function TunnelHeaders(saddr: Ip4, daddr: Ip4, tos: Byte, qfi: Byte, teid: nat, ipLen: nat): (b: seq<Byte>)
    ensures |b| == 44
  {
    var check := HeaderChecksum(IpHeader(saddr, daddr, tos, ipLen + 44, 0));
    IpHeader(saddr, daddr, tos, ipLen + 44, check) + UdpHeader(GTP_UDP_PORT, ipLen + 24)
    + GtpHeader(teid, ipLen + 8) + GtpExtension(qfi)
  }

  /** The frame add_gtp_over_ip4_headers builds: old MAC addresses, IPv4, the tunnel, the old payload. */
  function Encapsulated(f: seq<Byte>, saddr: Ip4, daddr: Ip4, tos: Byte, qfi: Byte, teid: nat, ipLen: nat): seq<Byte>
    requires |f| >= 14
  {
    f[..12] + Be16(ETH_P_IP) + TunnelHeaders(saddr, daddr, tos, qfi, teid, ipLen) + f[14..]
  }

  // ---------------------------------------------------------------- stripping

  /** guess_eth_protocol: from the IP version nibble. */
  function GuessEthertype(first: Byte): Option<nat> {
    if first / 16 == 6 then Some(ETH_P_IPV6) else if first / 16 == 4 then Some(ETH_P_IP) else None
  }

  /** IPv4, UDP and GTP headers with what the GTP flags announce. */
  function StripSize(flags: Byte): nat { 36 + GtpExtra(flags) }

  /** The frame remove_gtp_header leaves, if it gets as far as moving the Ethernet header. */
  function Stripped(f: seq<Byte>, flags: Byte): Option<seq<Byte>> {
    var size := StripSize(flags);
    if size + 15 > |f| then None
    else
      match GuessEthertype(f[size + 14])
      case None => None
      case Some(proto) => Some(f[..12] + Be16(proto) + f[size + 14..])
  }
}
