/** GTP-U tunnelling (TS 29.281 section 5.1): round trip, parse back, nesting of lengths, checksum. */
module Tunnel {
  import opened Base
  import opened Checksum
  import opened Packets

  /** The frame's ethertype says what the version nibble of its payload says. */
  predicate EthertypeAgrees(f: seq<Byte>)
    requires |f| >= 15
  {
    match GuessEthertype(f[14])
    case None => false
    case Some(proto) => f[12..14] == Be16(proto)
  }

  lemma TunnelLayout(saddr: Ip4, daddr: Ip4, tos: Byte, qfi: Byte, teid: nat, ipLen: nat)
    ensures var h := TunnelHeaders(saddr, daddr, tos, qfi, teid, ipLen);
      && |h| == 44
      && h[..20] == IpHeader(saddr, daddr, tos, ipLen + 44, HeaderChecksum(IpHeader(saddr, daddr, tos, ipLen + 44, 0)))
      && h[20..28] == UdpHeader(GTP_UDP_PORT, ipLen + 24)
      && h[28..36] == GtpHeader(teid, ipLen + 8)
      && h[36..44] == GtpExtension(qfi)
  {
    var ip := IpHeader(saddr, daddr, tos, ipLen + 44, HeaderChecksum(IpHeader(saddr, daddr, tos, ipLen + 44, 0)));
    Concatenated(ip, UdpHeader(GTP_UDP_PORT, ipLen + 24), GtpHeader(teid, ipLen + 8), GtpExtension(qfi));
  }

  lemma Concatenated(a: seq<Byte>, b: seq<Byte>, c: seq<Byte>, d: seq<Byte>)
    requires |a| == 20 && |b| == |c| == |d| == 8
    ensures var s := a + b + c + d;
      |s| == 44 && s[..20] == a && s[20..28] == b && s[28..36] == c && s[36..44] == d
  {
  }

  /** Headers h between a new Ethernet header and the old payload. */
  lemma Embedded(f: seq<Byte>, ethertype: seq<Byte>, h: seq<Byte>)
    requires |f| >= 14 && |ethertype| == 2 && |h| == 44
    ensures var g := f[..12] + ethertype + h + f[14..];
      && |g| == |f| + 44 && g[..12] == f[..12] && g[12..14] == ethertype && g[58..] == f[14..]
      && g[14..34] == h[..20] && g[34..42] == h[20..28] && g[42..50] == h[28..36] && g[50..58] == h[36..44]
  {
  }

  /** Where the tunnel headers lie in an encapsulated frame. */
  lemma EncapsulatedLayout(f: seq<Byte>, saddr: Ip4, daddr: Ip4, tos: Byte, qfi: Byte, teid: nat, ipLen: nat)
    requires |f| >= 14
    ensures var g := Encapsulated(f, saddr, daddr, tos, qfi, teid, ipLen);
      && |g| == |f| + 44 && g[..12] == f[..12] && g[12..14] == Be16(ETH_P_IP)
      && g[14..34] == IpHeader(saddr, daddr, tos, ipLen + 44,
                               HeaderChecksum(IpHeader(saddr, daddr, tos, ipLen + 44, 0)))
      && g[34..42] == UdpHeader(GTP_UDP_PORT, ipLen + 24)
      && g[42..50] == GtpHeader(teid, ipLen + 8)
      && g[50..58] == GtpExtension(qfi)
      && g[58..] == f[14..]
  {
    TunnelLayout(saddr, daddr, tos, qfi, teid, ipLen);
    Embedded(f, Be16(ETH_P_IP), TunnelHeaders(saddr, daddr, tos, qfi, teid, ipLen));
  }

  /**
   * Decapsulation undoes encapsulation exactly for frames whose ethertype agrees with their IP
   * version nibble; a frame of another version is refused.
   */
  lemma RoundTripIff(f: seq<Byte>, saddr: Ip4, daddr: Ip4, tos: Byte, qfi: Byte, teid: nat, ipLen: nat)
    requires |f| >= 15
    ensures var g := Encapsulated(f, saddr, daddr, tos, qfi, teid, ipLen);
      Stripped(g, g[42]) == Some(f) <==> EthertypeAgrees(f)
  {
    var g := Encapsulated(f, saddr, daddr, tos, qfi, teid, ipLen);
    EncapsulatedLayout(f, saddr, daddr, tos, qfi, teid, ipLen);
    assert g[42] == g[42..50][0] == 0x34;
    assert g[58] == g[58..][0] == f[14];
    match GuessEthertype(f[14]) {
      case None =>
      case Some(proto) =>
        Reheaded(f, proto);
    }
  }

  lemma Reheaded(f: seq<Byte>, proto: nat)
    requires |f| >= 14
    ensures f[..12] + Be16(proto) + f[14..] == f <==> f[12..14] == Be16(proto)
  {
    assert f == f[..12] + f[12..14] + f[14..];
    var h := f[..12] + Be16(proto) + f[14..];
    assert h[12..14] == Be16(proto);
  }

  /**
   * The ingress parsers on an encapsulated frame: IPv4, UDP to port 2152, a G-PDU with the same
   * TEID, and the cursor on the first byte of the inner packet.
   */
  lemma ParsesBack(f: seq<Byte>, saddr: Ip4, daddr: Ip4, tos: Byte, qfi: Byte, teid: nat, ipLen: nat)
    requires |f| >= 14
    ensures var g := Encapsulated(f, saddr, daddr, tos, qfi, teid, ipLen);
      && ParseEthernet(g, 0) == Some(Parsed(ETH_P_IP, 14))
      && ParseIp4(g, 14) == Some(Parsed(17, 34))
      && ParseUdp(g, 34) == Some(Parsed(GTP_UDP_PORT, 42))
      && ParseGtp(g, 42) == Some(Parsed(GTPU_G_PDU, 58))
      && Get32(g, 46) == teid % 0x1_0000_0000
      && g[26..30] == saddr && g[30..34] == daddr && g[56] == qfi % 64
      && g[58..] == f[14..]
  {
    var g := Encapsulated(f, saddr, daddr, tos, qfi, teid, ipLen);
    EncapsulatedLayout(f, saddr, daddr, tos, qfi, teid, ipLen);
    var ip, udp, gtp, ext := g[14..34], g[34..42], g[42..50], g[50..58];
    Get16Back(g, 12, ETH_P_IP);
    assert g[14] == ip[0] && g[23] == ip[9];
    assert g[26..30] == ip[12..16] && g[30..34] == ip[16..20];
    assert g[36..38] == udp[2..4] == Be16(GTP_UDP_PORT);
    Get16Back(g, 36, GTP_UDP_PORT);
    assert g[42] == gtp[0] && g[43] == gtp[1];
    assert g[46..50] == gtp[4..8] == Be32(teid);
    Get32Back(g, 46, teid);
    assert g[56] == ext[6];
  }

  /** Total, UDP and GTP lengths of an encapsulated frame. */
  lemma LengthFields(f: seq<Byte>, saddr: Ip4, daddr: Ip4, tos: Byte, qfi: Byte, teid: nat, ipLen: nat)
    requires |f| >= 14
    ensures var g := Encapsulated(f, saddr, daddr, tos, qfi, teid, ipLen);
      && Get16(g, 16) == (ipLen + 44) % 0x1_0000
      && Get16(g, 38) == (ipLen + 24) % 0x1_0000
      && Get16(g, 44) == (ipLen + 8) % 0x1_0000
  {
    var g := Encapsulated(f, saddr, daddr, tos, qfi, teid, ipLen);
    EncapsulatedLayout(f, saddr, daddr, tos, qfi, teid, ipLen);
    assert g[16..18] == g[14..34][2..4] && g[38..40] == g[34..42][4..6] && g[44..46] == g[42..50][2..4];
    Get16Back(g, 16, ipLen + 44);
    Get16Back(g, 38, ipLen + 24);
    Get16Back(g, 44, ipLen + 8);
  }

  /**
   * The lengths nest -- IP covers its header and UDP, UDP its header and GTP, GTP its extension
   * and an inner packet of ipLen bytes -- exactly when the inner packet has at most 65491 bytes.
   */
  lemma LengthsNestIff(f: seq<Byte>, saddr: Ip4, daddr: Ip4, tos: Byte, qfi: Byte, teid: nat, ipLen: nat)
    requires |f| >= 14 && ipLen < 0x1_0000 + 40
    ensures var g := Encapsulated(f, saddr, daddr, tos, qfi, teid, ipLen);
      (Get16(g, 16) == 20 + Get16(g, 38) && Get16(g, 38) == 16 + Get16(g, 44) && Get16(g, 44) == 8 + ipLen)
      <==> ipLen <= 65491
  {
    LengthFields(f, saddr, daddr, tos, qfi, teid, ipLen);
    NestingArithmetic(ipLen);
  }

  lemma NestingArithmetic(ipLen: nat)
    requires ipLen < 0x1_0000 + 40
    ensures var total, udp, gtp := (ipLen + 44) % 0x1_0000, (ipLen + 24) % 0x1_0000, (ipLen + 8) % 0x1_0000;
      (total == 20 + udp && udp == 16 + gtp && gtp == 8 + ipLen) <==> ipLen <= 65491
  {
  }

  // ---------------------------------------------------------------- the outer checksum

  /** A header with a zeroed checksum, but not all zero, verifies once its checksum is filled in. */
  lemma BlankHeaderVerifies(blank: seq<Byte>)
    requires |blank| == 20 && blank[10] == blank[11] == 0 && blank[9] != 0
    ensures var check := HeaderChecksum(blank);
      Verifies(HostWords(blank[..10] + [check % 0x100, check / 0x100] + blank[12..]))
  {
    var check := HeaderChecksum(blank);
    var full := blank[..10] + [check % 0x100, check / 0x100] + blank[12..];
    WordsLength(blank);
    WordsLength(full);
    var words := HostWords(blank);
    assert HostWords(full) == words[5 := check] by {
      forall i | 0 <= i < 10 ensures HostWords(full)[i] == words[5 := check][i] {
        if i != 5 { assert full[2 * i] == blank[2 * i] && full[2 * i + 1] == blank[2 * i + 1]; }
      }
    }
    assert words[5] == 0;
    assert words[4] == blank[8] + 0x100 * (blank[9] as int);
    PlainSumAt(words, 4, 0);
    ChecksumVerifies(words, 5);
  }

  lemma FilledHeaderVerifies(saddr: Ip4, daddr: Ip4, tos: Byte, len: nat)
    ensures var check := HeaderChecksum(IpHeader(saddr, daddr, tos, len, 0));
      Verifies(HostWords(IpHeader(saddr, daddr, tos, len, check)))
  {
    var blank := IpHeader(saddr, daddr, tos, len, 0);
    var check := HeaderChecksum(blank);
    assert IpHeader(saddr, daddr, tos, len, check) == blank[..10] + [check % 0x100, check / 0x100] + blank[12..];
    BlankHeaderVerifies(blank);
  }

  /** The outer IPv4 header of every encapsulated frame verifies (RFC 1071 section 1). */
  lemma OuterHeaderVerifies(f: seq<Byte>, saddr: Ip4, daddr: Ip4, tos: Byte, qfi: Byte, teid: nat, ipLen: nat)
    requires |f| >= 14
    ensures Verifies(HostWords(Encapsulated(f, saddr, daddr, tos, qfi, teid, ipLen)[14..34]))
  {
    EncapsulatedLayout(f, saddr, daddr, tos, qfi, teid, ipLen);
    FilledHeaderVerifies(saddr, daddr, tos, ipLen + 44);
  }

  // ---------------------------------------------------------------- strip point

  /**
   * For any frame whose GTP header was parsed behind IPv4 and UDP, the cursor parse_gtp leaves is
   * the byte behind the Ethernet header after stripping exactly when the outer IPv4 header has no
   * options.
   */
  lemma StripPointIsCursorIff(f: seq<Byte>)
    requires ParseIp4(f, 14).Some? && ParseUdp(f, ParseIp4(f, 14).value.cursor).Some?
    requires var at := ParseUdp(f, ParseIp4(f, 14).value.cursor).value.cursor; ParseGtp(f, at).Some?
    ensures var at := ParseUdp(f, ParseIp4(f, 14).value.cursor).value.cursor;
      ParseGtp(f, at).value.cursor == 14 + StripSize(f[at]) <==> f[14] % 16 == 5
  {
  }
}
