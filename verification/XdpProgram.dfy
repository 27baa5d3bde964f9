/**
 * The packet buffer with its headroom, the header cursor, and the in-place operations of the
 * data plane, each proved against the frame it must produce.
 */
module XdpProgram {
  import opened Base
  import opened Checksum
  import opened Packets

  lemma Overwritten(before: seq<Byte>, after: seq<Byte>, at: nat, bytes: seq<Byte>)
    requires |before| == |after| && at + |bytes| <= |before|
    requires forall k :: 0 <= k < |bytes| ==> after[at + k] == bytes[k]
    requires forall k :: 0 <= k < |before| && !(at <= k < at + |bytes|) ==> after[k] == before[k]
    ensures after == before[..at] + bytes + before[at + |bytes|..]
  {
    assert after[at..at + |bytes|] == bytes;
    assert after[..at] == before[..at] && after[at + |bytes|..] == before[at + |bytes|..];
    assert after == after[..at] + after[at..at + |bytes|] + after[at + |bytes|..];
  }

  /** xdp_md: the frame is mem[data..end]; the bytes before it are headroom. */
  class XdpBuffer {
    const mem: array<Byte>
    var data: nat
    const end: nat

    ghost predicate Valid()
      reads this
    {
      data <= end <= mem.Length && mem as object != this
    }

    ghost function Frame(): seq<Byte>
      requires Valid()
      reads this, mem
    {
      mem[data..end]
    }

    constructor (headroom: nat, frame: seq<Byte>)
      ensures Valid() && data == headroom && Frame() == frame && fresh(mem)
    {
      var m := new Byte[headroom + |frame|](
        i requires 0 <= i < headroom + |frame| => if i < headroom then 0 else frame[i - headroom]);
      mem, data, end := m, headroom, headroom + |frame|;
    }

    /** bpf_xdp_adjust_head: fails without room, or if no Ethernet header would be left. */
    method AdjustHead(delta: int) returns (ok: bool)
      requires Valid()
      modifies this
      ensures Valid()
      ensures ok <==> 0 <= old(data) + delta <= end - 14
      ensures data == if ok then old(data) + delta else old(data)
    {
      ok := 0 <= data + delta && data + delta <= end - 14;
      if ok {
        data := data + delta;
      }
    }

    /** A copy of the frame's bytes from lo up to hi. */
    method Slice(lo: nat, hi: nat) returns (b: seq<Byte>)
      requires Valid() && lo <= hi <= end - data
      ensures b == Frame()[lo..hi]
    {
      b := mem[data + lo..data + hi];
      assert |b| == hi - lo && forall i :: 0 <= i < hi - lo ==> b[i] == Frame()[lo..hi][i];
    }

    /** Overwrites the frame from position at with the given bytes. */
    method Write(at: nat, bytes: seq<Byte>)
      requires Valid() && at + |bytes| <= end - data
      modifies mem
      ensures Frame() == old(Frame())[..at] + bytes + old(Frame())[at + |bytes|..]
      ensures mem[..data] == old(mem[..data])
    {
      for i := 0 to |bytes|
        invariant forall k :: 0 <= k < i ==> mem[data + at + k] == bytes[k]
        invariant forall k :: 0 <= k < mem.Length && !(data + at <= k < data + at + i) ==> mem[k] == old(mem[k])
      {
        mem[data + at + i] := bytes[i];
      }
      Overwritten(old(Frame()), Frame(), at, bytes);
    }

    /** Grows the frame by 44 bytes and writes Ethernet and tunnel headers over its new front. */
    method PrependTunnel(saddr: Ip4, daddr: Ip4, tos: Byte, qfi: Byte, teid: nat, ipLen: nat) returns (ok: bool)
      requires Valid() && end - data >= 14
      modifies this, mem
      ensures Valid()
      ensures ok <==> old(data) >= 44
      ensures ok ==> end - data >= 58 && Frame() == Encapsulated(old(Frame()), saddr, daddr, tos, qfi, teid, ipLen)
      ensures !ok ==> data == old(data) && Frame() == old(Frame())
    {
      ghost var f := Frame();
      ok := AdjustHead(-44);
      if ok {
        ghost var grown := Frame();
        assert grown[44..] == f;
        var macs := Slice(44, 56);
        assert macs == f[..12];
        var front := TunnelFront(macs, saddr, daddr, tos, qfi, teid, ipLen);
        Write(0, front);
        assert grown[..0] == [] && grown[58..] == f[14..];
      }
    }

    /** Drops size bytes and puts an Ethernet header with the old MAC addresses in front of the rest. */
    method MoveEthernet(size: nat, proto: nat)
      requires Valid() && size + 14 <= end - data
      modifies this, mem
      ensures Valid() && data == old(data) + size
      ensures Frame() == old(Frame())[..12] + Be16(proto) + old(Frame())[size + 14..]
    {
      ghost var f := Frame();
      var macs := Slice(0, 12);
      Write(size, macs + Be16(proto));
      ghost var moved := Frame();
      assert moved[size..] == f[..12] + Be16(proto) + f[size + 14..];
      var _ := AdjustHead(size);
      assert Frame() == moved[size..];
    }
  }

  /** packet_context: header positions within the frame, absent when the pointer is null. */
  class PacketContext {
    const buf: XdpBuffer
    var cursor: nat
    var eth: Option<nat>
    var ip4: Option<nat>
    var ip6: Option<nat>
    var udp: Option<nat>
    var gtp: Option<nat>

    /** Pointers that are set point at whole headers inside the frame. */
    ghost predicate Valid()
      reads this, buf
    {
      && buf.Valid() && buf as object != this && buf.mem as object != this
      && var n := buf.end - buf.data;
      && (eth.Some? ==> eth.value + 14 <= n)
      && (ip4.Some? ==> 14 <= ip4.value && ip4.value + 20 <= n)
      && (ip6.Some? ==> 14 <= ip6.value && ip6.value + 40 <= n)
      && (udp.Some? ==> udp.value + 8 <= n)
      && (gtp.Some? ==> gtp.value + 8 <= n)
    }

    ghost function Frame(): seq<Byte>
      requires Valid()
      reads this, buf, buf.mem
    {
      buf.Frame()
    }

    constructor (buf: XdpBuffer)
      requires buf.Valid()
      ensures Valid() && this.buf == buf && cursor == 0
      ensures eth == None && ip4 == None && ip6 == None && udp == None && gtp == None
    {
      this.buf := buf;
      cursor := 0;
      eth, ip4, ip6, udp, gtp := None, None, None, None, None;
    }

    // -------------------------------------------------------------- parsers

    /** The byte at a position of the frame. */
    method Read(at: nat) returns (b: Byte)
      requires Valid() && at < buf.end - buf.data
      ensures b == Frame()[at]
    {
      b := buf.mem[buf.data + at];
    }

    method Read16(at: nat) returns (n: nat)
      requires Valid() && at + 2 <= buf.end - buf.data
      ensures n == Get16(Frame(), at)
    {
      var high, low := buf.mem[buf.data + at], buf.mem[buf.data + at + 1];
      n := 0x100 * (high as int) + low;
    }

    /** parse_ethernet. */
    method ParseEth() returns (proto: Option<nat>)
      requires Valid()
      modifies this`cursor, this`eth
      ensures Valid()
      ensures match ParseEthernet(Frame(), old(cursor))
              case None => proto == None && cursor == old(cursor) && eth == old(eth)
              case Some(p) => proto == Some(p.field) && cursor == p.cursor && eth == Some(old(cursor))
    {
      if cursor + 14 > buf.end - buf.data {
        return None;
      }
      var n := Read16(cursor + 12);
      eth, cursor := Some(cursor), cursor + 14;
      return Some(n);
    }

    /** parse_ip4. */
    method ParseIpv4() returns (proto: Option<nat>)
      requires Valid() && cursor >= 14
      modifies this`cursor, this`ip4
      ensures Valid() && cursor >= 14
      ensures match ParseIp4(Frame(), old(cursor))
              case None => proto == None && cursor == old(cursor) && ip4 == old(ip4)
              case Some(p) => proto == Some(p.field) && cursor == p.cursor && ip4 == Some(old(cursor))
    {
      if cursor + 20 > buf.end - buf.data {
        return None;
      }
      var first := Read(cursor);
      var protocol := Read(cursor + 9);
      ip4, cursor := Some(cursor), cursor + first % 16 * 4;
      return Some(protocol);
    }

    /** parse_ip6. */
    method ParseIpv6() returns (proto: Option<nat>)
      requires Valid() && cursor >= 14
      modifies this`cursor, this`ip6
      ensures Valid() && cursor >= 14
      ensures match ParseIp6(Frame(), old(cursor))
              case None => proto == None && cursor == old(cursor) && ip6 == old(ip6)
              case Some(p) => proto == Some(p.field) && cursor == p.cursor && ip6 == Some(old(cursor))
    {
      if cursor + 40 > buf.end - buf.data {
        return None;
      }
      var next := Read(cursor + 6);
      ip6, cursor := Some(cursor), cursor + 40;
      return Some(next);
    }

    /** parse_udp: the destination port. */
    method ParseUdpHeader() returns (port: Option<nat>)
      requires Valid()
      modifies this`cursor, this`udp
      ensures Valid()
      ensures match ParseUdp(Frame(), old(cursor))
              case None => port == None && cursor == old(cursor) && udp == old(udp)
              case Some(p) => port == Some(p.field) && cursor == p.cursor && udp == Some(old(cursor))
    {
      if cursor + 8 > buf.end - buf.data {
        return None;
      }
      var n := Read16(cursor + 2);
      udp, cursor := Some(cursor), cursor + 8;
      return Some(n);
    }

    /** parse_gtp: the message type. */
    method ParseGtpHeader() returns (kind: Option<nat>)
      requires Valid()
      modifies this`cursor, this`gtp
      ensures Valid()
      ensures match ParseGtp(Frame(), old(cursor))
              case None => kind == None && cursor == old(cursor) && gtp == old(gtp)
              case Some(p) => kind == Some(p.field) && cursor == p.cursor && gtp == Some(old(cursor))
    {
      if cursor + 8 > buf.end - buf.data {
        return None;
      }
      var flags := Read(cursor);
      var n := Read(cursor + 1);
      gtp, cursor := Some(cursor), cursor + 8 + GtpExtra(flags);
      return Some(n);
    }

    /** context_reinit: forget all headers and parse Ethernet and IP again. */
    method ContextReinit() returns (ok: bool)
      requires buf.Valid() && buf as object != this && buf.mem as object != this
      modifies this
      ensures Valid() && ok == Reinit(Frame())
      ensures (eth, ip4, ip6, cursor) == Reparsed(Frame()) && udp == None && gtp == None
    {
      cursor := 0;
      eth, ip4, ip6, udp, gtp := None, None, None, None, None;
      var proto := ParseEth();
      if proto == Some(ETH_P_IPV6) {
        var next := ParseIpv6();
        return next.Some?;
      } else if proto == Some(ETH_P_IP) {
        var next := ParseIpv4();
        return next.Some?;
      }
      return false;
    }

    // -------------------------------------------------------------- tunnelling

    /** The length of the inner packet as its own IP header states it. */
    ghost function InnerLength(): Option<nat>
      requires Valid()
      reads this, buf, buf.mem
    {
      if ip4.Some? then Some(Get16(Frame(), ip4.value + 2))
      else if ip6.Some? then Some(Get16(Frame(), ip6.value + 4) + 40)
      else None
    }

    method ReadInnerLength() returns (n: Option<nat>)
      requires Valid()
      ensures n == InnerLength()
    {
      n := None;
      if ip4.Some? {
        var total := Read16(ip4.value + 2);
        return Some(total);
      }
      if ip6.Some? {
        var payload := Read16(ip6.value + 4);
        return Some(payload + 40);
      }
    }

    /**
     * add_gtp_over_ip4_headers.  The new headers overwrite the old Ethernet header in place, so
     * its MAC addresses are copied to the front first.
     */
    method AddGtpOverIp4Headers(saddr: Ip4, daddr: Ip4, tos: Byte, qfi: Byte, teid: nat) returns (ok: bool)
      requires Valid()
      modifies this, buf, buf.mem
      ensures Valid()
      ensures ok <==> old(InnerLength()).Some? && old(buf.data) >= 44
      ensures ok ==> Frame() == Encapsulated(old(Frame()), saddr, daddr, tos, qfi, teid, old(InnerLength()).value)
      ensures ok ==> cursor == 0 && eth == Some(0) && ip4 == Some(14) && ip6 == None
      ensures ok ==> udp == Some(34) && gtp == Some(42)
      ensures !ok ==> Frame() == old(Frame()) && unchanged(this)
    {
      var ipLen := ReadInnerLength();
      ok := false;
      if ipLen.Some? {
        ok := buf.PrependTunnel(saddr, daddr, tos, qfi, teid, ipLen.value);
      }
      if ok {
        cursor := 0;
        eth, ip4, ip6, udp, gtp := Some(0), Some(14), None, Some(34), Some(42);
      }
    }

    /** remove_gtp_header: 0 is success; a frame already stripped may still fail to parse. */
    method RemoveGtpHeader() returns (ok: bool)
      requires Valid()
      modifies this, buf, buf.mem
      ensures Valid()
      ensures match (if old(gtp).Some? then Stripped(old(Frame()), old(Frame())[old(gtp).value]) else None)
              case None => !ok && Frame() == old(Frame()) && unchanged(this)
              case Some(g) => Frame() == g && ok == Reinit(g) && (eth, ip4, ip6, cursor) == Reparsed(g)
                              && udp == None && gtp == None
    {
      if gtp.None? {
        return false;
      }
      var flags := Read(gtp.value);
      var size := StripSize(flags);
      if size + 15 > buf.end - buf.data {
        return false;
      }
      var first := Read(size + 14);
      var proto := GuessEthertype(first);
      if proto.None? {
        return false;
      }
      buf.MoveEthernet(size, proto.value);
      ok := ContextReinit();
    }
  }

  /** The 58 bytes in front of the inner packet. */
  method TunnelFront(macs: seq<Byte>, saddr: Ip4, daddr: Ip4, tos: Byte, qfi: Byte, teid: nat, ipLen: nat)
    returns (b: seq<Byte>)
    requires |macs| == 12
    ensures b == macs + Be16(ETH_P_IP) + TunnelHeaders(saddr, daddr, tos, qfi, teid, ipLen)
  {
    var blank := IpHeader(saddr, daddr, tos, ipLen + 44, 0);
    var check := HeaderCsum(blank);
    var ip := IpHeader(saddr, daddr, tos, ipLen + 44, check);
    b := macs + Be16(ETH_P_IP)
         + (ip + UdpHeader(GTP_UDP_PORT, ipLen + 24) + GtpHeader(teid, ipLen + 8) + GtpExtension(qfi));
  }

  /** ipv4_csum over a header, with the kernel's sum taken as any that bpf_csum_diff may return. */
  method HeaderCsum(header: seq<Byte>) returns (check: Word)
    requires |header| == 20
    ensures check == HeaderChecksum(header)
  {
    var words := HostWords(header);
    WordsLength(header);
    PlainSumBound(words);
    assert IsCsumDiff(words, PlainSum(words));
    var diff: nat :| diff < 0x1_0000_0000 && IsCsumDiff(words, diff);
    check := Ipv4Csum(words, diff);
  }

  lemma {:induction false} PlainSumBound(words: seq<Word>)
    ensures PlainSum(words) <= 0xFFFF * |words|
  {
    if words != [] { PlainSumBound(words[1..]); }
  }
}
