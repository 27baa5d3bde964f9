/**
 * The in-place GTP-U echo response (TS 29.281 section 7.2): what the requester sees of it, its
 * lengths, and its IPv4 checksum.
 */
module Echo {
  import opened Base
  import opened Checksum
  import opened Packets
  import opened Tunnel
  import opened XdpProgram
  import opened Icmp
  import opened Pipeline

  /** f with the bytes from position at on replaced. */
  function Patch(f: seq<Byte>, at: nat, bytes: seq<Byte>): (r: seq<Byte>)
    requires at + |bytes| <= |f|
    ensures |r| == |f| && forall k :: 0 <= k < |f| ==> r[k] == if at <= k < at + |bytes| then bytes[k - at] else f[k]
  {
    seq(|f|, k requires 0 <= k < |f| => if at <= k < at + |bytes| then bytes[k - at] else f[k])
  }

  lemma PatchIsSplice(f: seq<Byte>, at: nat, bytes: seq<Byte>)
    requires at + |bytes| <= |f|
    ensures Patch(f, at, bytes) == f[..at] + bytes + f[at + |bytes|..]
  {
  }

  /** Writing through the buffer patches the frame. */
  method Overwrite(buf: XdpBuffer, at: nat, bytes: seq<Byte>)
    requires buf.Valid() && at + |bytes| <= buf.end - buf.data
    modifies buf.mem
    ensures buf.Frame() == Patch(old(buf.Frame()), at, bytes)
  {
    PatchIsSplice(buf.Frame(), at, bytes);
    buf.Write(at, bytes);
  }

  /** swap_port: the ports change places and the UDP checksum is switched off. */
  function SwapPorts(f: seq<Byte>, udp: nat): seq<Byte>
    requires udp + 8 <= |f|
  {
    Patch(f, udp, f[udp + 2..udp + 4] + f[udp..udp + 2] + f[udp + 4..udp + 6] + [0, 0])
  }

  /** The request turned around: type 2, and addresses and ports swapped. */
  function Turned(f: seq<Byte>, ip: nat, udp: nat, gtp: nat): (r: seq<Byte>)
    requires 14 <= ip && ip + 20 <= |f| && udp + 8 <= |f| && gtp + 8 <= |f|
    ensures |r| == |f|
  {
    SwapMacs(SwapPorts(SwapIps(Patch(f, gtp + 1, [2]), ip), udp))
  }

  /** insert_recovery puts its element behind the header and its optional word, if the frame reaches that far. */
  function RecoveryAt(f: seq<Byte>, gtp: nat): (at: Option<nat>)
    requires gtp + 8 <= |f|
    ensures at.Some? ==> gtp + 8 <= at.value && at.value + 2 <= |f|
  {
    var at := gtp + 8 + if f[gtp] % 8 != 0 then 4 else 0;
    if at + 2 <= |f| then Some(at) else None
  }

  /** A length field made larger by the two bytes of the Recovery element. */
  function Grow(f: seq<Byte>, at: nat): (r: seq<Byte>)
    requires at + 2 <= |f|
    ensures |r| == |f|
  {
    Patch(f, at, PlusTwo(f[at], f[at + 1]))
  }

  /** A 16-bit number in network byte order plus 2, wrapping around. */
  function PlusTwo(high: Byte, low: Byte): (b: seq<Byte>)
    ensures |b| == 2
  {
    if low < 0xFE then [high, low + 2] else if high < 0xFF then [high + 1, low - 0xFE] else [0, low - 0xFE]
  }

  lemma PlusTwoIsBe16(high: Byte, low: Byte)
    ensures PlusTwo(high, low) == Be16(0x100 * (high as int) + low + 2)
  {
  }

  /** The header checksum computed afresh over 20 bytes. */
  function Rechecked(f: seq<Byte>, ip: nat): (r: seq<Byte>)
    requires ip + 20 <= |f|
    ensures |r| == |f|
  {
    var zeroed := Patch(f, ip + 10, [0, 0]);
    var check := HeaderChecksum(zeroed[ip..ip + 20]);
    Patch(zeroed, ip + 10, [check % 0x100, check / 0x100])
  }

  /** All three length fields made larger. */
  function Lengthened(f: seq<Byte>, ip: nat, udp: nat, gtp: nat): (r: seq<Byte>)
    requires ip + 20 <= |f| && udp + 8 <= |f| && gtp + 8 <= |f|
    ensures |r| == |f|
  {
    GrowOuter(Grow(f, gtp + 2), ip, udp)
  }

  function GrowOuter(f: seq<Byte>, ip: nat, udp: nat): (r: seq<Byte>)
    requires ip + 20 <= |f| && udp + 8 <= |f|
    ensures |r| == |f|
  {
    Grow(Grow(f, udp + 4), ip + 2)
  }

  /** The frame handle_echo_request leaves. */
  function EchoResponse(f: seq<Byte>, ip: nat, udp: nat, gtp: nat): (r: seq<Byte>)
    requires 14 <= ip && ip + 20 <= |f| && udp + 8 <= |f| && gtp + 8 <= |f|
    ensures |r| == |f|
  {
    var t := Turned(f, ip, udp, gtp);
    match RecoveryAt(t, gtp)
    case None => t
    case Some(at) => Rechecked(Lengthened(Patch(t, at, [14, 0]), ip, udp, gtp), ip)
  }

  // ---------------------------------------------------------------- on the buffer

  /** swap_port on the buffer. */
  method SwapPort(buf: XdpBuffer, udp: nat)
    requires buf.Valid() && udp + 8 <= buf.end - buf.data
    modifies buf.mem
    ensures buf.Frame() == SwapPorts(old(buf.Frame()), udp)
  {
    var source := buf.Slice(udp, udp + 2);
    var dest := buf.Slice(udp + 2, udp + 4);
    var length := buf.Slice(udp + 4, udp + 6);
    Overwrite(buf, udp, dest + source + length + [0, 0]);
  }

  method GrowLength(buf: XdpBuffer, at: nat)
    requires buf.Valid() && at + 2 <= buf.end - buf.data
    modifies buf.mem
    ensures buf.Frame() == Grow(old(buf.Frame()), at)
  {
    var b := buf.Slice(at, at + 2);
    PlusTwoIsBe16(b[0], b[1]);
    Overwrite(buf, at, Be16(0x100 * (b[0] as int) + b[1] + 2));
  }

  /** insert_recovery: where the element was put, or None if the frame is too short. */
  method InsertRecovery(buf: XdpBuffer, gtp: nat) returns (at: Option<nat>)
    requires buf.Valid() && gtp + 8 <= buf.end - buf.data
    modifies buf.mem
    ensures at == RecoveryAt(old(buf.Frame()), gtp)
    ensures buf.Frame() == if at.Some? then Patch(old(buf.Frame()), at.value, [14, 0]) else old(buf.Frame())
  {
    var flags := buf.Slice(gtp, gtp + 1);
    var place := gtp + 8;
    if flags[0] % 8 != 0 {
      place := place + 4;
    }
    if place + 2 > buf.end - buf.data {
      return None;
    }
    Overwrite(buf, place, [14, 0]);
    return Some(place);
  }

  method RecomputeChecksum(buf: XdpBuffer, ip: nat)
    requires buf.Valid() && ip + 20 <= buf.end - buf.data
    modifies buf.mem
    ensures buf.Frame() == Rechecked(old(buf.Frame()), ip)
  {
    Overwrite(buf, ip + 10, [0, 0]);
    var header := buf.Slice(ip, ip + 20);
    var check := HeaderCsum(header);
    Overwrite(buf, ip + 10, [check % 0x100, check / 0x100]);
  }

  method TurnRequest(buf: XdpBuffer, ip: nat, udp: nat, gtp: nat)
    requires buf.Valid() && 14 <= ip && ip + 20 <= buf.end - buf.data
    requires udp + 8 <= buf.end - buf.data && gtp + 8 <= buf.end - buf.data
    modifies buf.mem
    ensures buf.Frame() == Turned(old(buf.Frame()), ip, udp, gtp)
  {
    Overwrite(buf, gtp + 1, [2]);
    SwapIp(buf, ip);
    SwapPort(buf, udp);
    SwapMac(buf);
  }

  method GrowLengths(buf: XdpBuffer, ip: nat, udp: nat, gtp: nat)
    requires buf.Valid() && ip + 20 <= buf.end - buf.data
    requires udp + 8 <= buf.end - buf.data && gtp + 8 <= buf.end - buf.data
    modifies buf.mem
    ensures buf.Frame() == Lengthened(old(buf.Frame()), ip, udp, gtp)
  {
    GrowLength(buf, gtp + 2);
    GrowOuterLengths(buf, ip, udp);
  }

  method GrowOuterLengths(buf: XdpBuffer, ip: nat, udp: nat)
    requires buf.Valid() && ip + 20 <= buf.end - buf.data && udp + 8 <= buf.end - buf.data
    modifies buf.mem
    ensures buf.Frame() == GrowOuter(old(buf.Frame()), ip, udp)
  {
    GrowLength(buf, udp + 4);
    GrowLength(buf, ip + 2);
  }

  /** handle_echo_request, on a context whose four headers were parsed. */
  method HandleEchoRequest(ctx: PacketContext) returns (action: nat)
    requires ctx.Valid() && ctx.ip4.Some? && ctx.udp.Some? && ctx.gtp.Some?
    modifies ctx.buf.mem
    ensures ctx.Valid() && action == XDP_TX
    ensures ctx.Frame() == EchoResponse(old(ctx.Frame()), ctx.ip4.value, ctx.udp.value, ctx.gtp.value)
  {
    var buf, ip, udp, gtp := ctx.buf, ctx.ip4.value, ctx.udp.value, ctx.gtp.value;
    TurnRequest(buf, ip, udp, gtp);
    var at := InsertRecovery(buf, gtp);
    if at.Some? {
      GrowLengths(buf, ip, udp, gtp);
      RecomputeChecksum(buf, ip);
    }
    action := XDP_TX;
  }

  // ---------------------------------------------------------------- byte by byte

  /** The headers follow one another: Ethernet, IPv4 of at least 20 bytes, UDP, GTP. */
  predicate Layered(f: seq<Byte>, ip: nat, udp: nat, gtp: nat) {
    14 <= ip && ip + 20 <= udp && udp + 8 <= gtp && gtp + 8 <= |f|
  }

  lemma SwapIpsAt(f: seq<Byte>, ip: nat)
    requires ip + 20 <= |f|
    ensures var g := SwapIps(f, ip);
      && |g| == |f|
      && forall k {:trigger g[k]} :: 0 <= k < |f| ==>
           g[k] == if ip + 12 <= k < ip + 16 then f[k + 4] else if ip + 16 <= k < ip + 20 then f[k - 4] else f[k]
  {
  }

  lemma SwapMacsAt(f: seq<Byte>)
    requires |f| >= 14
    ensures var g := SwapMacs(f);
      && |g| == |f|
      && forall k {:trigger g[k]} :: 0 <= k < |f| ==>
           g[k] == if k < 6 then f[k + 6] else if k < 12 then f[k - 6] else f[k]
  {
  }

  /** t is f with addresses and ports swapped, the UDP checksum cleared, and type 2. */
  ghost predicate TurnedInto(f: seq<Byte>, t: seq<Byte>, ip: nat, udp: nat, gtp: nat)
    requires Layered(f, ip, udp, gtp)
  {
    && |t| == |f|
    && forall k {:trigger t[k]} :: 0 <= k < |f| ==>
         t[k] == if k < 6 then f[k + 6] else if k < 12 then f[k - 6]
                 else if ip + 12 <= k < ip + 16 then f[k + 4] else if ip + 16 <= k < ip + 20 then f[k - 4]
                 else if udp <= k < udp + 2 then f[k + 2] else if udp + 2 <= k < udp + 4 then f[k - 2]
                 else if udp + 6 <= k < udp + 8 then 0 else if k == gtp + 1 then 2 else f[k]
  }

  lemma SwapPortsAt(f: seq<Byte>, udp: nat)
    requires udp + 8 <= |f|
    ensures var g := SwapPorts(f, udp);
      && |g| == |f|
      && forall k {:trigger g[k]} :: 0 <= k < |f| ==>
           g[k] == if udp <= k < udp + 2 then f[k + 2] else if udp + 2 <= k < udp + 4 then f[k - 2]
                   else if udp + 6 <= k < udp + 8 then 0 else f[k]
  {
  }

  /** The turned request, byte by byte. */
  lemma TurnedAt(f: seq<Byte>, ip: nat, udp: nat, gtp: nat)
    requires Layered(f, ip, udp, gtp)
    ensures TurnedInto(f, Turned(f, ip, udp, gtp), ip, udp, gtp)
  {
    var typed := Patch(f, gtp + 1, [2]);
    var swapped := SwapIps(typed, ip);
    SwapIpsAt(typed, ip);
    SwapPortsAt(swapped, udp);
    SwapMacsAt(SwapPorts(swapped, udp));
  }

  // ---------------------------------------------------------------- lengths

  lemma GrowAt(f: seq<Byte>, at: nat)
    requires at + 2 <= |f|
    ensures var r := Grow(f, at);
      && Get16(r, at) == (Get16(f, at) + 2) % 0x1_0000
      && forall k :: 0 <= k < |f| && !(at <= k < at + 2) ==> r[k] == f[k]
  {
    assert PlusTwo(f[at], f[at + 1])[1] == Grow(f, at)[at + 1];
  }

  /** The bytes no length field and no checksum occupies. */
  predicate Fixed(k: nat, ip: nat, udp: nat, gtp: nat) {
    !(ip + 2 <= k < ip + 4) && !(udp + 4 <= k < udp + 6) && !(gtp + 2 <= k < gtp + 4)
  }

  lemma LengthenedAt(f: seq<Byte>, ip: nat, udp: nat, gtp: nat)
    requires Layered(f, ip, udp, gtp)
    ensures var r := Lengthened(f, ip, udp, gtp);
      && Get16(r, ip + 2) == (Get16(f, ip + 2) + 2) % 0x1_0000
      && Get16(r, udp + 4) == (Get16(f, udp + 4) + 2) % 0x1_0000
      && Get16(r, gtp + 2) == (Get16(f, gtp + 2) + 2) % 0x1_0000
      && forall k :: 0 <= k < |f| && Fixed(k, ip, udp, gtp) ==> r[k] == f[k]
  {
    var g := Grow(f, gtp + 2);
    var h := Grow(g, udp + 4);
    GrowAt(f, gtp + 2);
    GrowAt(g, udp + 4);
    GrowAt(h, ip + 2);
  }

  lemma RecheckedAt(f: seq<Byte>, ip: nat)
    requires ip + 20 <= |f|
    ensures forall k :: 0 <= k < |f| && !(ip + 10 <= k < ip + 12) ==> Rechecked(f, ip)[k] == f[k]
  {
    var zeroed := Patch(f, ip + 10, [0, 0]);
    var check := HeaderChecksum(zeroed[ip..ip + 20]);
  }

  /** g is t with a Recovery element at position at, lengths larger by 2, and another checksum. */
  ghost predicate Recovered(t: seq<Byte>, g: seq<Byte>, ip: nat, udp: nat, gtp: nat, at: nat)
    requires Layered(t, ip, udp, gtp) && gtp + 8 <= at && at + 2 <= |t|
  {
    && |g| == |t| && g[at] == 14 && g[at + 1] == 0
    && Get16(g, ip + 2) == (Get16(t, ip + 2) + 2) % 0x1_0000
    && Get16(g, udp + 4) == (Get16(t, udp + 4) + 2) % 0x1_0000
    && Get16(g, gtp + 2) == (Get16(t, gtp + 2) + 2) % 0x1_0000
    && forall k :: 0 <= k < |t| && Fixed(k, ip, udp, gtp) && !(ip + 10 <= k < ip + 12) && !(at <= k < at + 2) ==>
         g[k] == t[k]
  }

  lemma RecoveredAt(t: seq<Byte>, ip: nat, udp: nat, gtp: nat, at: nat)
    requires Layered(t, ip, udp, gtp) && gtp + 8 <= at && at + 2 <= |t|
    ensures Recovered(t, Rechecked(Lengthened(Patch(t, at, [14, 0]), ip, udp, gtp), ip), ip, udp, gtp, at)
  {
    var p := Patch(t, at, [14, 0]);
    LengthenedAt(p, ip, udp, gtp);
    RecheckedAt(Lengthened(p, ip, udp, gtp), ip);
  }

  /** How the response g arises from the request f, by way of t. */
  ghost predicate Responds(f: seq<Byte>, t: seq<Byte>, g: seq<Byte>, ip: nat, udp: nat, gtp: nat)
    requires Layered(f, ip, udp, gtp)
  {
    && TurnedInto(f, t, ip, udp, gtp)
    && match RecoveryAt(f, gtp)
       case None => g == t
       case Some(at) => Recovered(t, g, ip, udp, gtp, at)
  }

  lemma ResponseResponds(f: seq<Byte>, ip: nat, udp: nat, gtp: nat)
    requires Layered(f, ip, udp, gtp)
    ensures Responds(f, Turned(f, ip, udp, gtp), EchoResponse(f, ip, udp, gtp), ip, udp, gtp)
  {
    var t := Turned(f, ip, udp, gtp);
    TurnedAt(f, ip, udp, gtp);
    TurnedRecovery(f, t, ip, udp, gtp);
    if RecoveryAt(t, gtp).Some? {
      RecoveredAt(t, ip, udp, gtp, RecoveryAt(t, gtp).value);
    }
  }

  lemma TurnedRecovery(f: seq<Byte>, t: seq<Byte>, ip: nat, udp: nat, gtp: nat)
    requires Layered(f, ip, udp, gtp) && TurnedInto(f, t, ip, udp, gtp)
    ensures RecoveryAt(t, gtp) == RecoveryAt(f, gtp)
  {
    assert t[gtp] == f[gtp];
  }

  /** IP covers its header and UDP, UDP its header and GTP, GTP what its length says. */
  predicate LengthsNest(f: seq<Byte>, ip: nat, udp: nat, gtp: nat)
    requires Layered(f, ip, udp, gtp)
  {
    Get16(f, ip + 2) == udp - ip + Get16(f, udp + 4) && Get16(f, udp + 4) == 16 + Get16(f, gtp + 2)
  }

  lemma RespondsNest(f: seq<Byte>, t: seq<Byte>, g: seq<Byte>, ip: nat, udp: nat, gtp: nat)
    requires Layered(f, ip, udp, gtp) && LengthsNest(f, ip, udp, gtp) && Responds(f, t, g, ip, udp, gtp)
    ensures Layered(g, ip, udp, gtp)
    ensures LengthsNest(g, ip, udp, gtp) <==> RecoveryAt(f, gtp).None? || Get16(f, ip + 2) <= 0xFFFD
  {
    assert Get16(t, ip + 2) == Get16(f, ip + 2);
    assert Get16(t, udp + 4) == Get16(f, udp + 4);
    assert Get16(t, gtp + 2) == Get16(f, gtp + 2);
    if RecoveryAt(f, gtp).Some? {
      NestWrapped(udp - ip, Get16(f, ip + 2), Get16(f, udp + 4), Get16(f, gtp + 2));
    }
  }

  lemma NestWrapped(header: nat, total: nat, udpLen: nat, gtpLen: nat)
    requires total < 0x1_0000 && header >= 20 && total == header + udpLen && udpLen == 16 + gtpLen
    ensures ((total + 2) % 0x1_0000 == header + (udpLen + 2) % 0x1_0000
             && (udpLen + 2) % 0x1_0000 == 16 + (gtpLen + 2) % 0x1_0000)
       <==> total <= 0xFFFD
  {
  }

  /**
   * A response to a request whose lengths nest has lengths that nest, exactly when no Recovery
   * element was added or the two bytes more still fit the IPv4 length field.
   */
  lemma EchoLengthsNestIff(f: seq<Byte>, ip: nat, udp: nat, gtp: nat)
    requires Layered(f, ip, udp, gtp) && LengthsNest(f, ip, udp, gtp)
    ensures var g := EchoResponse(f, ip, udp, gtp);
      && Layered(g, ip, udp, gtp)
      && (LengthsNest(g, ip, udp, gtp) <==> RecoveryAt(f, gtp).None? || Get16(f, ip + 2) <= 0xFFFD)
  {
    ResponseResponds(f, ip, udp, gtp);
    RespondsNest(f, Turned(f, ip, udp, gtp), EchoResponse(f, ip, udp, gtp), ip, udp, gtp);
  }

  // ---------------------------------------------------------------- checksum

  /** The first 20 bytes of the IPv4 header at position ip verify. */
  predicate HeaderVerifies(f: seq<Byte>, ip: nat)
    requires ip + 20 <= |f|
  {
    Verifies(HostWords(f[ip..ip + 20]))
  }

  /** Recomputing makes the first 20 bytes of a header that is not all zero verify. */
  lemma RecheckedVerifies(f: seq<Byte>, ip: nat)
    requires ip + 20 <= |f| && f[ip + 9] != 0
    ensures HeaderVerifies(Rechecked(f, ip), ip)
  {
    var zeroed := Patch(f, ip + 10, [0, 0]);
    var check := HeaderChecksum(zeroed[ip..ip + 20]);
    var blank, full := zeroed[ip..ip + 20], Rechecked(f, ip)[ip..ip + 20];
    assert full == blank[..10] + [check % 0x100, check / 0x100] + blank[12..];
    assert blank[9] == f[ip + 9];
    BlankHeaderVerifies(blank);
  }

  lemma TurnedHeader(f: seq<Byte>, t: seq<Byte>, ip: nat, udp: nat, gtp: nat)
    requires Layered(f, ip, udp, gtp) && TurnedInto(f, t, ip, udp, gtp)
    ensures t[ip + 9] == f[ip + 9]
    ensures HeaderVerifies(t, ip) <==> HeaderVerifies(f, ip)
  {
    SwapIpsAt(f[ip..ip + 20], 0);
    assert t[ip..ip + 20] == SwapIps(f[ip..ip + 20], 0);
    SwapKeepsHeaderSum(f[ip..ip + 20]);
  }

  lemma RecoveredVerifies(t: seq<Byte>, ip: nat, udp: nat, gtp: nat, at: nat)
    requires Layered(t, ip, udp, gtp) && gtp + 8 <= at && at + 2 <= |t| && t[ip + 9] != 0
    ensures HeaderVerifies(Rechecked(Lengthened(Patch(t, at, [14, 0]), ip, udp, gtp), ip), ip)
  {
    var p := Patch(t, at, [14, 0]);
    LengthenedAt(p, ip, udp, gtp);
    RecheckedVerifies(Lengthened(p, ip, udp, gtp), ip);
  }

  /**
   * The response's header verifies (over its first 20 bytes) exactly when the checksum was
   * recomputed, which happens with a Recovery element only, or the request's header verified.
   */
  lemma EchoHeaderVerifiesIff(f: seq<Byte>, ip: nat, udp: nat, gtp: nat)
    requires Layered(f, ip, udp, gtp) && f[ip + 9] == 17
    ensures HeaderVerifies(EchoResponse(f, ip, udp, gtp), ip) <==> RecoveryAt(f, gtp).Some? || HeaderVerifies(f, ip)
  {
    var t := Turned(f, ip, udp, gtp);
    TurnedAt(f, ip, udp, gtp);
    TurnedHeader(f, t, ip, udp, gtp);
    TurnedRecovery(f, t, ip, udp, gtp);
    if RecoveryAt(t, gtp).Some? {
      RecoveredVerifies(t, ip, udp, gtp, RecoveryAt(t, gtp).value);
    }
  }

  lemma {:induction false} HostWordsSplit(b: seq<Byte>, n: nat)
    requires n <= |b| && n % 2 == 0 && |b| % 2 == 0
    ensures HostWords(b) == HostWords(b[..n]) + HostWords(b[n..])
  {
    if n == 0 {
      assert b[..0] == [] && b[0..] == b;
    } else {
      HostWordsSplit(b[2..], n - 2);
      assert b[2..][..n - 2] == b[..n][2..] && b[2..][n - 2..] == b[n..];
    }
  }

  /**
   * A checksum recomputed over 20 bytes does not cover IPv4 options: the whole header then
   * verifies exactly when the options' words add up to a multiple of 65535.
   */
  lemma OptionsVerifyIff(f: seq<Byte>, ip: nat, len: nat)
    requires 20 <= len && len % 2 == 0 && ip + len <= |f| && HeaderVerifies(f, ip)
    ensures Verifies(HostWords(f[ip..ip + len])) <==> PlainSum(HostWords(f[ip + 20..ip + len])) % 0xFFFF == 0
  {
    var h := f[ip..ip + len];
    assert h[..20] == f[ip..ip + 20] && h[20..] == f[ip + 20..ip + len];
    HostWordsSplit(h, 20);
    PlainSumConcat(HostWords(h[..20]), HostWords(h[20..]));
    VerifiesIff(HostWords(h[..20]));
    VerifiesIff(HostWords(h));
    AddMultiple(PlainSum(HostWords(h[20..])), PlainSum(HostWords(h[..20])) / 0xFFFF);
  }

  // ---------------------------------------------------------------- at the requester

  /** What the response keeps and what it turns around, whether or not it has a Recovery element. */
  ghost predicate TurnsAround(f: seq<Byte>, g: seq<Byte>, ip: nat, udp: nat, gtp: nat)
    requires Layered(f, ip, udp, gtp)
  {
    && |g| == |f|
    && g[..6] == f[6..12] && g[6..12] == f[..6] && g[12] == f[12] && g[13] == f[13]
    && g[ip] == f[ip] && g[ip + 9] == f[ip + 9]
    && g[ip + 12..ip + 16] == f[ip + 16..ip + 20] && g[ip + 16..ip + 20] == f[ip + 12..ip + 16]
    && Get16(g, udp) == Get16(f, udp + 2) && Get16(g, udp + 2) == Get16(f, udp)
    && g[gtp] == f[gtp] && g[gtp + 1] == 2 && g[gtp + 4..gtp + 8] == f[gtp + 4..gtp + 8]
  }

  lemma RespondsTurnsAround(f: seq<Byte>, t: seq<Byte>, g: seq<Byte>, ip: nat, udp: nat, gtp: nat)
    requires Layered(f, ip, udp, gtp) && Responds(f, t, g, ip, udp, gtp)
    ensures TurnsAround(f, g, ip, udp, gtp)
  {
  }

  lemma ResponseTurnsAround(f: seq<Byte>, ip: nat, udp: nat, gtp: nat)
    requires Layered(f, ip, udp, gtp)
    ensures TurnsAround(f, EchoResponse(f, ip, udp, gtp), ip, udp, gtp)
  {
    ResponseResponds(f, ip, udp, gtp);
    RespondsTurnsAround(f, Turned(f, ip, udp, gtp), EchoResponse(f, ip, udp, gtp), ip, udp, gtp);
  }

  lemma TurnedAroundPath(config: Config, requester: Config, f: seq<Byte>, g: seq<Byte>)
    requires PathOf(config, f) == GtpEcho && f[14] % 16 >= 5 && requester.n3 == f[26..30]
    requires var udp := 14 + f[14] % 16 * 4; TurnsAround(f, g, 14, udp, udp + 8)
    ensures PathOf(requester, g) == GtpEchoResponse <==> Get16(f, 14 + f[14] % 16 * 4) == GTP_UDP_PORT
  {
    assert Get16(g, 12) == Get16(f, 12);
    assert g[30..34] == f[26..30];
  }

  /**
   * A requester running the same dispatch on its own address sees an echo response exactly when
   * the request came from port 2152: the response goes back to the port the request came from.
   */
  lemma RequesterSeesResponseIff(config: Config, requester: Config, f: seq<Byte>)
    requires PathOf(config, f) == GtpEcho && f[14] % 16 >= 5 && requester.n3 == f[26..30]
    ensures var udp := 14 + f[14] % 16 * 4;
      PathOf(requester, EchoResponse(f, 14, udp, udp + 8)) == GtpEchoResponse <==> Get16(f, udp) == GTP_UDP_PORT
  {
    var udp := 14 + f[14] % 16 * 4;
    ResponseTurnsAround(f, 14, udp, udp + 8);
    TurnedAroundPath(config, requester, f, EchoResponse(f, 14, udp, udp + 8));
  }
}
