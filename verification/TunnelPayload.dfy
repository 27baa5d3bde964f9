/**
 * What a GTP-U message carries by its own standard, TS 29.281 sections 5.1 and 5.2, and when the
 * program's fixed skip of 8 bytes finds it.
 */
module TunnelPayload {
  import opened Base
  import opened Packets
  import opened Tunnel

  // ---------------------------------------------------------------- the header of TS 29.281

  /**
   * Behind a chain of extension headers: kind is the type announced for the one at position at, and 0
   * ends the chain.  The first byte of each is its length in units of 4 bytes, which is not 0, and the
   * last byte announces the next.
   */
  function BehindExtensions(f: seq<Byte>, at: nat, kind: Byte): (r: Option<nat>)
    requires at <= |f|
    ensures r.Some? ==> at <= r.value <= |f| && (r.value == at <==> kind == 0) && (r.value - at) % 4 == 0
    decreases |f| - at
  {
    if kind == 0 then Some(at)
    else if at == |f| || f[at] == 0 || at + 4 * (f[at] as int) > |f| then None
    else
      var next: nat := at + 4 * (f[at] as int);
      BehindExtensions(f, next, f[next - 1])
  }

  /** The E flag: extension headers follow the optional word. */
  predicate HasExtensions(flags: Byte) { flags / 4 % 2 == 1 }

  /**
   * Where the T-PDU begins behind a GTP header at position gtp: behind its 8 bytes, the optional word if
   * any of the flags E, S and PN is set, and the extension headers if E is.
   */
  function PayloadAt(f: seq<Byte>, gtp: nat): (r: Option<nat>)
    requires gtp + 8 <= |f|
    ensures r.Some? ==> gtp + 8 <= r.value <= |f|
  {
    if f[gtp] % 8 == 0 then Some(gtp + 8)
    else if gtp + 12 > |f| then None
    else if !HasExtensions(f[gtp]) then Some(gtp + 12)
    else BehindExtensions(f, gtp + 12, f[gtp + 11])
  }

  /** The end of the message: its length field counts what follows the 8 bytes. */
  function MessageEnd(f: seq<Byte>, gtp: nat): nat
    requires gtp + 8 <= |f|
  {
    gtp + 8 + Get16(f, gtp + 2)
  }

  /** The packet a well-formed message carries. */
  function TPdu(f: seq<Byte>, gtp: nat): (r: Option<seq<Byte>>)
    requires gtp + 8 <= |f|
    ensures r.Some? ==> MessageEnd(f, gtp) <= |f|
  {
    match PayloadAt(f, gtp)
    case None => None
    case Some(p) => if p <= MessageEnd(f, gtp) <= |f| then Some(f[p..MessageEnd(f, gtp)]) else None
  }

  /**
   * The frame that carries the T-PDU without the tunnel: the old MAC addresses, the ethertype of the
   * packet's IP version, the packet, and whatever padding the frame had.
   */
  function Unwrapped(f: seq<Byte>, gtp: nat): Option<seq<Byte>>
    requires 14 <= gtp && gtp + 8 <= |f|
  {
    match TPdu(f, gtp)
    case None => None
    case Some(packet) =>
      if packet == [] then None
      else
        match GuessEthertype(packet[0])
        case None => None
        case Some(proto) => Some(f[..12] + Be16(proto) + packet + f[MessageEnd(f, gtp)..])
  }

  lemma UnwrappedIsRest(f: seq<Byte>, gtp: nat)
    requires 14 <= gtp && gtp + 8 <= |f| && Unwrapped(f, gtp).Some?
    ensures var p := PayloadAt(f, gtp).value;
      && p < |f| && GuessEthertype(f[p]).Some?
      && Unwrapped(f, gtp).value == f[..12] + Be16(GuessEthertype(f[p]).value) + f[p..]
  {
    var p, end := PayloadAt(f, gtp).value, MessageEnd(f, gtp);
    assert f[p..end][0] == f[p];
    assert f[p..end] + f[end..] == f[p..];
  }

  /**
   * What the program itself sends into a tunnel is such a message: its T-PDU is the packet of the frame
   * exactly when the length the packet claims is its length and the message length does not wrap.
   */
  lemma EncapsulatedCarriesIff(f: seq<Byte>, saddr: Ip4, daddr: Ip4, tos: Byte, qfi: Byte, teid: nat, ipLen: nat)
    requires |f| >= 14
    ensures var g := Encapsulated(f, saddr, daddr, tos, qfi, teid, ipLen);
      && PayloadAt(g, 42) == Some(58)
      && (TPdu(g, 42) == Some(f[14..]) <==> (ipLen + 8) % 0x1_0000 == |f| - 6)
  {
    var g := Encapsulated(f, saddr, daddr, tos, qfi, teid, ipLen);
    EncapsulatedLayout(f, saddr, daddr, tos, qfi, teid, ipLen);
    LengthFields(f, saddr, daddr, tos, qfi, teid, ipLen);
    assert g[42] == g[42..50][0] == 0x34;
    assert g[53] == g[50..58][3] && g[54] == g[50..58][4] && g[57] == g[50..58][7];
    CursorIsPayloadIff(g, 42);
    var end := MessageEnd(g, 42);
    assert end == |g| <==> (ipLen + 8) % 0x1_0000 == |f| - 6;
    if end == |g| {
      assert g[58..end] == g[58..];
    } else if 58 <= end < |g| {
      assert |g[58..end]| < |g[58..]|;
    }
  }

  // ---------------------------------------------------------------- the program's skip

  /** One extension header of 4 bytes, and no other. */
  predicate OneShortExtension(f: seq<Byte>, gtp: nat)
    requires gtp + 8 <= |f|
  {
    && HasExtensions(f[gtp]) && gtp + 16 <= |f|
    && f[gtp + 11] != 0 && f[gtp + 12] == 1 && f[gtp + 15] == 0
  }

  /** Where parse_gtp leaves the cursor. */
  function Cursor(f: seq<Byte>, gtp: nat): nat
    requires gtp + 8 <= |f|
  {
    gtp + 8 + GtpExtra(f[gtp])
  }

  lemma BehindOneIff(f: seq<Byte>, at: nat, kind: Byte)
    requires at <= |f|
    ensures BehindExtensions(f, at, kind) == Some(at + 4)
       <==> kind != 0 && at + 4 <= |f| && f[at] == 1 && f[at + 3] == 0
  {
    if kind != 0 && at < |f| && f[at] != 0 && at + 4 * (f[at] as int) <= |f| {
      var next: nat := at + 4 * (f[at] as int);
      assert BehindExtensions(f, at, kind) == BehindExtensions(f, next, f[next - 1]);
    }
  }

  /**
   * The cursor is on the T-PDU exactly when no flag announces more than 8 bytes, or E does and there is
   * exactly one extension header, of 4 bytes.
   */
  lemma CursorIsPayloadIff(f: seq<Byte>, gtp: nat)
    requires gtp + 8 <= |f|
    ensures PayloadAt(f, gtp) == Some(Cursor(f, gtp)) <==> f[gtp] % 8 == 0 || OneShortExtension(f, gtp)
  {
    if f[gtp] % 8 != 0 && gtp + 12 <= |f| && HasExtensions(f[gtp]) { BehindOneIff(f, gtp + 12, f[gtp + 11]); }
  }

  /**
   * remove_gtp_header strips at the T-PDU: behind an outer IPv4 header without options when the cursor is
   * there; behind one option word, by luck, when the optional word is all that follows the 8 bytes.
   */
  predicate StripsAtPayload(f: seq<Byte>, gtp: nat)
    requires gtp + 8 <= |f|
  {
    if gtp == 42 then f[gtp] % 8 == 0 || OneShortExtension(f, gtp)
    else gtp == 46 && f[gtp] % 8 != 0 && gtp + 12 <= |f| && (!HasExtensions(f[gtp]) || f[gtp + 11] == 0)
  }

  lemma StripPointIsPayloadIff(f: seq<Byte>, gtp: nat)
    requires 42 <= gtp && gtp + 8 <= |f|
    ensures PayloadAt(f, gtp) == Some(14 + StripSize(f[gtp])) <==> StripsAtPayload(f, gtp)
  {
    CursorIsPayloadIff(f, gtp);
    if gtp > 42 && f[gtp] % 8 != 0 && gtp + 12 <= |f| && HasExtensions(f[gtp]) {
      var r := BehindExtensions(f, gtp + 12, f[gtp + 11]);
      assert r.Some? ==> (r.value == gtp + 12 <==> f[gtp + 11] == 0) && (r.value - (gtp + 12)) % 4 == 0;
    }
  }

  /**
   * The frame remove_gtp_header leaves is the one with the T-PDU of the standard exactly when it strips
   * there; in all other cases what it leaves has another length.
   */
  lemma StrippedIsUnwrappedIff(f: seq<Byte>, gtp: nat)
    requires 42 <= gtp && gtp + 8 <= |f| && Unwrapped(f, gtp).Some?
    ensures Stripped(f, f[gtp]) == Unwrapped(f, gtp) <==> StripsAtPayload(f, gtp)
    ensures !StripsAtPayload(f, gtp) && Stripped(f, f[gtp]).Some? ==>
              |Stripped(f, f[gtp]).value| != |Unwrapped(f, gtp).value|
  {
    UnwrappedIsRest(f, gtp);
    StripPointIsPayloadIff(f, gtp);
    var p, at := PayloadAt(f, gtp).value, 14 + StripSize(f[gtp]);
    assert |Unwrapped(f, gtp).value| == 14 + |f| - p;
    if Stripped(f, f[gtp]).Some? { assert |Stripped(f, f[gtp]).value| == 14 + |f| - at; }
  }
}
