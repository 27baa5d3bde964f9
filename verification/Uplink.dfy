/**
 * The uplink path of the data plane: from a G-PDU to the PDR of its TEID, through FAR and QER, to
 * the next hop; and what becomes of a tunnelled frame after a session was established.
 */
module Uplink {
  import opened Base
  import opened RuleTables
  import opened SdfParser
  import opened SdfRoundTrip
  import opened PdrRecords
  import opened Rules
  import opened SessionSpec
  import opened SessionLemmas
  import W = World
  import opened Ownership
  import opened Runs
  import opened Isolation
  import opened Resolution
  import opened SharedRuns
  import opened Handlers
  import opened XdpProgram
  import opened Tunnel
  import opened Icmp
  import opened Echo
  import opened Pipeline
  import opened Forwarding
  import P = Packets
  import L = RateLimiter

  // ---------------------------------------------------------------- PDR and SDF selection

  /** parse_l4 behind a header that ends at position at. */
  predicate TransportFits(f: seq<Byte>, at: nat, protocol: Byte) {
    TransportSize(protocol) == 0 || at + TransportSize(protocol) <= |f|
  }

  /** The filter is asked only about whole inner packets; v6 is the answer of the IPv6 matcher. */
  function AskInner(filter: KernelFilter, f: seq<Byte>, at: nat, v6: bool): Option<bool> {
    if at >= |f| then None
    else
      match P.GuessEthertype(f[at])
      case None => Some(false)
      case Some(proto) =>
        if proto == P.ETH_P_IP then
          if at + 20 > |f| || !TransportFits(f, at + f[at] % 16 * 4, f[at + 9]) then None
          else Some(FilterMatches(filter, Inspect(f, at)))
        else if at + 40 > |f| || !TransportFits(f, at + 40, f[at + 6]) then None
        else Some(v6)
  }

  function SelectInner(r: PdrRecord, f: seq<Byte>, at: nat, v6: bool): Verdict {
    if r.mode == 0 then Use(r.default)
    else match AskInner(r.filter, f, at, v6) case None => PassUp case Some(accepted) => Choose(r, accepted)
  }

  // ---------------------------------------------------------------- FAR, QER and URR instructions

  /** update_urr for uplink bytes; an id out of range is ignored. */
  function AddUplink(urrs: seq<UrrInfo>, id: nat, size: nat): seq<UrrInfo> {
    if id < |urrs| then urrs[id := urrs[id].(uplinkVolume := (urrs[id].uplinkVolume + size) % L.TWO64)] else urrs
  }

  function PoliceUplink(t: Tables, sel: Selection, urrs: (nat, nat), size: nat, now: nat): (Tables, Option<FarInfo>) {
    if sel.farId >= |t.fars| || t.fars[sel.farId].action / 2 % 2 != 1
       || sel.qerId >= |t.qers| || t.qers[sel.qerId].gateStatusUL != 0 then
      (t, None)
    else
      var qer := t.qers[sel.qerId];
      var (start, pass) := L.Limit(qer.startUL, size, qer.maxBitrateUL, now);
      if pass then (t.(qers := t.qers[sel.qerId := qer.(startUL := start)],
                       urrs := AddUplink(AddUplink(t.urrs, urrs.0, size), urrs.1, size)),
                    Some(t.fars[sel.farId]))
      else (t, None)
  }

  // ---------------------------------------------------------------- the path of one frame

  /** update_gtp_tunnel: towards another user plane, under the TEID of the FAR. */
  function Retunnelled(f: seq<Byte>, udp: nat, gtp: nat, n9: Ip4, far: FarInfo): (r: seq<Byte>)
    requires |f| >= 34 && udp + 8 <= |f| && gtp + 8 <= |f|
    ensures |r| == |f|
  {
    Patch(Rechecked(Patch(Patch(f, gtp + 4, P.Be32(far.teid)), 26, n9 + AddressBytes(far.remoteIp)), 14), udp + 6,
          [0, 0])
  }

  /** A ping to a local address is answered on the downlink path; all else is routed. */
  function Leave(t: Tables, f: seq<Byte>, ip4: bool, headroom: nat, config: Config, later: nat)
    : (Tables, seq<Byte>, Fate)
    requires ip4 ==> |f| >= 34
  {
    if ip4 && IsLocal(config, f[30..34]) && f[23] == 1 then
      var (g, ok) := EchoReply(f, 14);
      if ok then Downlink(t, g, headroom, config.n3, later) else (t, g, Aborted)
    else (t, f, SentN6)
  }

  /** The frame without its tunnel; if it can go on, whether it is IPv4, and its headroom. */
  function Decapsulated(f: seq<Byte>, flags: Byte, headroom: nat): (seq<Byte>, Option<(bool, nat)>) {
    match P.Stripped(f, flags)
    case None => (f, None)
    case Some(g) => (g, if P.Reinit(g) then Some((P.Reparsed(g).1.Some?, headroom + P.StripSize(flags))) else None)
  }

  /** The frame as it leaves: under another tunnel, without its tunnel, or as it came. */
  function Outgoing(f: seq<Byte>, udp: nat, gtp: nat, removal: nat, far: FarInfo, headroom: nat, n9: Ip4)
    : (r: (seq<Byte>, Option<(bool, nat)>))
    requires |f| >= 34 && udp + 8 <= |f| && gtp + 8 <= |f|
    ensures r.1.Some? && r.1.value.0 ==> |r.0| >= 34
  {
    if far.outerHeaderCreation % 2 == 1 then (Retunnelled(f, udp, gtp, n9, far), Some((true, headroom)))
    else if removal == 0 || removal == 6 then Decapsulated(f, f[gtp], headroom)
    else (f, Some((true, headroom)))
  }

  function Forward(t: Tables, f: seq<Byte>, udp: nat, gtp: nat, removal: nat, far: FarInfo,
                   headroom: nat, config: Config, later: nat)
    : (Tables, seq<Byte>, Fate)
    requires |f| >= 34 && udp + 8 <= |f| && gtp + 8 <= |f|
  {
    match Outgoing(f, udp, gtp, removal, far, headroom, config.n9)
    case (g, None) => (t, g, Aborted)
    case (g, Some((ip4, room))) => Leave(t, g, ip4, room, config, later)
  }

  /** PDR and SDF selection by the TEID of the GTP header. */
  function SelectByTeid(t: Tables, f: seq<Byte>, gtp: nat, cursor: nat, v6: bool): Verdict
    requires gtp + 8 <= |f|
  {
    var key := PdrKey.Uplink(P.Get32(f, gtp + 4));
    if key in t.pdrs then SelectInner(t.pdrs[key], f, cursor, v6) else PassUp
  }

  /** The URRs of the PDR of the TEID. */
  function ChargedByTeid(t: Tables, f: seq<Byte>, gtp: nat): (nat, nat)
    requires gtp + 8 <= |f|
  {
    var key := PdrKey.Uplink(P.Get32(f, gtp + 4));
    if key in t.pdrs then Charged(t.pdrs[key]) else (0, 0)
  }

  /** A selected frame is policed, then forwarded. */
  function ForwardPoliced(t: Tables, sel: Selection, urrs: (nat, nat), f: seq<Byte>, udp: nat, gtp: nat,
                          headroom: nat, config: Config, now: nat, later: nat)
    : (Tables, seq<Byte>, Fate)
    requires |f| >= 34 && udp + 8 <= |f| && gtp + 8 <= |f|
  {
    match PoliceUplink(t, sel, urrs, |f|, now)
    case (u, None) => (u, f, Dropped)
    case (u, Some(far)) => Forward(u, f, udp, gtp, sel.outerHeaderRemoval, far, headroom, config, later)
  }

  /** Tables, frame and fate after handle_gtp_packet; later is the clock of a ping's way back. */
  function UplinkPath(t: Tables, f: seq<Byte>, udp: nat, gtp: nat, cursor: nat, headroom: nat, config: Config,
                      now: nat, later: nat, v6: bool): (Tables, seq<Byte>, Fate)
    requires |f| >= 34 && udp + 8 <= |f| && gtp + 8 <= |f|
  {
    match SelectByTeid(t, f, gtp, cursor, v6)
    case PassUp => (t, f, Passed)
    case Use(sel) => ForwardPoliced(t, sel, ChargedByTeid(t, f, gtp), f, udp, gtp, headroom, config, now, later)
  }

  // ---------------------------------------------------------------- on the objects

  method AskOnInner(filter: KernelFilter, ctx: PacketContext, v6: bool) returns (answer: Option<bool>)
    requires ctx.Valid()
    ensures answer == AskInner(filter, ctx.Frame(), ctx.cursor, v6)
  {
    var at, n := ctx.cursor, ctx.buf.end - ctx.buf.data;
    if at >= n {
      return None;
    }
    var first := ctx.Read(at);
    var proto := P.GuessEthertype(first);
    if proto.None? {
      return Some(false);
    }
    if proto == Some(P.ETH_P_IP) {
      if at + 20 > n {
        return None;
      }
      var protocol := ctx.Read(at + 9);
      if TransportSize(protocol) != 0 && at + first % 16 * 4 + TransportSize(protocol) > n {
        return None;
      }
      var p := ReadPacket(ctx, at);
      return Some(FilterMatches(filter, p));
    }
    if at + 40 > n {
      return None;
    }
    var next := ctx.Read(at + 6);
    if TransportSize(next) != 0 && at + 40 + TransportSize(next) > n {
      return None;
    }
    return Some(v6);
  }

  method SelectOnInner(r: PdrRecord, ctx: PacketContext, v6: bool) returns (verdict: Verdict)
    requires ctx.Valid()
    ensures verdict == SelectInner(r, ctx.Frame(), ctx.cursor, v6)
  {
    if r.mode == 0 {
      return Use(r.default);
    }
    var answer := AskOnInner(r.filter, ctx, v6);
    if answer.None? {
      return PassUp;
    }
    if answer.value {
      return Use(r.filtered);
    }
    return if r.mode % 2 == 1 then PassUp else Use(r.default);
  }

  method LimitUplink(slots: array<QerInfo>, id: nat, size: nat, now: nat) returns (pass: bool)
    requires id < slots.Length
    modifies slots
    ensures var qer := old(slots[id]);
      && pass == L.Limit(qer.startUL, size, qer.maxBitrateUL, now).1
      && slots[..] == old(slots[..])[id := qer.(startUL := L.Limit(qer.startUL, size, qer.maxBitrateUL, now).0)]
  {
    var qer := slots[id];
    var (start, admitted) := L.Limit(qer.startUL, size, qer.maxBitrateUL, now);
    slots[id] := qer.(startUL := start);
    pass := admitted;
  }

  method UpdateUrrUplink(slots: array<UrrInfo>, id: nat, size: nat)
    modifies slots
    ensures slots[..] == AddUplink(old(slots[..]), id, size)
  {
    if id < slots.Length {
      slots[id] := slots[id].(uplinkVolume := (slots[id].uplinkVolume + size) % L.TWO64);
    }
  }

  method PoliceUplinkPacket(bpf: BpfObjects, sel: Selection, urrs: (nat, nat), size: nat, now: nat)
    returns (r: Option<FarInfo>)
    requires DistinctArrays(bpf)
    modifies bpf.qer.slots, bpf.urr.slots
    ensures (TablesOf(bpf), r) == PoliceUplink(old(TablesOf(bpf)), sel, urrs, size, now)
  {
    if sel.farId >= bpf.far.slots.Length {
      return None;
    }
    var far := bpf.far.slots[sel.farId];
    if far.action / 2 % 2 != 1 {
      return None;
    }
    if sel.qerId >= bpf.qer.slots.Length {
      return None;
    }
    if bpf.qer.slots[sel.qerId].gateStatusUL != 0 {
      return None;
    }
    var pass := LimitUplink(bpf.qer.slots, sel.qerId, size, now);
    if !pass {
      assert bpf.qer.slots[..] == old(bpf.qer.slots[..]);
      return None;
    }
    UpdateUrrUplink(bpf.urr.slots, urrs.0, size);
    UpdateUrrUplink(bpf.urr.slots, urrs.1, size);
    return Some(far);
  }

  /** update_gtp_tunnel. */
  method UpdateGtpTunnel(buf: XdpBuffer, udp: nat, gtp: nat, n9: Ip4, far: FarInfo)
    requires buf.Valid() && 34 <= buf.end - buf.data && udp + 8 <= buf.end - buf.data && gtp + 8 <= buf.end - buf.data
    modifies buf.mem
    ensures buf.Frame() == Retunnelled(old(buf.Frame()), udp, gtp, n9, far)
  {
    Echo.Overwrite(buf, gtp + 4, P.Be32(far.teid));
    Echo.Overwrite(buf, 26, n9 + AddressBytes(far.remoteIp));
    RecomputeChecksum(buf, 14);
    Echo.Overwrite(buf, udp + 6, [0, 0]);
  }

  /** The ping reply, or routing. */
  method LeaveFrame(bpf: BpfObjects, ctx: PacketContext, config: Config, later: nat) returns (fate: Fate)
    requires ctx.Valid() && (ctx.ip4.Some? ==> ctx.ip4 == Some(14)) && (ctx.ip4.Some? || ctx.ip6.Some?)
    requires DistinctArrays(bpf) && Apart(bpf, ctx)
    modifies bpf.qer.slots, bpf.urr.slots, ctx, ctx.buf, ctx.buf.mem
    ensures ctx.Valid()
    ensures (TablesOf(bpf), ctx.Frame(), fate)
         == Leave(old(TablesOf(bpf)), old(ctx.Frame()), old(ctx.ip4).Some?, old(ctx.buf.data), config, later)
  {
    if ctx.ip4.Some? {
      var daddr := ctx.buf.Slice(30, 34);
      var protocol := ctx.Read(23);
      if IsLocal(config, daddr) && protocol == 1 {
        var ok := PrepareIcmpEchoReply(ctx);
        if !ok {
          return Aborted;
        }
        fate := HandleN6PacketIpv4(bpf, ctx, config.n3, later);
        return;
      }
    }
    return SentN6;
  }

  /** The re-tunnelling and decapsulation branches. */
  method Prepare(ctx: PacketContext, removal: nat, far: FarInfo, n9: Ip4) returns (ok: bool)
    requires ctx.Valid() && ctx.ip4 == Some(14) && ctx.udp.Some? && ctx.gtp.Some?
    modifies ctx, ctx.buf, ctx.buf.mem
    ensures ctx.Valid() && (ok ==> (ctx.ip4.Some? ==> ctx.ip4 == Some(14)) && (ctx.ip4.Some? || ctx.ip6.Some?))
    ensures (ctx.Frame(), if ok then Some((ctx.ip4.Some?, ctx.buf.data)) else None)
         == Outgoing(old(ctx.Frame()), old(ctx.udp.value), old(ctx.gtp.value), removal, far, old(ctx.buf.data), n9)
  {
    ok := true;
    if far.outerHeaderCreation % 2 == 1 {
      UpdateGtpTunnel(ctx.buf, ctx.udp.value, ctx.gtp.value, n9, far);
    } else if removal == 0 || removal == 6 {
      ok := ctx.RemoveGtpHeader();
    }
  }

  method ForwardFrame(bpf: BpfObjects, ctx: PacketContext, removal: nat, far: FarInfo, config: Config, later: nat)
    returns (fate: Fate)
    requires ctx.Valid() && ctx.ip4 == Some(14) && ctx.udp.Some?
    requires ctx.gtp.Some? && DistinctArrays(bpf) && Apart(bpf, ctx)
    modifies bpf.qer.slots, bpf.urr.slots, ctx, ctx.buf, ctx.buf.mem
    ensures ctx.Valid()
    ensures (TablesOf(bpf), ctx.Frame(), fate)
         == Forward(old(TablesOf(bpf)), old(ctx.Frame()), old(ctx.udp).value, old(ctx.gtp).value, removal, far,
                    old(ctx.buf.data), config, later)
  {
    var ok := Prepare(ctx, removal, far, config.n9);
    assert TablesOf(bpf) == old(TablesOf(bpf));
    if !ok {
      return Aborted;
    }
    fate := LeaveFrame(bpf, ctx, config, later);
  }

  method LookUpTeid(bpf: BpfObjects, ctx: PacketContext, v6: bool) returns (verdict: Verdict, urrs: (nat, nat))
    requires ctx.Valid() && ctx.gtp.Some?
    ensures verdict == SelectByTeid(TablesOf(bpf), ctx.Frame(), ctx.gtp.value, ctx.cursor, v6)
    ensures urrs == ChargedByTeid(TablesOf(bpf), ctx.Frame(), ctx.gtp.value)
  {
    var high := ctx.Read16(ctx.gtp.value + 4);
    var low := ctx.Read16(ctx.gtp.value + 6);
    var key := PdrKey.Uplink(0x1_0000 * high + low);
    if key !in bpf.pdrs {
      return PassUp, (0, 0);
    }
    verdict := SelectOnInner(bpf.pdrs[key], ctx, v6);
    urrs := Charged(bpf.pdrs[key]);
  }

  method ForwardSelected(bpf: BpfObjects, ctx: PacketContext, sel: Selection, urrs: (nat, nat), config: Config,
                         now: nat, later: nat)
    returns (fate: Fate)
    requires ctx.Valid() && ctx.ip4 == Some(14) && ctx.udp.Some?
    requires ctx.gtp.Some? && DistinctArrays(bpf) && Apart(bpf, ctx)
    modifies bpf.qer.slots, bpf.urr.slots, ctx, ctx.buf, ctx.buf.mem
    ensures ctx.Valid()
    ensures (TablesOf(bpf), ctx.Frame(), fate)
         == ForwardPoliced(old(TablesOf(bpf)), sel, urrs, old(ctx.Frame()), old(ctx.udp).value, old(ctx.gtp).value,
                           old(ctx.buf.data), config, now, later)
  {
    ghost var t, f := TablesOf(bpf), ctx.Frame();
    var r := PoliceUplinkPacket(bpf, sel, urrs, ctx.buf.end - ctx.buf.data, now);
    assert ctx.Frame() == f && PoliceUplink(t, sel, urrs, |f|, now) == (TablesOf(bpf), r);
    if r.None? {
      return Dropped;
    }
    fate := ForwardFrame(bpf, ctx, sel.outerHeaderRemoval, r.value, config, later);
  }

  /** handle_gtp_packet. */
  method HandleGtpPacket(bpf: BpfObjects, ctx: PacketContext, config: Config, now: nat, later: nat, v6: bool)
    returns (fate: Fate)
    requires ctx.Valid() && ctx.ip4 == Some(14) && ctx.udp.Some?
    requires ctx.gtp.Some? && DistinctArrays(bpf) && Apart(bpf, ctx)
    modifies bpf.qer.slots, bpf.urr.slots, ctx, ctx.buf, ctx.buf.mem
    ensures ctx.Valid()
    ensures (TablesOf(bpf), ctx.Frame(), fate)
         == UplinkPath(old(TablesOf(bpf)), old(ctx.Frame()), old(ctx.udp).value, old(ctx.gtp).value, old(ctx.cursor),
                       old(ctx.buf.data), config, now, later, v6)
  {
    var verdict, urrs := LookUpTeid(bpf, ctx, v6);
    if verdict.PassUp? {
      return Passed;
    }
    fate := ForwardSelected(bpf, ctx, verdict.selection, urrs, config, now, later);
  }

  // ---------------------------------------------------------------- packets are traffic

  /** The tables of s with the arrays the data plane writes replaced. */
  function WithTables(s: Shared, t: Tables): Shared {
    s.(qer := s.qer.(slots := t.qers), urr := s.urr.(slots := t.urrs))
  }

  /** A step of the data plane: rule and PDR tables stay, windows and volumes move. */
  ghost predicate IsTraffic(s: Shared, t: Tables) {
    t.pdrs == s.pdrs && t.fars == s.far.slots && TrafficOk(s, t.qers, t.urrs)
  }

  lemma LeaveIsTraffic(s: Shared, u: Tables, f: seq<Byte>, ip4: bool, headroom: nat, config: Config, later: nat)
    requires IsTraffic(s, u) && (ip4 ==> |f| >= 34)
    ensures IsTraffic(s, Leave(u, f, ip4, headroom, config, later).0)
  {
    if ip4 && IsLocal(config, f[30..34]) && f[23] == 1 {
      var (g, ok) := EchoReply(f, 14);
      var t := WithTables(s, u);
      assert TablesIn(t) == u;
      if ok { DownlinkIsTraffic(t, g, headroom, config.n3, later); }
    }
  }

  lemma ForwardIsTraffic(s: Shared, u: Tables, f: seq<Byte>, udp: nat, gtp: nat, removal: nat, far: FarInfo,
                         headroom: nat, config: Config, later: nat)
    requires IsTraffic(s, u) && |f| >= 34 && udp + 8 <= |f| && gtp + 8 <= |f|
    ensures IsTraffic(s, Forward(u, f, udp, gtp, removal, far, headroom, config, later).0)
  {
    var (g, next) := Outgoing(f, udp, gtp, removal, far, headroom, config.n9);
    if next.Some? { LeaveIsTraffic(s, u, g, next.value.0, next.value.1, config, later); }
  }

  /** What an uplink packet does to the tables, a ping's way back included, is a Traffic event. */
  lemma UplinkIsTraffic(s: Shared, f: seq<Byte>, udp: nat, gtp: nat, cursor: nat, headroom: nat, config: Config,
                        now: nat, later: nat, v6: bool)
    requires |f| >= 34 && udp + 8 <= |f| && gtp + 8 <= |f|
    ensures IsTraffic(s, UplinkPath(TablesIn(s), f, udp, gtp, cursor, headroom, config, now, later, v6).0)
  {
    match SelectByTeid(TablesIn(s), f, gtp, cursor, v6) {
      case PassUp =>
      case Use(sel) =>
        var (u, r) := PoliceUplink(TablesIn(s), sel, ChargedByTeid(TablesIn(s), f, gtp), |f|, now);
        assert IsTraffic(s, u);
        if r.Some? { ForwardIsTraffic(s, u, f, udp, gtp, sel.outerHeaderRemoval, r.value, headroom, config, later); }
    }
  }

  // ---------------------------------------------------------------- whose volume a packet is added to

  /** URR slots other than 0 are as they were. */
  ghost predicate OnlySlotZero(urrs: seq<UrrInfo>, after: seq<UrrInfo>) {
    |after| == |urrs| && forall g :: 0 < g < |urrs| ==> after[g] == urrs[g]
  }

  lemma LeaveCharges(s: Shared, u: Tables, f: seq<Byte>, ip4: bool, headroom: nat, config: Config, later: nat)
    requires NoUrrIds(s.pdrs) && IsTraffic(s, u) && (ip4 ==> |f| >= 34)
    ensures OnlySlotZero(u.urrs, Leave(u, f, ip4, headroom, config, later).0.urrs)
  {
    if ip4 && IsLocal(config, f[30..34]) && f[23] == 1 {
      var (g, ok) := EchoReply(f, 14);
      assert TablesIn(WithTables(s, u)) == u;
      if ok { DownlinkCharges(WithTables(s, u), g, headroom, config.n3, later); }
    }
  }

  lemma ForwardCharges(s: Shared, u: Tables, f: seq<Byte>, udp: nat, gtp: nat, removal: nat, far: FarInfo,
                       headroom: nat, config: Config, later: nat)
    requires NoUrrIds(s.pdrs) && IsTraffic(s, u) && |f| >= 34 && udp + 8 <= |f| && gtp + 8 <= |f|
    ensures OnlySlotZero(u.urrs, Forward(u, f, udp, gtp, removal, far, headroom, config, later).0.urrs)
  {
    var (g, next) := Outgoing(f, udp, gtp, removal, far, headroom, config.n9);
    if next.Some? { LeaveCharges(s, u, g, next.value.0, next.value.1, config, later); }
  }

  /**
   * While records name no URR, an uplink frame that is admitted is added to URR slot 0, twice, and no
   * other slot ever changes, on a ping's way back neither.
   */
  lemma UplinkCharges(s: Shared, f: seq<Byte>, udp: nat, gtp: nat, cursor: nat, headroom: nat, config: Config,
                      now: nat, later: nat, v6: bool)
    requires NoUrrIds(s.pdrs) && |f| >= 34 && udp + 8 <= |f| && gtp + 8 <= |f|
    ensures OnlySlotZero(s.urr.slots,
                         UplinkPath(TablesIn(s), f, udp, gtp, cursor, headroom, config, now, later, v6).0.urrs)
    ensures match SelectByTeid(TablesIn(s), f, gtp, cursor, v6)
      case PassUp => true
      case Use(sel) =>
        var (u, far) := PoliceUplink(TablesIn(s), sel, ChargedByTeid(TablesIn(s), f, gtp), |f|, now);
        u.urrs == if far.Some? then AddUplink(AddUplink(s.urr.slots, 0, |f|), 0, |f|) else s.urr.slots
  {
    match SelectByTeid(TablesIn(s), f, gtp, cursor, v6) {
      case PassUp =>
      case Use(sel) =>
        var (u, r) := PoliceUplink(TablesIn(s), sel, ChargedByTeid(TablesIn(s), f, gtp), |f|, now);
        assert IsTraffic(s, u);
        if r.Some? { ForwardCharges(s, u, f, udp, gtp, sel.outerHeaderRemoval, r.value, headroom, config, later); }
    }
  }

  // ---------------------------------------------------------------- towards another user plane

  /** g is f under the FAR's TEID, from n9 to the FAR's peer; nothing else but checksums differs. */
  ghost predicate Relayed(f: seq<Byte>, g: seq<Byte>, udp: nat, gtp: nat, n9: Ip4, far: FarInfo)
    requires Layered(f, 14, udp, gtp) && |g| == |f|
  {
    && g[26..30] == n9 && g[30..34] == AddressBytes(far.remoteIp)
    && P.Get32(g, gtp + 4) == far.teid % 0x1_0000_0000 && g[udp + 6] == 0 && g[udp + 7] == 0
    && forall k :: 0 <= k < |f| && !(24 <= k < 34) && !(udp + 6 <= k < udp + 8) && !(gtp + 4 <= k < gtp + 8) ==>
         g[k] == f[k]
  }

  lemma RetunnelledIsRelayed(f: seq<Byte>, udp: nat, gtp: nat, n9: Ip4, far: FarInfo)
    requires Layered(f, 14, udp, gtp)
    ensures Relayed(f, Retunnelled(f, udp, gtp, n9, far), udp, gtp, n9, far)
  {
    var named := Patch(f, gtp + 4, P.Be32(far.teid));
    var addressed := Patch(named, 26, n9 + AddressBytes(far.remoteIp));
    var checked := Rechecked(addressed, 14);
    RecheckedAt(addressed, 14);
    var g := Patch(checked, udp + 6, [0, 0]);
    assert g[26..30] == n9;
    assert g[30..34] == AddressBytes(far.remoteIp);
    assert g[gtp + 4..gtp + 8] == P.Be32(far.teid);
    P.Get32Back(g, gtp + 4, far.teid);
  }

  lemma RetunnelledVerifies(f: seq<Byte>, udp: nat, gtp: nat, n9: Ip4, far: FarInfo)
    requires Layered(f, 14, udp, gtp) && f[23] != 0
    ensures HeaderVerifies(Retunnelled(f, udp, gtp, n9, far), 14)
  {
    var addressed := Patch(Patch(f, gtp + 4, P.Be32(far.teid)), 26, n9 + AddressBytes(far.remoteIp));
    RecheckedVerifies(addressed, 14);
    var checked := Rechecked(addressed, 14);
    assert Patch(checked, udp + 6, [0, 0])[14..34] == checked[14..34];
  }

  /**
   * N9: a re-tunnelled frame has the FAR's TEID and peer, a verifying outer header and the inner packet
   * as it came, and is routed.
   */
  lemma RetunnelledIsSent(t: Tables, f: seq<Byte>, udp: nat, gtp: nat, removal: nat, far: FarInfo, headroom: nat,
                          config: Config, later: nat)
    requires Layered(f, 14, udp, gtp) && f[23] == 17 && far.outerHeaderCreation % 2 == 1
    ensures var (u, g, fate) := Forward(t, f, udp, gtp, removal, far, headroom, config, later);
      && u == t && fate == SentN6 && |g| == |f|
      && Relayed(f, g, udp, gtp, config.n9, far) && HeaderVerifies(g, 14) && g[gtp + 8..] == f[gtp + 8..]
  {
    RetunnelledIsRelayed(f, udp, gtp, config.n9, far);
    RetunnelledVerifies(f, udp, gtp, config.n9, far);
    var g := Retunnelled(f, udp, gtp, config.n9, far);
    assert g[23] == f[23];
    assert g[gtp + 8..] == f[gtp + 8..];
  }

  // ---------------------------------------------------------------- end to end

  /** A Create FAR that forwards without a new outer header. */
  predicate AsksToForward(far: FarIE) {
    && far.action.Some? && far.action.value / 2 % 2 == 1
    && (far.forwarding.Some? && far.forwarding.value.Some? ==> far.forwarding.value.value.description / 256 % 2 == 0)
  }

  lemma ComposedForward(far: FarIE)
    requires ComposeFarInfo(far, ZERO_FAR).Ok? && AsksToForward(far)
    ensures var info := ComposeFarInfo(far, ZERO_FAR).value;
      info.action / 2 % 2 == 1 && info.outerHeaderCreation % 2 == 0
  {
    if far.forwarding.Some? && far.forwarding.value.Some? {
      LowBit(far.forwarding.value.value.description / 256);
    }
  }

  /** The bit rate a Create QER asks for uplink; 0 is unlimited. */
  function RateUL(qer: QerIE): nat { if qer.mbrUL.Some? then BitRate(qer.mbrUL.value) else 0 }

  /** A whole IP frame that is not a ping to the user plane itself. */
  predicate Routable(config: Config, g: seq<Byte>) {
    && |g| >= 34 && EthertypeAgrees(g) && P.Reinit(g)
    && !(P.GuessEthertype(g[14]) == Some(P.ETH_P_IP) && IsLocal(config, g[30..34]) && g[23] == 1)
  }

  /** The PDR wants the inner packet: it has no flow description, or the packet is IPv4 and accepted. */
  ghost predicate WantsInner(pdr: PdrIE, g: seq<Byte>)
    requires |g| >= 34
  {
    || pdr.flow.None?
    || (P.GuessEthertype(g[14]) == Some(P.ETH_P_IP) && TransportFits(g, 14 + g[14] % 16 * 4, g[23])
        && Wants(pdr, Inspect(g, 14)))
  }

  /** g is what remove_gtp_header leaves of f, whose outer IPv4 header has no options. */
  ghost predicate StripsTo(f: seq<Byte>, g: seq<Byte>) {
    |f| >= 50 && P.Stripped(f, f[42]) == Some(g)
  }

  /** Where parse_gtp leaves the cursor in such a frame. */
  function InnerAt(f: seq<Byte>): nat
    requires |f| >= 50
  {
    50 + P.GtpExtra(f[42])
  }

  /** The inner packet is the same behind the tunnel headers and behind the new Ethernet header. */
  lemma ShiftedBytes(f: seq<Byte>, g: seq<Byte>)
    requires StripsTo(f, g)
    ensures |f| == |g| + InnerAt(f) - 14 && |g| >= 15 && f[InnerAt(f)..] == g[14..]
    ensures forall k {:trigger g[k]} :: 14 <= k < |g| ==> f[k + InnerAt(f) - 14] == g[k]
  {
    var at := InnerAt(f);
    var proto := P.GuessEthertype(f[at]).value;
    assert g == f[..12] + P.Be16(proto) + f[at..];
    assert g[14..] == f[at..];
    forall k {:trigger g[k]} | 14 <= k < |g| ensures f[k + at - 14] == g[k] {
      assert f[at..][k - 14] == g[14..][k - 14];
    }
  }

  lemma InnerIsSeen(f: seq<Byte>, g: seq<Byte>)
    requires StripsTo(f, g) && |g| >= 34
    ensures var at := InnerAt(f);
      && at + 20 <= |f| && f[at] == g[14]
      && Inspect(f, at) == Inspect(g, 14)
      && (TransportFits(f, at + f[at] % 16 * 4, f[at + 9]) <==> TransportFits(g, 14 + g[14] % 16 * 4, g[23]))
  {
    ShiftedBytes(f, g);
    var at := InnerAt(f);
    assert f[at] == g[14] && f[at + 9] == g[23];
    assert f[at + 12..at + 16] == g[26..30] && f[at + 16..at + 20] == g[30..34];
  }

  /** The new Ethernet header agrees with the inner packet. */
  lemma StrippedAgrees(f: seq<Byte>, g: seq<Byte>)
    requires StripsTo(f, g)
    ensures |g| >= 15 && EthertypeAgrees(g)
  {
    ShiftedBytes(f, g);
    var proto := P.GuessEthertype(f[InnerAt(f)]).value;
    assert g == f[..12] + P.Be16(proto) + f[InnerAt(f)..];
    assert g[12..14] == P.Be16(proto) && g[14] == f[InnerAt(f)];
  }

  /** Selection on a record that wants the inner packet. */
  lemma WantedInnerSelects(r: PdrRecord, f: seq<Byte>, g: seq<Byte>, v6: bool)
    requires StripsTo(f, g) && |g| >= 34
    requires r.mode != 0 ==> P.GuessEthertype(g[14]) == Some(P.ETH_P_IP) && TransportFits(g, 14 + g[14] % 16 * 4, g[23])
    ensures SelectInner(r, f, InnerAt(f), v6) == Classify(Some(r), Inspect(g, 14))
  {
    InnerIsSeen(f, g);
  }

  /** A routable frame comes out of its tunnel and is sent. */
  lemma RoutableLeaves(t: Tables, f: seq<Byte>, g: seq<Byte>, removal: nat, far: FarInfo, headroom: nat, config: Config,
                       later: nat)
    requires StripsTo(f, g) && Routable(config, g) && far.outerHeaderCreation % 2 == 0 && (removal == 0 || removal == 6)
    ensures Forward(t, f, 34, 42, removal, far, headroom, config, later) == (t, g, SentN6)
  {
    StrippedAgrees(f, g);
    EthertypeIsParsed(g);
    assert Outgoing(f, 34, 42, removal, far, headroom, config.n9)
        == (g, Some((P.Reparsed(g).1.Some?, headroom + P.StripSize(f[42]))));
  }

  lemma EthertypeIsParsed(g: seq<Byte>)
    requires |g| >= 34 && EthertypeAgrees(g) && P.Reinit(g)
    ensures P.Reparsed(g).1.Some? ==> P.GuessEthertype(g[14]) == Some(P.ETH_P_IP)
  {
    var proto := P.GuessEthertype(g[14]).value;
    assert g[12] == g[12..14][0] && g[13] == g[12..14][1];
    assert P.Get16(g, 12) == proto;
  }

  /**
   * The inner frame g is sent on if the limiter with its window at start lets the tunnelled frame f
   * through; otherwise f is dropped.
   */
  ghost predicate Delivered(end: (Tables, seq<Byte>, Fate), f: seq<Byte>, g: seq<Byte>, now: nat, qer: QerIE,
                            start: nat)
  {
    var (_, h, fate) := end;
    if L.Limit(start, |f|, RateUL(qer), now).1 then fate == SentN6 && h == g else fate == Dropped && h == f
  }

  lemma SelectedIsDelivered(t: Tables, f: seq<Byte>, g: seq<Byte>, headroom: nat, config: Config, now: nat,
                            later: nat, v6: bool, far: FarIE, qer: QerIE, sel: Selection)
    requires StripsTo(f, g) && Routable(config, g) && AsksToForward(far) && qer.gateUL.GetOr(0) == 0
    requires sel.outerHeaderRemoval == 0 || sel.outerHeaderRemoval == 6
    requires SelectByTeid(t, f, 42, InnerAt(f), v6) == Use(sel)
    requires sel.farId < |t.fars| && sel.qerId < |t.qers|
    requires ComposeFarInfo(far, ZERO_FAR) == Ok(t.fars[sel.farId])
    requires Settings(t.qers[sel.qerId]) == UpdateQerInfo(ZERO_QER, qer)
    ensures Delivered(UplinkPath(t, f, 34, 42, InnerAt(f), headroom, config, now, later, v6), f, g, now, qer,
                      t.qers[sel.qerId].startUL)
  {
    ComposedForward(far);
    var slot := t.qers[sel.qerId];
    assert slot.gateStatusUL == Settings(slot).gateStatusUL && slot.maxBitrateUL == Settings(slot).maxBitrateUL;
    RoutableLeaves(PoliceUplink(t, sel, ChargedByTeid(t, f, 42), |f|, now).0, f, g, sel.outerHeaderRemoval,
                   t.fars[sel.farId],
                   headroom, config, later);
  }

  /** The state after an establishment and a run of other sessions. */
  ghost function After(env: Env, w: State, addr: string, est: W.EstablishReq, run: seq<Event>): Shared {
    Run(env, W.Establish(env, w, addr, est).state, run).shared
  }

  /** The PDR has no flow description, or it wants the packet the handler finds in f, in the frame g. */
  ghost predicate WantsFound(pdr: PdrIE, f: seq<Byte>, g: seq<Byte>) {
    pdr.flow.None? || (StripsTo(f, g) && |g| >= 34 && WantsInner(pdr, g))
  }

  /** Frames PDR j wants select its FAR and QER, still after the run. */
  lemma InnerSelects(env: Env, w: State, addr: string, est: W.EstablishReq, i: nat, k: nat, j: nat, run: seq<Event>,
                     f: seq<Byte>, g: seq<Byte>, v6: bool)
    requires Inv(w.shared, w.sessions) && W.Establish(env, w, addr, est).response.cause == W.Accepted
    requires |f| >= 50 && Serves(env, w, addr, est, i, k, j, PdrKey.Uplink(P.Get32(f, 46)))
    requires WantsFound(est.createPdrs[j], f, g)
    requires var v := W.Establish(env, w, addr, est).state;
      && WellFormedRun(env, v, run)
      && OthersOnly(env, v, run, W.SessKey(addr, W.NextSeid(w.next[addr])), PdrKey.Uplink(P.Get32(f, 46)))
    ensures var sess := NewlyStored(env, w, addr, est);
      && FarId(est.createFars[i]) in sess.fars && QerId(est.createQers[k]) in sess.qers
      && var verdict := SelectByTeid(TablesIn(After(env, w, addr, est, run)), f, 42, InnerAt(f), v6);
         && verdict.Use?
         && verdict.selection.farId == sess.fars[FarId(est.createFars[i])].globalId
         && verdict.selection.qerId == sess.qers[QerId(est.createQers[k])].globalId
         && verdict.selection.outerHeaderRemoval == est.createPdrs[j].outerHeaderRemoval.GetOr(0)
  {
    var key := PdrKey.Uplink(P.Get32(f, 46));
    RulesPersist(env, w, addr, est, i, k, j, key, run);
    if est.createPdrs[j].flow.None? {
      WantedPacketsSelect(env, w, addr, est, i, k, j, key, Inspect(f, 14));
    } else {
      WantedPacketsSelect(env, w, addr, est, i, k, j, key, Inspect(g, 14));
      WantedInnerSelects(After(env, w, addr, est, run).pdrs[key], f, g, v6);
    }
  }

  /**
   * The handler on the established tables.  After an accepted establishment whose FAR i forwards
   * without a new outer header, whose QER k has an open gate and whose PDR j has the outer header
   * removed, and after any run in which only other sessions act, on other keys, and packets flow:
   * if what remove_gtp_header leaves of a frame under the PDR's TEID is a routable frame g that the PDR
   * wants, g is sent on, subject to the limiter window in the QER's slot.
   */
  lemma HandlerDelivers(env: Env, w: State, addr: string, est: W.EstablishReq, i: nat, k: nat, j: nat, run: seq<Event>,
                        f: seq<Byte>, g: seq<Byte>, headroom: nat, config: Config, now: nat, later: nat, v6: bool)
    requires Inv(w.shared, w.sessions) && W.Establish(env, w, addr, est).response.cause == W.Accepted
    requires StripsTo(f, g) && Routable(config, g) && Serves(env, w, addr, est, i, k, j, PdrKey.Uplink(P.Get32(f, 46)))
    requires WantsInner(est.createPdrs[j], g)
    requires est.createPdrs[j].outerHeaderRemoval.GetOr(0) == 0 || est.createPdrs[j].outerHeaderRemoval.GetOr(0) == 6
    requires AsksToForward(est.createFars[i]) && est.createQers[k].gateUL.GetOr(0) == 0
    requires var v := W.Establish(env, w, addr, est).state;
      && WellFormedRun(env, v, run)
      && OthersOnly(env, v, run, W.SessKey(addr, W.NextSeid(w.next[addr])), PdrKey.Uplink(P.Get32(f, 46)))
    ensures var s := After(env, w, addr, est, run);
      var sess := NewlyStored(env, w, addr, est);
      && QerId(est.createQers[k]) in sess.qers
      && var qer := sess.qers[QerId(est.createQers[k])].globalId;
         && qer < |s.qer.slots| && (run == [] ==> s.qer.slots[qer].startUL == 0)
         && Delivered(UplinkPath(TablesIn(s), f, 34, 42, InnerAt(f), headroom, config, now, later, v6), f, g, now,
                      est.createQers[k],
                      s.qer.slots[qer].startUL)
  {
    var s := After(env, w, addr, est, run);
    InnerSelects(env, w, addr, est, i, k, j, run, f, g, v6);
    EstablishedRules(env, w, addr, est, i, k);
    RulesPersist(env, w, addr, est, i, k, j, PdrKey.Uplink(P.Get32(f, 46)), run);
    var sel := SelectByTeid(TablesIn(s), f, 42, InnerAt(f), v6).selection;
    SelectedIsDelivered(TablesIn(s), f, g, headroom, config, now, later, v6, est.createFars[i], est.createQers[k], sel);
  }

  /**
   * A frame for another user plane, if the limiter with its window at start lets it through: it leaves
   * under the TEID of the FAR, between n9 and the FAR's peer, with its payload unchanged.
   */
  ghost predicate Handed(end: (Tables, seq<Byte>, Fate), f: seq<Byte>, config: Config, now: nat, far: FarIE,
                         qer: QerIE, start: nat)
    requires |f| >= 50 && AsksForTunnel(far)
  {
    var (_, h, fate) := end;
    var ohc := far.forwarding.value.value;
    if L.Limit(start, |f|, RateUL(qer), now).1 then
      && fate == SentN6 && |h| == |f| && HeaderVerifies(h, 14)
      && h[26..30] == config.n9 && h[30..34] == ohc.ip4.value && P.Get32(h, 46) == ohc.teid % 0x1_0000_0000
      && h[50..] == f[50..]
    else fate == Dropped && h == f
  }

  lemma SelectedIsHanded(t: Tables, f: seq<Byte>, headroom: nat, config: Config, now: nat, later: nat, v6: bool,
                         far: FarIE, qer: QerIE, sel: Selection)
    requires |f| >= 50 && f[23] == 17 && AsksForTunnel(far) && qer.gateUL.GetOr(0) == 0
    requires SelectByTeid(t, f, 42, InnerAt(f), v6) == Use(sel)
    requires sel.farId < |t.fars| && sel.qerId < |t.qers|
    requires ComposeFarInfo(far, ZERO_FAR) == Ok(t.fars[sel.farId])
    requires Settings(t.qers[sel.qerId]) == UpdateQerInfo(ZERO_QER, qer)
    ensures Handed(UplinkPath(t, f, 34, 42, InnerAt(f), headroom, config, now, later, v6), f, config, now, far, qer,
                   t.qers[sel.qerId].startUL)
  {
    ComposedTunnel(far);
    AddressBytesBack(far.forwarding.value.value.ip4.value);
    var slot := t.qers[sel.qerId];
    assert slot.gateStatusUL == Settings(slot).gateStatusUL && slot.maxBitrateUL == Settings(slot).maxBitrateUL;
    RetunnelledIsSent(PoliceUplink(t, sel, ChargedByTeid(t, f, 42), |f|, now).0, f, 34, 42, sel.outerHeaderRemoval,
                      t.fars[sel.farId], headroom, config, later);
  }

  /**
   * The same towards another user plane: as HandlerDelivers, for a FAR i that asks for a tunnel: the
   * frame leaves in the tunnel of the Create FAR.
   */
  lemma HandlerHandsOn(env: Env, w: State, addr: string, est: W.EstablishReq, i: nat, k: nat, j: nat, run: seq<Event>,
                       f: seq<Byte>, g: seq<Byte>, headroom: nat, config: Config, now: nat, later: nat, v6: bool)
    requires Inv(w.shared, w.sessions) && W.Establish(env, w, addr, est).response.cause == W.Accepted
    requires |f| >= 50 && f[23] == 17
    requires Serves(env, w, addr, est, i, k, j, PdrKey.Uplink(P.Get32(f, 46)))
    requires WantsFound(est.createPdrs[j], f, g)
    requires AsksForTunnel(est.createFars[i]) && est.createQers[k].gateUL.GetOr(0) == 0
    requires var v := W.Establish(env, w, addr, est).state;
      && WellFormedRun(env, v, run)
      && OthersOnly(env, v, run, W.SessKey(addr, W.NextSeid(w.next[addr])), PdrKey.Uplink(P.Get32(f, 46)))
    ensures var s := After(env, w, addr, est, run);
      var sess := NewlyStored(env, w, addr, est);
      && QerId(est.createQers[k]) in sess.qers
      && var qer := sess.qers[QerId(est.createQers[k])].globalId;
         && qer < |s.qer.slots| && (run == [] ==> s.qer.slots[qer].startUL == 0)
         && Handed(UplinkPath(TablesIn(s), f, 34, 42, InnerAt(f), headroom, config, now, later, v6), f, config, now,
                   est.createFars[i], est.createQers[k], s.qer.slots[qer].startUL)
  {
    var s := After(env, w, addr, est, run);
    InnerSelects(env, w, addr, est, i, k, j, run, f, g, v6);
    EstablishedRules(env, w, addr, est, i, k);
    RulesPersist(env, w, addr, est, i, k, j, PdrKey.Uplink(P.Get32(f, 46)), run);
    var sel := SelectByTeid(TablesIn(s), f, 42, InnerAt(f), v6).selection;
    SelectedIsHanded(TablesIn(s), f, headroom, config, now, later, v6, est.createFars[i], est.createQers[k], sel);
  }
}
