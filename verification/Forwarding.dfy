/**
 * Where the two halves meet: the downlink path of the data plane, run on the tables the control
 * plane wrote, and what it does with a packet for a UE after a session was established.
 */
module Forwarding {
  import opened Base
  import opened RuleTables
  import opened Resources
  import opened SdfParser
  import opened SdfRoundTrip
  import opened SdfMatch
  import opened PdrRecords
  import opened Rules
  import opened SessionSpec
  import opened SessionLemmas
  import W = World
  import opened Ownership
  import opened Runs
  import opened Isolation
  import opened Resolution
  import opened SharedRuns
  import opened Handlers
  import opened XdpProgram
  import P = Packets
  import L = RateLimiter

  // ---------------------------------------------------------------- what the program sees

  /** The PDR tables and the FAR, QER and URR arrays as the data plane reads them. */
  datatype Tables = Tables(pdrs: map<PdrKey, PdrRecord>, fars: seq<FarInfo>, qers: seq<QerInfo>, urrs: seq<UrrInfo>)

  /** The size of the transport header whose ports are read, 0 for other protocols. */
  function TransportSize(protocol: Byte): nat { if protocol == 17 then 8 else if protocol == 6 then 20 else 0 }

  /** The header fields of the IPv4 packet at position ip, with its ports if they are in the frame. */
  function Inspect(f: seq<Byte>, ip: nat): Packet
    requires ip + 20 <= |f|
  {
    var at := ip + f[ip] % 16 * 4;
    var size := TransportSize(f[ip + 9]);
    Packet(f[ip + 12..ip + 16], f[ip + 16..ip + 20], f[ip + 9],
           if size != 0 && at + size <= |f| then Some((P.Get16(f, at), P.Get16(f, at + 2))) else None)
  }

  /** The bytes of a 32-bit number in memory. */
  function AddressBytes(n: nat): Ip4 {
    [n % 0x100, n / 0x100 % 0x100, n / 0x1_0000 % 0x100, n / 0x100_0000 % 0x100]
  }

  lemma LowByte(b: Byte, rest: nat)
    ensures (b as nat + 0x100 * rest) % 0x100 == b as nat && (b as nat + 0x100 * rest) / 0x100 == rest
  {
  }

  lemma DivideTwice(n: nat)
    ensures n / 0x1_0000 == n / 0x100 / 0x100 && n / 0x100_0000 == n / 0x1_0000 / 0x100
  {
  }

  lemma BytesOfNumber(a: Byte, b: Byte, c: Byte, d: Byte)
    ensures AddressBytes(Number(a, b, c, d)) == [a, b, c, d]
  {
    var high := c as nat + 0x100 * (d as nat);
    var rest := b as nat + 0x100 * high;
    var n := a as nat + 0x100 * rest;
    assert Number(a, b, c, d) == n;
    LowByte(a, rest);
    LowByte(b, high);
    LowByte(c, d as nat);
    DivideTwice(n);
  }

  lemma AddressBytesBack(b: Ip4)
    ensures AddressBytes(LittleEndian(b)) == b
  {
    BytesOfNumber(b[0], b[1], b[2], b[3]);
  }

  // ---------------------------------------------------------------- FAR, QER and URR instructions

  /** FAR_FORW, and an outer header of GTP-U over UDP over IPv4. */
  predicate Tunnels(far: FarInfo) { far.action / 2 % 2 == 1 && far.outerHeaderCreation % 2 == 1 }

  /** update_urr for downlink bytes; an id out of range is ignored. */
  function AddVolume(urrs: seq<UrrInfo>, id: nat, size: nat): seq<UrrInfo> {
    if id < |urrs| then urrs[id := urrs[id].(downlinkVolume := (urrs[id].downlinkVolume + size) % L.TWO64)] else urrs
  }

  /** The tables after a packet of the given size, and the FAR and QER that let it through. */
  function Police(t: Tables, sel: Selection, urrs: (nat, nat), size: nat, now: nat)
    : (Tables, Option<(FarInfo, QerInfo)>)
  {
    if sel.farId >= |t.fars| || !Tunnels(t.fars[sel.farId]) || sel.qerId >= |t.qers|
      || t.qers[sel.qerId].gateStatusDL != 0 then
      (t, None)
    else
      var far, qer := t.fars[sel.farId], t.qers[sel.qerId];
      var (start, pass) := L.Limit(qer.startDL, size, qer.maxBitrateDL, now);
      if pass then (t.(qers := t.qers[sel.qerId := qer.(startDL := start)],
                       urrs := AddVolume(AddVolume(t.urrs, urrs.0, size), urrs.1, size)),
                    Some((far, qer)))
      else (t, None)
  }

  // ---------------------------------------------------------------- the path of one frame

  /** Sent frames were counted as transmitted to N3 or to N6 and handed to routing. */
  datatype Fate = Passed | Dropped | Aborted | SentN3 | SentN6

  /** The frame sent into the tunnel a FAR describes; its packet claims to have ipLen bytes. */
  function Tunnelled(f: seq<Byte>, ipLen: nat, n3: Ip4, far: FarInfo, qer: QerInfo): seq<Byte>
    requires |f| >= 14
  {
    P.Encapsulated(f, n3, AddressBytes(far.remoteIp), far.transportLevelMarking / 0x100 % 0x100, qer.qfi % 0x100,
                   far.teid, ipLen)
  }

  /** The frame goes into the tunnel of the FAR that admits it. */
  function Deliver(t: Tables, sel: Selection, urrs: (nat, nat), f: seq<Byte>, ipLen: nat, headroom: nat, n3: Ip4,
                   now: nat)
    : (Tables, seq<Byte>, Fate)
    requires |f| >= 14
  {
    match Police(t, sel, urrs, |f|, now)
    case (u, None) => (u, f, Dropped)
    case (u, Some((far, qer))) =>
      if headroom < 44 then (u, f, Aborted) else (u, Tunnelled(f, ipLen, n3, far, qer), SentN3)
  }

  /** Tables, frame and fate after handle_n6_packet_ipv4. */
  function Downlink(t: Tables, f: seq<Byte>, headroom: nat, n3: Ip4, now: nat): (Tables, seq<Byte>, Fate)
    requires |f| >= 34
  {
    var p := Inspect(f, 14);
    if Downlink4(p.dst) !in t.pdrs then (t, f, Passed)
    else
      var pdr := t.pdrs[Downlink4(p.dst)];
      match Classify(Some(pdr), p)
      case PassUp => (t, f, Passed)
      case Use(sel) => Deliver(t, sel, Charged(pdr), f, P.Get16(f, 16), headroom, n3, now)
  }

  /** Tables, frame and fate after handle_n6_packet_ipv6; v6 is the answer of the IPv6 matcher. */
  function DownlinkIp6(t: Tables, f: seq<Byte>, headroom: nat, n3: Ip4, now: nat, v6: bool): (Tables, seq<Byte>, Fate)
    requires |f| >= 54
  {
    if Downlink6(f[38..54]) !in t.pdrs then (t, f, Passed)
    else
      var pdr := t.pdrs[Downlink6(f[38..54])];
      match Choose(pdr, v6)
      case PassUp => (t, f, Passed)
      case Use(sel) => Deliver(t, sel, Charged(pdr), f, P.Get16(f, 18) + 40, headroom, n3, now)
  }

  // ---------------------------------------------------------------- on the objects

  ghost function TablesOf(bpf: BpfObjects): Tables
    reads bpf, bpf.far.slots, bpf.qer.slots, bpf.urr.slots
  {
    Tables(bpf.pdrs, bpf.far.slots[..], bpf.qer.slots[..], bpf.urr.slots[..])
  }

  /** The three arrays are three objects. */
  ghost predicate DistinctArrays(bpf: BpfObjects) {
    && bpf.qer.slots as object != bpf.urr.slots && bpf.far.slots as object != bpf.qer.slots
    && bpf.far.slots as object != bpf.urr.slots
  }

  /** Tables and packet share no object. */
  ghost predicate Apart(bpf: BpfObjects, ctx: PacketContext) {
    {bpf.qer.slots, bpf.urr.slots, bpf.far.slots, bpf} !! {ctx, ctx.buf, ctx.buf.mem}
  }

  method ReadPorts(ctx: PacketContext, at: nat, size: nat) returns (ports: Option<(nat, nat)>)
    requires ctx.Valid() && (size == 0 || size >= 4)
    ensures ports == if size != 0 && at + size <= |ctx.Frame()|
                     then Some((P.Get16(ctx.Frame(), at), P.Get16(ctx.Frame(), at + 2)))
                     else None
  {
    if size == 0 || at + size > ctx.buf.end - ctx.buf.data {
      return None;
    }
    var source := ctx.Read16(at);
    var dest := ctx.Read16(at + 2);
    return Some((source, dest));
  }

  method ReadPacket(ctx: PacketContext, ip: nat) returns (p: Packet)
    requires ctx.Valid() && ip + 20 <= ctx.buf.end - ctx.buf.data
    ensures p == Inspect(ctx.Frame(), ip)
  {
    var first := ctx.Read(ip);
    var protocol := ctx.Read(ip + 9);
    var src := ctx.buf.Slice(ip + 12, ip + 16);
    var dst := ctx.buf.Slice(ip + 16, ip + 20);
    var ports := ReadPorts(ctx, ip + first % 16 * 4, TransportSize(protocol));
    p := Packet(src, dst, protocol, ports);
  }

  /** limit_rate_sliding_window on the downlink window of a QER slot. */
  method LimitSlot(slots: array<QerInfo>, id: nat, size: nat, now: nat) returns (pass: bool)
    requires id < slots.Length
    modifies slots
    ensures var qer := old(slots[id]);
      && pass == L.Limit(qer.startDL, size, qer.maxBitrateDL, now).1
      && slots[..] == old(slots[..])[id := qer.(startDL := L.Limit(qer.startDL, size, qer.maxBitrateDL, now).0)]
  {
    var qer := slots[id];
    var (start, admitted) := L.Limit(qer.startDL, size, qer.maxBitrateDL, now);
    slots[id] := qer.(startDL := start);
    pass := admitted;
  }

  method UpdateUrr(slots: array<UrrInfo>, id: nat, size: nat)
    modifies slots
    ensures slots[..] == AddVolume(old(slots[..]), id, size)
  {
    if id < slots.Length {
      slots[id] := slots[id].(downlinkVolume := (slots[id].downlinkVolume + size) % L.TWO64);
    }
  }

  /** The FAR, QER and URR steps. */
  method PolicePacket(bpf: BpfObjects, sel: Selection, urrs: (nat, nat), size: nat, now: nat)
    returns (r: Option<(FarInfo, QerInfo)>)
    requires DistinctArrays(bpf)
    modifies bpf.qer.slots, bpf.urr.slots
    ensures (TablesOf(bpf), r) == Police(old(TablesOf(bpf)), sel, urrs, size, now)
  {
    if sel.farId >= bpf.far.slots.Length {
      return None;
    }
    var far := bpf.far.slots[sel.farId];
    if !Tunnels(far) {
      return None;
    }
    if sel.qerId >= bpf.qer.slots.Length {
      return None;
    }
    var qer := bpf.qer.slots[sel.qerId];
    if qer.gateStatusDL != 0 {
      return None;
    }
    var pass := LimitSlot(bpf.qer.slots, sel.qerId, size, now);
    if !pass {
      assert bpf.qer.slots[..] == old(bpf.qer.slots[..]);
      return None;
    }
    UpdateUrr(bpf.urr.slots, urrs.0, size);
    UpdateUrr(bpf.urr.slots, urrs.1, size);
    return Some((far, qer));
  }

  /** The branches on the SDF mode. */
  method SelectRules(pdr: PdrRecord, p: Packet) returns (verdict: Verdict)
    ensures verdict == Classify(Some(pdr), p)
  {
    if pdr.mode != 0 {
      if FilterMatches(pdr.filter, p) {
        return Use(pdr.filtered);
      } else if pdr.mode % 2 == 1 {
        return PassUp;
      }
    }
    return Use(pdr.default);
  }

  /** send_to_gtp_tunnel, up to routing. */
  method SendToGtpTunnel(ctx: PacketContext, ghost ipLen: nat, n3: Ip4, far: FarInfo, qer: QerInfo) returns (fate: Fate)
    requires ctx.Valid() && ctx.InnerLength() == Some(ipLen)
    modifies ctx, ctx.buf, ctx.buf.mem
    ensures ctx.Valid()
    ensures fate == if old(ctx.buf.data) < 44 then Aborted else SentN3
    ensures |old(ctx.Frame())| >= 34
    ensures ctx.Frame() == if fate == SentN3 then Tunnelled(old(ctx.Frame()), ipLen, n3, far, qer) else old(ctx.Frame())
  {
    var ok := ctx.AddGtpOverIp4Headers(n3, AddressBytes(far.remoteIp),
                                       far.transportLevelMarking / 0x100 % 0x100, qer.qfi % 0x100, far.teid);
    fate := if ok then SentN3 else Aborted;
  }

  method DeliverFrame(bpf: BpfObjects, ctx: PacketContext, sel: Selection, urrs: (nat, nat), ghost ipLen: nat,
                      n3: Ip4, now: nat)
    returns (fate: Fate)
    requires ctx.Valid() && ctx.InnerLength() == Some(ipLen)
    requires DistinctArrays(bpf) && Apart(bpf, ctx)
    modifies bpf.qer.slots, bpf.urr.slots, ctx, ctx.buf, ctx.buf.mem
    ensures ctx.Valid()
    ensures |old(ctx.Frame())| >= 34
    ensures (TablesOf(bpf), ctx.Frame(), fate)
         == Deliver(old(TablesOf(bpf)), sel, urrs, old(ctx.Frame()), ipLen, old(ctx.buf.data), n3, now)
  {
    var r := PolicePacket(bpf, sel, urrs, ctx.buf.end - ctx.buf.data, now);
    assert ctx.Frame() == old(ctx.Frame());
    if r.None? {
      return Dropped;
    }
    fate := SendToGtpTunnel(ctx, ipLen, n3, r.value.0, r.value.1);
  }

  /** handle_n6_packet_ipv4. */
  method HandleN6PacketIpv4(bpf: BpfObjects, ctx: PacketContext, n3: Ip4, now: nat) returns (fate: Fate)
    requires ctx.Valid() && ctx.ip4 == Some(14)
    requires DistinctArrays(bpf) && Apart(bpf, ctx)
    modifies bpf.qer.slots, bpf.urr.slots, ctx, ctx.buf, ctx.buf.mem
    ensures ctx.Valid()
    ensures (TablesOf(bpf), ctx.Frame(), fate)
        == Downlink(old(TablesOf(bpf)), old(ctx.Frame()), old(ctx.buf.data), n3, now)
  {
    var p := ReadPacket(ctx, 14);
    if Downlink4(p.dst) !in bpf.pdrs {
      return Passed;
    }
    var pdr := bpf.pdrs[Downlink4(p.dst)];
    var verdict := SelectRules(pdr, p);
    if verdict.PassUp? {
      return Passed;
    }
    fate := DeliverFrame(bpf, ctx, verdict.selection, Charged(pdr), P.Get16(ctx.Frame(), 16), n3, now);
  }

  /** handle_n6_packet_ipv6. */
  method HandleN6PacketIpv6(bpf: BpfObjects, ctx: PacketContext, n3: Ip4, now: nat, v6: bool) returns (fate: Fate)
    requires ctx.Valid() && ctx.ip4 == None && ctx.ip6 == Some(14)
    requires DistinctArrays(bpf) && Apart(bpf, ctx)
    modifies bpf.qer.slots, bpf.urr.slots, ctx, ctx.buf, ctx.buf.mem
    ensures ctx.Valid()
    ensures (TablesOf(bpf), ctx.Frame(), fate)
         == DownlinkIp6(old(TablesOf(bpf)), old(ctx.Frame()), old(ctx.buf.data), n3, now, v6)
  {
    var daddr := ctx.buf.Slice(38, 54);
    if Downlink6(daddr) !in bpf.pdrs {
      return Passed;
    }
    var pdr := bpf.pdrs[Downlink6(daddr)];
    var sel := pdr.default;
    if pdr.mode != 0 {
      if v6 {
        sel := pdr.filtered;
      } else if pdr.mode % 2 == 1 {
        return Passed;
      }
    }
    fate := DeliverFrame(bpf, ctx, sel, Charged(pdr), P.Get16(ctx.Frame(), 18) + 40, n3, now);
  }

  // ---------------------------------------------------------------- packets are traffic

  function TablesIn(s: Shared): Tables { Tables(s.pdrs, s.far.slots, s.qer.slots, s.urr.slots) }

  /** What a downlink packet does to the tables is a Traffic event of the control plane's runs. */
  lemma DownlinkIsTraffic(s: Shared, f: seq<Byte>, headroom: nat, n3: Ip4, now: nat)
    requires |f| >= 34
    ensures var t := Downlink(TablesIn(s), f, headroom, n3, now).0;
      && t.pdrs == s.pdrs && t.fars == s.far.slots
      && TrafficOk(s, t.qers, t.urrs)
  {
  }

  lemma DownlinkIp6IsTraffic(s: Shared, f: seq<Byte>, headroom: nat, n3: Ip4, now: nat, v6: bool)
    requires |f| >= 54
    ensures var t := DownlinkIp6(TablesIn(s), f, headroom, n3, now, v6).0;
      && t.pdrs == s.pdrs && t.fars == s.far.slots
      && TrafficOk(s, t.qers, t.urrs)
  {
  }

  // ---------------------------------------------------------------- whose volume a packet is added to

  /** Volumes are 64-bit: less than 2^64 more bytes is a change, so a frame added twice shows. */
  lemma AddedTwice(urrs: seq<UrrInfo>, id: nat, size: nat)
    requires id < |urrs| && 0 < size < 0x8000_0000_0000_0000
    ensures AddVolume(AddVolume(urrs, id, size), id, size)[id] != urrs[id]
    ensures AddVolume(AddVolume(urrs, id, size), id, size)[id].downlinkVolume
        == (urrs[id].downlinkVolume + 2 * size) % L.TWO64
  {
    var v := urrs[id].downlinkVolume;
    assert ((v + size) % L.TWO64 + size) % L.TWO64 == (v + 2 * size) % L.TWO64;
    assert (v + 2 * size) % L.TWO64 != v;
  }

  /** While records name no URR, an admitted frame is added to URR slot 0, twice, and to no other. */
  lemma DownlinkCharges(s: Shared, f: seq<Byte>, headroom: nat, n3: Ip4, now: nat)
    requires NoUrrIds(s.pdrs) && |f| >= 34
    ensures var (t, _, fate) := Downlink(TablesIn(s), f, headroom, n3, now);
      t.urrs == if fate == Passed || fate == Dropped then s.urr.slots
                else AddVolume(AddVolume(s.urr.slots, 0, |f|), 0, |f|)
  {
  }

  lemma DownlinkIp6Charges(s: Shared, f: seq<Byte>, headroom: nat, n3: Ip4, now: nat, v6: bool)
    requires NoUrrIds(s.pdrs) && |f| >= 54
    ensures var (t, _, fate) := DownlinkIp6(TablesIn(s), f, headroom, n3, now, v6);
      t.urrs == if fate == Passed || fate == Dropped then s.urr.slots
                else AddVolume(AddVolume(s.urr.slots, 0, |f|), 0, |f|)
  {
  }

  /**
   * The URR a PDR names sees the PDR's packets exactly when its global id happens to be 0: at once
   * and after any run, an admitted frame, the PDR's own included, changes the slot of the PDR's first
   * URR if and only if that slot is slot 0.
   */
  lemma OwnUrrSeesPacketIff(env: Env, w: State, addr: string, est: W.EstablishReq, j: nat, run: seq<Event>,
                            f: seq<Byte>, headroom: nat, n3: Ip4, now: nat)
    requires NoUrrIds(w.shared.pdrs) && W.Establish(env, w, addr, est).response.cause == W.Accepted
    requires j < |est.createPdrs|
    requires est.createPdrs[j].urrIds != [] && 34 <= |f| < 0x8000_0000_0000_0000
    requires var s := Run(env, W.Establish(env, w, addr, est).state, run).shared;
      && Downlink(TablesIn(s), f, headroom, n3, now).2 in {SentN3, Aborted}
      && |CreatedBy(env, w, addr, est)| == |est.createPdrs|
      && CreatedBy(env, w, addr, est)[j].info.urr1Id < |s.urr.slots|
    ensures var s := Run(env, W.Establish(env, w, addr, est).state, run).shared;
      var own := CreatedBy(env, w, addr, est)[j].info.urr1Id;
      && own == Lookup(NewlyStored(env, w, addr, est).urrs, est.createPdrs[j].urrIds[0], Rule(ZERO_URR, 0)).globalId
      && (Downlink(TablesIn(s), f, headroom, n3, now).0.urrs[own] != s.urr.slots[own] <==> own == 0)
  {
    EstablishedPdr(env, w, addr, est, j);
    StepKeeps(env, w, EstablishMsg(addr, est), 0);
    var v := W.Establish(env, w, addr, est).state;
    RunKeeps(env, v, run, 0);
    var s := Run(env, v, run).shared;
    DownlinkCharges(s, f, headroom, n3, now);
    if CreatedBy(env, w, addr, est)[j].info.urr1Id == 0 { AddedTwice(s.urr.slots, 0, |f|); }
  }

  // ---------------------------------------------------------------- after an establishment

  /** The packet is one the PDR describes: no flow description, or a rule that accepts it. */
  ghost predicate Wants(pdr: PdrIE, p: Packet) {
    || pdr.flow.None?
    || exists rule, style :: ValidRule(rule) && pdr.flow == Some(Print(rule, style)) && RuleAccepts(rule, p)
  }

  lemma WantedFilter(pdr: PdrIE, p: Packet, info: PdrInfo, resolved: PdrInfo)
    requires Wants(pdr, p) && resolved.sdf.None? && ResolveFlow(pdr.flow, resolved) == Ok(info)
    ensures Selects(info) == Selects(resolved)
    ensures info.sdf.Some? ==> FilterMatches(ToKernelFilter(info.sdf.value), p)
  {
    if pdr.flow.Some? {
      var rule, style :| ValidRule(rule) && pdr.flow == Some(Print(rule, style)) && RuleAccepts(rule, p);
      PrintedFlow(rule, style, p, resolved, info);
    }
  }

  /** A record follows the last put for the packets that put's filter accepts. */
  lemma StoredRecordUses(r: PdrRecord, info: PdrInfo, p: Packet)
    requires StoredFor(r, info) && (info.sdf.Some? ==> FilterMatches(ToKernelFilter(info.sdf.value), p))
    ensures Classify(Some(r), p) == Use(Selects(info))
  {
  }

  /** PDR j of the request, stored under key, names FAR i and QER k, and no later PDR takes its key. */
  ghost predicate Serves(env: Env, w: State, addr: string, est: W.EstablishReq, i: nat, k: nat, j: nat, key: PdrKey)
    requires W.Establish(env, w, addr, est).response.cause == W.Accepted
  {
    && i < |est.createFars| && k < |est.createQers| && j < |est.createPdrs| && j < |CreatedBy(env, w, addr, est)|
    && DistinctFarIds(est.createFars) && DistinctQerIds(est.createQers)
    && est.createPdrs[j].farId == Some(FarId(est.createFars[i]))
    && est.createPdrs[j].qerId == Some(QerId(est.createQers[k]))
    && KeyOf(CreatedBy(env, w, addr, est)[j]) == key
    && NoneWithKey(CreatedBy(env, w, addr, est), j + 1, key)
  }

  /** Packets the PDR wants select the global ids the session has for FAR i and QER k. */
  lemma WantedPacketsSelect(env: Env, w: State, addr: string, est: W.EstablishReq, i: nat, k: nat, j: nat,
                            key: PdrKey, p: Packet)
    requires W.Establish(env, w, addr, est).response.cause == W.Accepted
    requires Serves(env, w, addr, est, i, k, j, key) && Wants(est.createPdrs[j], p)
    ensures var s := W.Establish(env, w, addr, est).state.shared;
      var sess := NewlyStored(env, w, addr, est);
      && FarId(est.createFars[i]) in sess.fars && QerId(est.createQers[k]) in sess.qers && key in s.pdrs
      && var verdict := Classify(Some(s.pdrs[key]), p);
         && verdict.Use?
         && verdict.selection.farId == sess.fars[FarId(est.createFars[i])].globalId
         && verdict.selection.qerId == sess.qers[QerId(est.createQers[k])].globalId
         && verdict.selection.outerHeaderRemoval == est.createPdrs[j].outerHeaderRemoval.GetOr(0)
         && (est.createPdrs[j].flow.None? ==> s.pdrs[key].mode == 0)
  {
    var s := W.Establish(env, w, addr, est).state.shared;
    var sess := NewlyStored(env, w, addr, est);
    var pdr := est.createPdrs[j];
    EstablishedPdr(env, w, addr, est, j);
    EstablishedFar(env, w, addr, est, i);
    EstablishedQer(env, w, addr, est, k);
    var created := CreatedBy(env, w, addr, est)[j];
    WantedFilter(pdr, p, created.info, ResolveIds(sess, pdr, ZERO_PDR_INFO));
    StoredRecordUses(s.pdrs[key], created.info, p);
  }

  /** Those slots hold the record of FAR i, and of QER k up to its limiter windows. */
  ghost predicate HoldsRules(s: Shared, sess: SessionRec, far: FarIE, qer: QerIE) {
    && FarId(far) in sess.fars && QerId(qer) in sess.qers
    && sess.fars[FarId(far)].globalId < |s.far.slots| && sess.qers[QerId(qer)].globalId < |s.qer.slots|
    && ComposeFarInfo(far, ZERO_FAR) == Ok(s.far.slots[sess.fars[FarId(far)].globalId])
    && Settings(s.qer.slots[sess.qers[QerId(qer)].globalId]) == UpdateQerInfo(ZERO_QER, qer)
  }

  lemma EstablishedRules(env: Env, w: State, addr: string, est: W.EstablishReq, i: nat, k: nat)
    requires Inv(w.shared, w.sessions) && W.Establish(env, w, addr, est).response.cause == W.Accepted
    requires DistinctFarIds(est.createFars) && DistinctQerIds(est.createQers)
    requires i < |est.createFars| && k < |est.createQers|
    ensures HoldsRules(W.Establish(env, w, addr, est).state.shared, NewlyStored(env, w, addr, est),
                       est.createFars[i], est.createQers[k])
    ensures NewlyStored(env, w, addr, est).qers[QerId(est.createQers[k])].globalId
            < |W.Establish(env, w, addr, est).state.shared.qer.slots|
    ensures var s := W.Establish(env, w, addr, est).state.shared;
      var slot := s.qer.slots[NewlyStored(env, w, addr, est).qers[QerId(est.createQers[k])].globalId];
      slot.startUL == 0 && slot.startDL == 0
  {
    var v := W.Establish(env, w, addr, est).state;
    EstablishedFar(env, w, addr, est, i);
    EstablishedQer(env, w, addr, est, k);
    EstablishedQersMirrored(env, w, addr, est);
    EstablishKeepsInv(env, w, addr, est);
    assert Fars(v.sessions)[W.SessKey(addr, W.NextSeid(w.next[addr]))] == NewlyStored(env, w, addr, est).fars;
  }

  // ---------------------------------------------------------------- end to end

  /** A Create FAR that forwards into GTP-U over IPv4. */
  predicate AsksForTunnel(far: FarIE) {
    && far.action.Some? && far.action.value / 2 % 2 == 1
    && far.forwarding.Some? && far.forwarding.value.Some?
    && far.forwarding.value.value.description / 256 % 2 == 1 && far.forwarding.value.value.ip4.Some?
  }

  /** The fields of the record composed from it. */
  lemma ComposedTunnel(far: FarIE)
    requires ComposeFarInfo(far, ZERO_FAR).Ok? && AsksForTunnel(far)
    ensures var info, ohc := ComposeFarInfo(far, ZERO_FAR).value, far.forwarding.value.value;
      && Tunnels(info) && info.teid == ohc.teid && info.remoteIp == LittleEndian(ohc.ip4.value)
      && info.transportLevelMarking == far.marking.GetOr(0)
  {
    LowBit(far.forwarding.value.value.description / 256);
  }

  lemma LowBit(d: nat)
    ensures d % 256 % 2 == d % 2
  {
    assert d == 2 * (128 * (d / 256)) + d % 256;
  }

  /** The bit rate a Create QER asks for downlink; 0 is unlimited. */
  function RateDL(qer: QerIE): nat { if qer.mbrDL.Some? then BitRate(qer.mbrDL.value) else 0 }

  /**
   * What became of the frame f, whose packet claims to have ipLen bytes: it went to the peer, under the
   * peer's TEID and the QER's QFI, if the limiter with its window at start lets it through and there is
   * headroom; otherwise it stayed as it is.
   */
  ghost predicate Served(end: (Tables, seq<Byte>, Fate), f: seq<Byte>, ipLen: nat, headroom: nat, n3: Ip4, now: nat,
                         far: FarIE, qer: QerIE, start: nat)
    requires |f| >= 34 && AsksForTunnel(far)
  {
    var (_, g, fate) := end;
    var ohc := far.forwarding.value.value;
    if !L.Limit(start, |f|, RateDL(qer), now).1 then fate == Dropped && g == f
    else if headroom < 44 then fate == Aborted && g == f
    else fate == SentN3 && g == P.Encapsulated(f, n3, ohc.ip4.value, far.marking.GetOr(0) / 0x100 % 0x100,
                                             qer.qfi.GetOr(0) % 0x100, ohc.teid, ipLen)
  }

  /** Selected and with an open gate, a frame is served. */
  lemma SelectedIsServed(t: Tables, sel: Selection, urrs: (nat, nat), f: seq<Byte>, ipLen: nat, headroom: nat, n3: Ip4,
                         now: nat, far: FarIE, qer: QerIE)
    requires |f| >= 34 && AsksForTunnel(far) && qer.gateDL.GetOr(0) == 0
    requires sel.farId < |t.fars| && sel.qerId < |t.qers|
    requires ComposeFarInfo(far, ZERO_FAR) == Ok(t.fars[sel.farId])
    requires Settings(t.qers[sel.qerId]) == UpdateQerInfo(ZERO_QER, qer)
    ensures Served(Deliver(t, sel, urrs, f, ipLen, headroom, n3, now), f, ipLen, headroom, n3, now, far, qer,
                   t.qers[sel.qerId].startDL)
  {
    ComposedTunnel(far);
    AddressBytesBack(far.forwarding.value.value.ip4.value);
    var slot := t.qers[sel.qerId];
    assert slot.gateStatusDL == Settings(slot).gateStatusDL && slot.qfi == Settings(slot).qfi;
    assert slot.maxBitrateDL == Settings(slot).maxBitrateDL;
  }

  /** What an establishment set up is still there after a run of other sessions. */
  lemma RulesPersist(env: Env, w: State, addr: string, est: W.EstablishReq, i: nat, k: nat, j: nat, key: PdrKey,
                     run: seq<Event>)
    requires Inv(w.shared, w.sessions) && W.Establish(env, w, addr, est).response.cause == W.Accepted
    requires Serves(env, w, addr, est, i, k, j, key)
    requires var v := W.Establish(env, w, addr, est).state;
      && WellFormedRun(env, v, run)
      && OthersOnly(env, v, run, W.SessKey(addr, W.NextSeid(w.next[addr])), key)
    ensures var v := W.Establish(env, w, addr, est).state;
      var s := Run(env, v, run).shared;
      && HoldsRules(s, NewlyStored(env, w, addr, est), est.createFars[i], est.createQers[k])
      && SameAt(v.shared.pdrs, s.pdrs, key)
  {
    var v := W.Establish(env, w, addr, est).state;
    EstablishedRules(env, w, addr, est, i, k);
    EstablishKeepsInv(env, w, addr, est);
    RunOfOthers(env, v, run, W.SessKey(addr, W.NextSeid(w.next[addr])), key);
  }

  /**
   * The handler on the established tables.  After an accepted establishment whose FAR i asks for a
   * tunnel and whose QER k has an open gate, and after any run in which only other sessions act, on
   * other keys, and packets flow: every frame for the UE that PDR j wants is served by that FAR and
   * that QER, whose slot holds the limiter window.
   */
  lemma HandlerServes(env: Env, w: State, addr: string, est: W.EstablishReq, i: nat, k: nat, j: nat, run: seq<Event>,
                      f: seq<Byte>, headroom: nat, n3: Ip4, now: nat)
    requires Inv(w.shared, w.sessions) && W.Establish(env, w, addr, est).response.cause == W.Accepted && |f| >= 34
    requires Serves(env, w, addr, est, i, k, j, Downlink4(f[30..34])) && Wants(est.createPdrs[j], Inspect(f, 14))
    requires AsksForTunnel(est.createFars[i]) && est.createQers[k].gateDL.GetOr(0) == 0
    requires var v := W.Establish(env, w, addr, est).state;
      && WellFormedRun(env, v, run)
      && OthersOnly(env, v, run, W.SessKey(addr, W.NextSeid(w.next[addr])), Downlink4(f[30..34]))
    ensures var s := Run(env, W.Establish(env, w, addr, est).state, run).shared;
      var sess := NewlyStored(env, w, addr, est);
      && QerId(est.createQers[k]) in sess.qers
      && var qer := sess.qers[QerId(est.createQers[k])].globalId;
      && qer < |s.qer.slots| && (run == [] ==> s.qer.slots[qer].startDL == 0)
      && Served(Downlink(TablesIn(s), f, headroom, n3, now), f, P.Get16(f, 16), headroom, n3, now,
                est.createFars[i], est.createQers[k], s.qer.slots[qer].startDL)
  {
    var s := Run(env, W.Establish(env, w, addr, est).state, run).shared;
    WantedPacketsSelect(env, w, addr, est, i, k, j, Downlink4(f[30..34]), Inspect(f, 14));
    EstablishedRules(env, w, addr, est, i, k);
    RulesPersist(env, w, addr, est, i, k, j, Downlink4(f[30..34]), run);
    var pdr := s.pdrs[Downlink4(f[30..34])];
    SelectedIsServed(TablesIn(s), Classify(Some(pdr), Inspect(f, 14)).selection, Charged(pdr), f, P.Get16(f, 16),
                     headroom, n3, now, est.createFars[i], est.createQers[k]);
  }

  /**
   * The same for a UE with an IPv6 address, for a PDR without flow description: its record has no
   * filter, so the IPv6 matcher's answer v6 does not matter.
   */
  lemma HandlerServesIp6(env: Env, w: State, addr: string, est: W.EstablishReq, i: nat, k: nat, j: nat,
                         run: seq<Event>, f: seq<Byte>, headroom: nat, n3: Ip4, now: nat, v6: bool)
    requires Inv(w.shared, w.sessions) && W.Establish(env, w, addr, est).response.cause == W.Accepted && |f| >= 54
    requires Serves(env, w, addr, est, i, k, j, Downlink6(f[38..54])) && est.createPdrs[j].flow.None?
    requires AsksForTunnel(est.createFars[i]) && est.createQers[k].gateDL.GetOr(0) == 0
    requires var v := W.Establish(env, w, addr, est).state;
      && WellFormedRun(env, v, run)
      && OthersOnly(env, v, run, W.SessKey(addr, W.NextSeid(w.next[addr])), Downlink6(f[38..54]))
    ensures var s := Run(env, W.Establish(env, w, addr, est).state, run).shared;
      var sess := NewlyStored(env, w, addr, est);
      && QerId(est.createQers[k]) in sess.qers
      && var qer := sess.qers[QerId(est.createQers[k])].globalId;
      && qer < |s.qer.slots| && (run == [] ==> s.qer.slots[qer].startDL == 0)
      && Served(DownlinkIp6(TablesIn(s), f, headroom, n3, now, v6), f, P.Get16(f, 18) + 40, headroom, n3, now,
                est.createFars[i], est.createQers[k], s.qer.slots[qer].startDL)
  {
    var s := Run(env, W.Establish(env, w, addr, est).state, run).shared;
    var key := Downlink6(f[38..54]);
    WantedPacketsSelect(env, w, addr, est, i, k, j, key, Inspect(f, 14));
    EstablishedRules(env, w, addr, est, i, k);
    RulesPersist(env, w, addr, est, i, k, j, key, run);
    SelectedIsServed(TablesIn(s), s.pdrs[key].default, Charged(s.pdrs[key]), f, P.Get16(f, 18) + 40,
                     headroom, n3, now, est.createFars[i], est.createQers[k]);
  }

  /**
   * The other direction: if PDR j is the only one on a new address, frames its rule refuses are
   * passed up by the handler, untouched, still after a run of other sessions and traffic.
   */
  lemma HandlerPassesRefused(env: Env, w: State, addr: string, est: W.EstablishReq, j: nat, rule: FlowRule,
                             style: Style, run: seq<Event>, f: seq<Byte>, headroom: nat, n3: Ip4, now: nat)
    requires Inv(w.shared, w.sessions)
    requires W.Establish(env, w, addr, est).response.cause == W.Accepted && j < |est.createPdrs| && |f| >= 34
    requires ForAddress(env, est.createPdrs[j], f[30..34]) && Downlink4(f[30..34]) !in w.shared.pdrs
    requires ValidRule(rule) && est.createPdrs[j].flow == Some(Print(rule, style)) && !RuleAccepts(rule, Inspect(f, 14))
    requires var created := CreatedBy(env, w, addr, est);
      forall l :: 0 <= l < |created| && l != j ==> KeyOf(created[l]) != Downlink4(f[30..34])
    requires var v := W.Establish(env, w, addr, est).state;
      && WellFormedRun(env, v, run)
      && OthersOnly(env, v, run, W.SessKey(addr, W.NextSeid(w.next[addr])), Downlink4(f[30..34]))
    ensures var t := TablesIn(Run(env, W.Establish(env, w, addr, est).state, run).shared);
      Downlink(t, f, headroom, n3, now) == (t, f, Passed)
  {
    EstablishKeepsInv(env, w, addr, est);
    RunOfOthers(env, W.Establish(env, w, addr, est).state, run, W.SessKey(addr, W.NextSeid(w.next[addr])),
                Downlink4(f[30..34]));
    EstablishedPdr(env, w, addr, est, j);
    var info := CreatedBy(env, w, addr, est)[j].info;
    PrintedFlow(rule, style, Inspect(f, 14),
                ResolveIds(NewlyStored(env, w, addr, est), est.createPdrs[j], ZERO_PDR_INFO), info);
    EstablishedAlone(env, w, addr, est, j);
    AloneRefuses(W.Establish(env, w, addr, est).state.shared.pdrs[Downlink4(f[30..34])], info, Inspect(f, 14));
  }

  lemma PrintedFlow(rule: FlowRule, style: Style, p: Packet, resolved: PdrInfo, info: PdrInfo)
    requires ValidRule(rule) && ResolveFlow(Some(Print(rule, style)), resolved) == Ok(info)
    ensures info.sdf.Some? && (FilterMatches(ToKernelFilter(info.sdf.value), p) <==> RuleAccepts(rule, p))
  {
    PrintedRuleSelects(rule, style, p);
    PrintIsNotEmpty(rule, style);
  }

  lemma AloneRefuses(r: PdrRecord, info: PdrInfo, p: Packet)
    requires StoredFor(r, info) && info.sdf.Some? && r.mode == 1 && !FilterMatches(ToKernelFilter(info.sdf.value), p)
    ensures Classify(Some(r), p) == PassUp
  {
  }

  lemma PrintIsNotEmpty(rule: FlowRule, style: Style)
    requires ValidRule(rule)
    ensures Print(rule, style) != ""
  {
    PrintParses(rule, style);
    assert Split("", ' ') == [""];
  }

  // ---------------------------------------------------------------- PDRs that name no rule

  /**
   * The QER and the FAR applied to a PDR's packets are the session's own exactly when the PDR names
   * one the session has, or the session happens to hold global id 0: a PDR that names none is
   * treated by slot 0, whoever owns it.
   */
  lemma RulesOfPdrAreOwnIff(env: Env, w: State, addr: string, est: W.EstablishReq, j: nat)
    requires W.Establish(env, w, addr, est).response.cause == W.Accepted && j < |est.createPdrs|
    ensures var sess := NewlyStored(env, w, addr, est);
      var created, pdr := CreatedBy(env, w, addr, est), est.createPdrs[j];
      && |created| == |est.createPdrs|
      && (created[j].info.qerId in Held(sess.qers)
          <==> (pdr.qerId.Some? && pdr.qerId.value in sess.qers) || 0 in Held(sess.qers))
      && (created[j].info.farId in Held(sess.fars)
          <==> (pdr.farId.Some? && pdr.farId.value in sess.fars) || 0 in Held(sess.fars))
  {
    EstablishedPdr(env, w, addr, est, j);
    var sess, pdr := NewlyStored(env, w, addr, est), est.createPdrs[j];
    var created := CreatedBy(env, w, addr, est)[j];
    var resolved := ResolveIds(sess, pdr, ZERO_PDR_INFO);
    assert created.info.qerId == resolved.qerId && created.info.farId == resolved.farId;
    if pdr.qerId.Some? && pdr.qerId.value in sess.qers {
      assert sess.qers[pdr.qerId.value].globalId in Held(sess.qers);
    }
    if pdr.farId.Some? && pdr.farId.value in sess.fars {
      assert sess.fars[pdr.farId.value].globalId in Held(sess.fars);
    }
  }
}
