/**
 * The whole program of one ingress frame: the dispatch with the session handlers it ends in, on the
 * objects, and the balance of its counters over any sequence of packets and tables.
 */
module Dataplane {
  import opened Base
  import opened Packets
  import opened PdrRecords
  import opened Rules
  import opened SessionSpec
  import opened Runs
  import opened SharedRuns
  import opened Handlers
  import opened XdpProgram
  import opened Echo
  import opened Pipeline
  import opened Forwarding
  import opened Uplink

  const XDP_ABORTED := 0
  const XDP_DROP := 1

  /** XDP_ABORTED, XDP_DROP, XDP_PASS, XDP_TX or XDP_REDIRECT. */
  type Action = a: nat | a < 5

  /**
   * What the program takes from outside: the clock at the limiter and at a ping's way back, the answer
   * of the IPv6 matcher, and the action routing ends in.
   */
  datatype Surroundings = Surroundings(now: nat, later: nat, v6: bool, route: Action)

  // ---------------------------------------------------------------- what becomes of a frame

  /** Where UDP and GTP headers begin behind an IPv4 header, and where parse_gtp leaves the cursor. */
  datatype Layers = Layers(udp: nat, gtp: nat, cursor: nat)

  function LayersOf(f: seq<Byte>): Layers {
    var udp := if |f| >= 34 then 14 + f[14] % 16 * 4 else 0;
    Layers(udp, udp + 8, if udp + 8 < |f| then udp + 16 + GtpExtra(f[udp + 8]) else 0)
  }

  /** The frame holds the headers its path was found by. */
  predicate Fits(path: Path, f: seq<Byte>, at: Layers) {
    && (path.Icmp4? || path.Udp4? || path.Tcp4? || path.GtpPdu? || path.GtpEcho? ==> |f| >= 34)
    && (path.Udp6? || path.Tcp6? ==> |f| >= 54)
    && (path.GtpPdu? || path.GtpEcho? ==> at.udp + 8 <= |f| && at.gtp + 8 <= |f|)
  }

  lemma PathFits(config: Config, f: seq<Byte>)
    ensures Fits(PathOf(config, f), f, LayersOf(f))
  {
  }

  /** Tables, frame and fate on a path; an echo request passes the tables by. */
  function Handled(path: Path, config: Config, t: Tables, f: seq<Byte>, at: Layers, headroom: nat, s: Surroundings)
    : (Tables, seq<Byte>, Fate)
    requires Fits(path, f, at)
  {
    match path
    case Icmp4 => Downlink(t, f, headroom, config.n3, s.now)
    case Udp4 => Downlink(t, f, headroom, config.n3, s.now)
    case Tcp4 => Downlink(t, f, headroom, config.n3, s.now)
    case Udp6 => DownlinkIp6(t, f, headroom, config.n3, s.now, s.v6)
    case Tcp6 => DownlinkIp6(t, f, headroom, config.n3, s.now, s.v6)
    case GtpPdu => UplinkPath(t, f, at.udp, at.gtp, at.cursor, headroom, config, s.now, s.later, s.v6)
    case GtpEcho => (t, EchoResponse(f, 14, at.udp, at.gtp), Passed)
    case _ => (t, f, Passed)
  }

  /** Tables, frame and fate after the whole program. */
  function Program(config: Config, t: Tables, f: seq<Byte>, headroom: nat, s: Surroundings): (Tables, seq<Byte>, Fate) {
    PathFits(config, f);
    Handled(PathOf(config, f), config, t, f, LayersOf(f), headroom, s)
  }

  /** The action of a handler with the given fate, and the transmit counter it moves. */
  function Decide(fate: Fate, route: Action): Decision {
    match fate
    case Passed => Decision(XDP_PASS, false, false)
    case Dropped => Decision(XDP_DROP, false, false)
    case Aborted => Decision(XDP_ABORTED, false, false)
    case SentN3 => Decision(route, true, false)
    case SentN6 => Decision(route, false, true)
  }

  // ---------------------------------------------------------------- the program

  /** upf_statistic. */
  class Statistic {
    var counters: Counters
    const actions: array<nat>

    ghost predicate Valid() {
      actions.Length == 8
    }

    constructor ()
      ensures Valid() && counters == NO_COUNTS && actions[..] == [0, 0, 0, 0, 0, 0, 0, 0] && fresh(actions)
    {
      counters := NO_COUNTS;
      actions := new nat[8](_ => 0);
    }

    // -------------------------------------------------------------- dispatch

    /** The branches of handle_gtpu on the message type. */
    method CountGtp(kind: Option<nat>) returns (path: Path)
      modifies this`counters
      ensures path == GtpKind(kind) && counters == ReceivedGtp(old(counters), path)
    {
      if kind == Some(255) {
        counters := counters.(rxGtpPdu := counters.rxGtpPdu + 1);
        return GtpPdu;
      } else if kind == Some(1) {
        counters := counters.(rxGtpEcho := counters.rxGtpEcho + 1);
        return GtpEcho;
      } else if kind == Some(2) {
        return GtpEchoResponse;
      } else if kind == Some(26) || kind == Some(31) || kind == Some(254) {
        counters := counters.(rxGtpOther := counters.rxGtpOther + 1);
        return GtpOther;
      }
      counters := counters.(rxGtpUnexp := counters.rxGtpUnexp + 1);
      return GtpUnexpected;
    }

    /** handle_gtpu up to the handler. */
    method DispatchGtpu(ctx: PacketContext) returns (path: Path)
      requires ctx.Valid()
      modifies this`counters, ctx`cursor, ctx`gtp
      ensures ctx.Valid() && path == GtpPath(ctx.Frame(), old(ctx.cursor))
      ensures counters == ReceivedGtp(old(counters), path)
      ensures path == GtpPdu || path == GtpEcho ==>
        ctx.gtp == Some(old(ctx.cursor)) && ctx.cursor == old(ctx.cursor) + 8 + GtpExtra(ctx.Frame()[old(ctx.cursor)])
    {
      var kind := ctx.ParseGtpHeader();
      path := CountGtp(kind);
    }

    /** parse_udp, and whether the datagram is GTP-U for this program. */
    method IsGtpu(ctx: PacketContext, config: Config, ghost f: seq<Byte>) returns (yes: bool)
      requires ctx.Valid() && f == ctx.Frame() && |f| >= 34
      modifies ctx`cursor, ctx`udp
      ensures ctx.Valid() && (yes ==> ctx.udp == Some(old(ctx.cursor)) && ctx.cursor == old(ctx.cursor) + 8)
      ensures Udp4Path(config, f, old(ctx.cursor)) == if yes then GtpPath(f, ctx.cursor) else Udp4
    {
      var port := ctx.ParseUdpHeader();
      var daddr := ctx.buf.Slice(30, 34);
      yes := port == Some(GTP_UDP_PORT) && IsLocal(config, daddr);
    }

    /** handle_ip4 up to the handler. */
    method DispatchIp4(ctx: PacketContext, config: Config, ghost f: seq<Byte>) returns (path: Path)
      requires ctx.Valid() && f == ctx.Frame() && ctx.cursor == 14
      modifies this`counters, ctx`cursor, ctx`ip4, ctx`udp, ctx`gtp
      ensures ctx.Valid() && path == Ip4Path(config, f) && counters == ReceivedIp4(old(counters), path)
      ensures path != Other4 ==> |f| >= 34 && ctx.ip4 == Some(14)
      ensures path == GtpPdu || path == GtpEcho ==> var at := LayersOf(f);
        ctx.udp == Some(at.udp) && ctx.gtp == Some(at.gtp) && ctx.cursor == at.cursor
    {
      var protocol := ctx.ParseIpv4();
      if protocol == Some(1) {
        counters := counters.(rxIcmp := counters.rxIcmp + 1, rxN6 := counters.rxN6 + 1);
        return Icmp4;
      } else if protocol == Some(17) {
        path := DispatchUdp4(ctx, config, f);
        return;
      } else if protocol == Some(6) {
        counters := counters.(rxTcp := counters.rxTcp + 1, rxN6 := counters.rxN6 + 1);
        return Tcp4;
      }
      counters := counters.(rxOther := counters.rxOther + 1);
      return Other4;
    }

    method DispatchUdp4(ctx: PacketContext, config: Config, ghost f: seq<Byte>) returns (path: Path)
      requires ctx.Valid() && f == ctx.Frame() && |f| >= 34
      modifies this`counters, ctx`cursor, ctx`udp, ctx`gtp
      ensures ctx.Valid() && path == Udp4Path(config, f, old(ctx.cursor))
      ensures counters == ReceivedIp4(old(counters), path)
      ensures path == Udp4 || IsGtp(path)
      ensures path == GtpPdu || path == GtpEcho ==>
        && ctx.udp == Some(old(ctx.cursor)) && ctx.gtp == Some(old(ctx.cursor) + 8)
        && ctx.cursor == old(ctx.cursor) + 16 + GtpExtra(f[old(ctx.cursor) + 8])
    {
      var gtpu := IsGtpu(ctx, config, f);
      if gtpu {
        GtpPathIsGtp(f, ctx.cursor);
        counters := counters.(rxUdp := counters.rxUdp + 1, rxN3 := counters.rxN3 + 1);
        path := DispatchGtpu(ctx);
      } else {
        counters := counters.(rxUdp := counters.rxUdp + 1, rxN6 := counters.rxN6 + 1);
        path := Udp4;
      }
    }

    /** handle_ip6 up to the handler. */
    method DispatchIp6(ctx: PacketContext, ghost f: seq<Byte>) returns (path: Path)
      requires ctx.Valid() && f == ctx.Frame() && ctx.cursor == 14
      modifies this`counters, ctx`cursor, ctx`ip6
      ensures ctx.Valid() && path == Ip6Path(f) && counters == ReceivedIp6(old(counters), path)
      ensures path != Other6 ==> ctx.ip6 == Some(14)
    {
      var next := ctx.ParseIpv6();
      if next == Some(58) {
        counters := counters.(rxIcmp6 := counters.rxIcmp6 + 1);
        return Icmp6;
      } else if next == Some(17) {
        counters := counters.(rxUdp := counters.rxUdp + 1, rxN6 := counters.rxN6 + 1);
        return Udp6;
      } else if next == Some(6) {
        counters := counters.(rxTcp := counters.rxTcp + 1, rxN6 := counters.rxN6 + 1);
        return Tcp6;
      }
      counters := counters.(rxOther := counters.rxOther + 1);
      return Other6;
    }

    /** The IPv4 branch of process_packet. */
    method DispatchAsIp4(ctx: PacketContext, config: Config, ghost f: seq<Byte>) returns (path: Path)
      requires ctx.Valid() && f == ctx.Frame() && ctx.cursor == 14
      modifies this`counters, ctx`cursor, ctx`ip4, ctx`udp, ctx`gtp
      ensures ctx.Valid() && path == Ip4Path(config, f) && counters == Received(old(counters), path)
      ensures Pointed(path, ctx, LayersOf(f))
    {
      Ip4PathIsIp4(config, f);
      ReceivedByVersion(counters, Ip4Path(config, f));
      counters := counters.(rxIp4 := counters.rxIp4 + 1);
      path := DispatchIp4(ctx, config, f);
    }

    /** The IPv6 branch of process_packet. */
    method DispatchAsIp6(ctx: PacketContext, ghost f: seq<Byte>) returns (path: Path)
      requires ctx.Valid() && f == ctx.Frame() && ctx.cursor == 14 && ctx.ip4 == None
      modifies this`counters, ctx`cursor, ctx`ip6
      ensures ctx.Valid() && path == Ip6Path(f) && counters == Received(old(counters), path)
      ensures Pointed(path, ctx, LayersOf(f))
    {
      ReceivedByVersion(counters, Ip6Path(f));
      counters := counters.(rxIp6 := counters.rxIp6 + 1);
      path := DispatchIp6(ctx, f);
    }

    /** process_packet up to the handler: parsers and receive counters. */
    method Dispatch(ctx: PacketContext, config: Config, ghost f: seq<Byte>) returns (path: Path)
      requires ctx.Valid() && f == ctx.Frame() && ctx.cursor == 0 && ctx.ip4 == None
      modifies this`counters, ctx
      ensures ctx.Valid() && path == PathOf(config, f) && counters == Received(old(counters), path)
      ensures Pointed(path, ctx, LayersOf(f))
    {
      var proto := ctx.ParseEth();
      if proto == Some(ETH_P_IPV6) {
        path := DispatchAsIp6(ctx, f);
      } else if proto == Some(ETH_P_IP) {
        path := DispatchAsIp4(ctx, config, f);
      } else if proto == Some(ETH_P_ARP) {
        counters := counters.(rxArp := counters.rxArp + 1);
        path := Arp;
      } else {
        path := NotIp;
      }
    }

    // -------------------------------------------------------------- handlers

    /** The transmit counter and the action a handler's fate ends in. */
    method Conclude(fate: Fate, route: Action) returns (action: nat)
      modifies this`counters
      ensures action == Decide(fate, route).action && counters == Sent(old(counters), Decide(fate, route))
    {
      if fate == SentN3 { counters := counters.(txN3 := counters.txN3 + 1); }
      if fate == SentN6 { counters := counters.(txN6 := counters.txN6 + 1); }
      action := match fate case Passed => XDP_PASS case Dropped => XDP_DROP case Aborted => XDP_ABORTED case _ => route;
    }

    /** process_packet: the dispatch, the handler it ends in, and what the handler's fate counts. */
    method ProcessPacket(bpf: BpfObjects, ctx: PacketContext, config: Config, s: Surroundings, ghost f: seq<Byte>)
      returns (action: nat, ghost fate: Fate)
      requires ctx.Valid() && f == ctx.Frame() && ctx.cursor == 0
      requires ctx.ip4 == None && DistinctArrays(bpf) && Apart(bpf, ctx)
      modifies this`counters, bpf.qer.slots, bpf.urr.slots, ctx, ctx.buf, ctx.buf.mem
      ensures ctx.Valid() && Fits(PathOf(config, f), f, LayersOf(f))
      ensures (TablesOf(bpf), ctx.Frame(), fate)
           == Handled(PathOf(config, f), config, old(TablesOf(bpf)), f, LayersOf(f), old(ctx.buf.data), s)
      ensures action == ActionOf(PathOf(config, f), Decide(fate, s.route))
      ensures counters == Count(old(counters), PathOf(config, f), Decide(fate, s.route))
    {
      var path := Dispatch(ctx, config, f);
      assert TablesOf(bpf) == old(TablesOf(bpf)) && ctx.Frame() == f;
      var end := HandlePath(bpf, ctx, config, s, path, f, LayersOf(f));
      fate := end;
      if path == GtpEcho {
        return XDP_TX, end;
      } else if !ReachesTables(path) {
        return XDP_PASS, end;
      }
      action := Conclude(end, s.route);
    }

    /** upf_ip_entrypoint_func: processes the packet and counts its action. */
    method EntryPoint(bpf: BpfObjects, ctx: PacketContext, config: Config, s: Surroundings, ghost f: seq<Byte>)
      returns (action: nat, ghost fate: Fate)
      requires Valid() && ctx.Valid() && f == ctx.Frame() && ctx.cursor == 0 && ctx.ip4 == None
      requires DistinctArrays(bpf) && Apart(bpf, ctx) && actions as object != ctx.buf.mem
      modifies this`counters, actions, bpf.qer.slots, bpf.urr.slots, ctx, ctx.buf, ctx.buf.mem
      ensures Valid() && ctx.Valid() && Fits(PathOf(config, f), f, LayersOf(f))
      ensures (TablesOf(bpf), ctx.Frame(), fate)
           == Handled(PathOf(config, f), config, old(TablesOf(bpf)), f, LayersOf(f), old(ctx.buf.data), s)
      ensures action == ActionOf(PathOf(config, f), Decide(fate, s.route))
      ensures counters == Count(old(counters), PathOf(config, f), Decide(fate, s.route))
      ensures action < 8 && actions[..] == old(actions[..])[action := old(actions[action]) + 1]
    {
      action, fate := ProcessPacket(bpf, ctx, config, s, f);
      ghost var t, g := TablesOf(bpf), ctx.Frame();
      CountAction(action, bpf, ctx);
      assert TablesOf(bpf) == t && ctx.Frame() == g;
    }

    /** Counting an action touches neither tables nor frame. */
    method CountAction(action: nat, ghost bpf: BpfObjects, ghost ctx: PacketContext)
      requires Valid() && action < 8 && ctx.Valid() && actions as object != ctx.buf.mem
      modifies actions
      ensures actions[..] == old(actions[..])[action := old(actions[action]) + 1]
      ensures ctx.Valid() && ctx.Frame() == old(ctx.Frame()) && TablesOf(bpf) == old(TablesOf(bpf))
    {
      actions[action] := actions[action] + 1;
    }
  }

  /** The context points at the headers its path's handler uses. */
  ghost predicate Pointed(path: Path, ctx: PacketContext, at: Layers)
    reads ctx
  {
    && (path.Icmp4? || path.Udp4? || path.Tcp4? || IsGtp(path) ==> ctx.ip4 == Some(14))
    && (path.Udp6? || path.Tcp6? ==> ctx.ip4 == None && ctx.ip6 == Some(14))
    && (path.GtpPdu? || path.GtpEcho? ==> ctx.udp == Some(at.udp) && ctx.gtp == Some(at.gtp) && ctx.cursor == at.cursor)
  }

  /** The handler a path ends in. */
  method HandlePath(bpf: BpfObjects, ctx: PacketContext, config: Config, s: Surroundings, path: Path,
                    ghost f: seq<Byte>, ghost at: Layers)
    returns (fate: Fate)
    requires ctx.Valid() && f == ctx.Frame() && Pointed(path, ctx, at) && DistinctArrays(bpf) && Apart(bpf, ctx)
    modifies bpf.qer.slots, bpf.urr.slots, ctx, ctx.buf, ctx.buf.mem
    ensures ctx.Valid() && Fits(path, f, at)
    ensures (TablesOf(bpf), ctx.Frame(), fate) == Handled(path, config, old(TablesOf(bpf)), f, at, old(ctx.buf.data), s)
  {
    if path.Icmp4? || path.Udp4? || path.Tcp4? {
      N6Handled(path, config, TablesOf(bpf), f, at, ctx.buf.data, s);
      fate := HandleN6PacketIpv4(bpf, ctx, config.n3, s.now);
    } else if path.Udp6? || path.Tcp6? {
      N6Handled(path, config, TablesOf(bpf), f, at, ctx.buf.data, s);
      fate := HandleN6PacketIpv6(bpf, ctx, config.n3, s.now, s.v6);
    } else if path == GtpPdu {
      fate := HandlePdu(bpf, ctx, config, s, f, at);
      PduHandled(config, old(TablesOf(bpf)), f, at, old(ctx.buf.data), s);
    } else {
      fate := HandleRest(bpf, ctx, config, s, path, f, at);
    }
  }

  method HandlePdu(bpf: BpfObjects, ctx: PacketContext, config: Config, s: Surroundings, ghost f: seq<Byte>,
                   ghost at: Layers)
    returns (fate: Fate)
    requires ctx.Valid() && f == ctx.Frame() && ctx.ip4 == Some(14) && DistinctArrays(bpf) && Apart(bpf, ctx)
    requires ctx.udp == Some(at.udp) && ctx.gtp == Some(at.gtp) && ctx.cursor == at.cursor
    modifies bpf.qer.slots, bpf.urr.slots, ctx, ctx.buf, ctx.buf.mem
    ensures ctx.Valid() && Fits(GtpPdu, f, at)
    ensures (TablesOf(bpf), ctx.Frame(), fate)
         == UplinkPath(old(TablesOf(bpf)), f, at.udp, at.gtp, at.cursor, old(ctx.buf.data), config, s.now, s.later,
                       s.v6)
  {
    fate := HandleGtpPacket(bpf, ctx, config, s.now, s.later, s.v6);
  }

  /** Echo requests are answered; the kernel takes the rest. */
  method HandleRest(bpf: BpfObjects, ctx: PacketContext, config: Config, s: Surroundings, path: Path,
                    ghost f: seq<Byte>, ghost at: Layers)
    returns (fate: Fate)
    requires ctx.Valid() && f == ctx.Frame() && Pointed(path, ctx, at) && !ReachesTables(path)
    requires DistinctArrays(bpf) && Apart(bpf, ctx)
    modifies ctx.buf.mem
    ensures ctx.Valid() && Fits(path, f, at)
    ensures (TablesOf(bpf), ctx.Frame(), fate) == Handled(path, config, old(TablesOf(bpf)), f, at, old(ctx.buf.data), s)
  {
    if path == GtpEcho {
      var _ := HandleEchoRequest(ctx);
    }
    assert TablesOf(bpf) == old(TablesOf(bpf));
    RestHandled(path, config, TablesOf(bpf), f, at, ctx.buf.data, s);
    fate := Passed;
  }

  lemma N6Handled(path: Path, config: Config, t: Tables, f: seq<Byte>, at: Layers, headroom: nat, s: Surroundings)
    ensures (path.Icmp4? || path.Udp4? || path.Tcp4?) && |f| >= 34 ==>
      Fits(path, f, at) && Handled(path, config, t, f, at, headroom, s) == Downlink(t, f, headroom, config.n3, s.now)
    ensures (path.Udp6? || path.Tcp6?) && |f| >= 54 ==>
      Fits(path, f, at) && Handled(path, config, t, f, at, headroom, s)
        == DownlinkIp6(t, f, headroom, config.n3, s.now, s.v6)
  {
  }

  lemma PduHandled(config: Config, t: Tables, f: seq<Byte>, at: Layers, headroom: nat, s: Surroundings)
    requires Fits(GtpPdu, f, at)
    ensures Handled(GtpPdu, config, t, f, at, headroom, s)
         == UplinkPath(t, f, at.udp, at.gtp, at.cursor, headroom, config, s.now, s.later, s.v6)
  {
  }

  lemma RestHandled(path: Path, config: Config, t: Tables, f: seq<Byte>, at: Layers, headroom: nat, s: Surroundings)
    requires Fits(path, f, at) && !ReachesTables(path)
    ensures Handled(path, config, t, f, at, headroom, s)
         == (t, if path == GtpEcho then EchoResponse(f, 14, at.udp, at.gtp) else f, Passed)
  {
  }

  // ---------------------------------------------------------------- what a frame does to the tables

  /** What any frame does to the tables is a Traffic event of the control plane's runs. */
  lemma ProgramIsTraffic(config: Config, s: Shared, f: seq<Byte>, headroom: nat, x: Surroundings)
    ensures IsTraffic(s, Program(config, TablesIn(s), f, headroom, x).0)
  {
    var path, at := PathOf(config, f), LayersOf(f);
    PathFits(config, f);
    N6Handled(path, config, TablesIn(s), f, at, headroom, x);
    if path == GtpPdu {
      PduHandled(config, TablesIn(s), f, at, headroom, x);
      UplinkIsTraffic(s, f, at.udp, at.gtp, at.cursor, headroom, config, x.now, x.later, x.v6);
    } else if path.Icmp4? || path.Udp4? || path.Tcp4? {
      DownlinkIsTraffic(s, f, headroom, config.n3, x.now);
    } else if path.Udp6? || path.Tcp6? {
      DownlinkIp6IsTraffic(s, f, headroom, config.n3, x.now, x.v6);
    } else {
      RestHandled(path, config, TablesIn(s), f, at, headroom, x);
    }
  }

  /** While records name no URR, no frame of any kind changes a URR slot other than 0. */
  lemma ProgramCharges(config: Config, s: Shared, f: seq<Byte>, headroom: nat, x: Surroundings)
    requires NoUrrIds(s.pdrs)
    ensures OnlySlotZero(s.urr.slots, Program(config, TablesIn(s), f, headroom, x).0.urrs)
  {
    var path, at := PathOf(config, f), LayersOf(f);
    PathFits(config, f);
    N6Handled(path, config, TablesIn(s), f, at, headroom, x);
    if path == GtpPdu {
      PduHandled(config, TablesIn(s), f, at, headroom, x);
      UplinkCharges(s, f, at.udp, at.gtp, at.cursor, headroom, config, x.now, x.later, x.v6);
    } else if path.Icmp4? || path.Udp4? || path.Tcp4? {
      DownlinkCharges(s, f, headroom, config.n3, x.now);
    } else if path.Udp6? || path.Tcp6? {
      DownlinkIp6Charges(s, f, headroom, config.n3, x.now, x.v6);
    } else {
      RestHandled(path, config, TablesIn(s), f, at, headroom, x);
    }
  }

  // ---------------------------------------------------------------- packet sequences

  /** A frame, and the tables and surroundings it meets: the control plane may have acted since the last one. */
  datatype Arrival = Arrival(tables: Tables, frame: seq<Byte>, headroom: nat, s: Surroundings)

  function VerdictOf(config: Config, a: Arrival): Ingress {
    Ingress(a.frame, Decide(Program(config, a.tables, a.frame, a.headroom, a.s).2, a.s.route))
  }

  function VerdictsOf(config: Config, run: seq<Arrival>): (r: seq<Ingress>)
    ensures |r| == |run| && forall i :: 0 <= i < |run| ==> r[i] == VerdictOf(config, run[i])
  {
    seq(|run|, i requires 0 <= i < |run| => VerdictOf(config, run[i]))
  }

  lemma DownlinkStaysOnN3(t: Tables, f: seq<Byte>, headroom: nat, n3: Ip4, now: nat, v6: bool)
    ensures |f| >= 34 ==> Downlink(t, f, headroom, n3, now).2 != SentN6
    ensures |f| >= 54 ==> DownlinkIp6(t, f, headroom, n3, now, v6).2 != SentN6
  {
  }

  /** Only a G-PDU is sent to N6. */
  lemma OnlyPdusLeaveOnN6(path: Path, config: Config, t: Tables, f: seq<Byte>, at: Layers, headroom: nat,
                          s: Surroundings)
    requires Fits(path, f, at) && Handled(path, config, t, f, at, headroom, s).2 == SentN6
    ensures path == GtpPdu
  {
    DownlinkStaysOnN3(t, f, headroom, config.n3, s.now, s.v6);
    N6Handled(path, config, t, f, at, headroom, s);
    if !ReachesTables(path) { RestHandled(path, config, t, f, at, headroom, s); }
  }

  lemma VerdictIsPlausible(config: Config, a: Arrival)
    ensures Plausible(PathOf(config, a.frame), VerdictOf(config, a).decision)
  {
    PathFits(config, a.frame);
    if VerdictOf(config, a).decision.sentN6 {
      OnlyPdusLeaveOnN6(PathOf(config, a.frame), config, a.tables, a.frame, LayersOf(a.frame), a.headroom, a.s);
    }
  }

  /**
   * Over any sequence of frames, whatever tables, headroom, clock and routes each of them meets: the
   * receive counters balance, no more frames are sent than were handed to the session tables, no more
   * to N6 than G-PDUs came in, and the action counters add up to the frames processed.
   */
  lemma CountersAlwaysBalance(config: Config, run: seq<Arrival>)
    ensures Balanced(CountAll(config, VerdictsOf(config, run)), EchoResponses(config, VerdictsOf(config, run)))
    ensures ActionTotal(config, VerdictsOf(config, run), 8) == |run|
  {
    forall i | 0 <= i < |run| ensures Plausible(PathOf(config, run[i].frame), VerdictOf(config, run[i]).decision) {
      VerdictIsPlausible(config, run[i]);
    }
    CountersBalance(config, VerdictsOf(config, run));
    ActionsAddUp(config, VerdictsOf(config, run));
  }
}
