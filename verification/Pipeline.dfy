/**
 * Where the dispatch of ingress packets sends a frame -- process_packet, handle_ip4, handle_ip6 and
 * handle_gtpu, on the frame's bytes -- what it counts, and what the counters conserve.
 */
module Pipeline {
  import opened Base
  import opened Packets
  import opened XdpProgram
  import opened Tunnel

  const ETH_P_ARP := 0x0806
  const XDP_PASS := 2
  const XDP_TX := 3

  // ---------------------------------------------------------------- where a packet goes

  /** The end points of the dispatch, one per distinct combination of counters. */
  datatype Path =
    | NotIp | Arp
    | Icmp4 | Udp4 | Tcp4 | Other4
    | Icmp6 | Udp6 | Tcp6 | Other6
    | GtpPdu | GtpEcho | GtpEchoResponse | GtpOther | GtpUnexpected

  /** The N3 and N9 addresses the program answers GTP-U on. */
  datatype Config = Config(n3: Ip4, n9: Ip4)

  predicate IsLocal(config: Config, address: seq<Byte>) {
    address == config.n3 || address == config.n9
  }

  /** By the GTP-U message type, if there is a whole header. */
  function GtpKind(kind: Option<nat>): Path {
    match kind
    case None => GtpUnexpected
    case Some(k) =>
      if k == GTPU_G_PDU then GtpPdu
      else if k == 1 then GtpEcho
      else if k == 2 then GtpEchoResponse
      else if k == 26 || k == 31 || k == 254 then GtpOther
      else GtpUnexpected
  }

  function GtpPath(f: seq<Byte>, at: nat): Path {
    GtpKind(match ParseGtp(f, at) case None => None case Some(p) => Some(p.field))
  }

  function Udp4Path(config: Config, f: seq<Byte>, at: nat): Path
    requires |f| >= 34
  {
    match ParseUdp(f, at)
    case None => Udp4
    case Some(udp) =>
      if udp.field == GTP_UDP_PORT && IsLocal(config, f[30..34]) then GtpPath(f, udp.cursor) else Udp4
  }

  function Ip4Path(config: Config, f: seq<Byte>): Path {
    match ParseIp4(f, 14)
    case None => Other4
    case Some(ip) =>
      if ip.field == 1 then Icmp4
      else if ip.field == 17 then
        Udp4Path(config, f, ip.cursor)
      else if ip.field == 6 then Tcp4
      else Other4
  }

  function Ip6Path(f: seq<Byte>): Path {
    match ParseIp6(f, 14)
    case None => Other6
    case Some(ip) =>
      if ip.field == 58 then Icmp6 else if ip.field == 17 then Udp6 else if ip.field == 6 then Tcp6 else Other6
  }

  function PathOf(config: Config, f: seq<Byte>): Path {
    match ParseEthernet(f, 0)
    case None => NotIp
    case Some(eth) =>
      if eth.field == ETH_P_IPV6 then Ip6Path(f)
      else if eth.field == ETH_P_IP then Ip4Path(config, f)
      else if eth.field == ETH_P_ARP then Arp
      else NotIp
  }

  // ---------------------------------------------------------------- counters

  /** upf_counters and n3_n6_counters; the 64-bit counters are taken as unbounded. */
  datatype Counters = Counters(
    rxArp: nat, rxIcmp: nat, rxIcmp6: nat, rxIp4: nat, rxIp6: nat, rxTcp: nat, rxUdp: nat, rxOther: nat,
    rxGtpEcho: nat, rxGtpPdu: nat, rxGtpOther: nat, rxGtpUnexp: nat,
    rxN3: nat, txN3: nat, rxN6: nat, txN6: nat)

  const NO_COUNTS := Counters(0, 0, 0, 0, 0, 0, 0, 0, 0, 0, 0, 0, 0, 0, 0, 0)

  /** What the session tables decide about a packet handed to them. */
  datatype Decision = Decision(action: nat, sentN3: bool, sentN6: bool)

  /** A packet of a session is sent at most once, and only a G-PDU can be sent to N6. */
  predicate Plausible(path: Path, d: Decision) {
    d.action < 8 && !(d.sentN3 && d.sentN6) && (d.sentN6 ==> path == GtpPdu)
  }

  /** The packet leaves the dispatch towards the session tables. */
  predicate ReachesTables(path: Path) {
    path.Icmp4? || path.Udp4? || path.Tcp4? || path.Udp6? || path.Tcp6? || path.GtpPdu?
  }

  /** The action returned: the tables' for the packets they see, else fixed. */
  function ActionOf(path: Path, d: Decision): nat {
    if ReachesTables(path) then d.action else if path == GtpEcho then XDP_TX else XDP_PASS
  }

  // ---------------------------------------------------------------- what each path counts

  predicate IsGtp(path: Path) {
    path.GtpPdu? || path.GtpEcho? || path.GtpEchoResponse? || path.GtpOther? || path.GtpUnexpected?
  }

  predicate IsIp6(path: Path) { path.Icmp6? || path.Udp6? || path.Tcp6? || path.Other6? }

  function ReceivedGtp(c: Counters, path: Path): Counters {
    if path == GtpPdu then c.(rxGtpPdu := c.rxGtpPdu + 1)
    else if path == GtpEcho then c.(rxGtpEcho := c.rxGtpEcho + 1)
    else if path == GtpOther then c.(rxGtpOther := c.rxGtpOther + 1)
    else if path == GtpUnexpected then c.(rxGtpUnexp := c.rxGtpUnexp + 1)
    else c
  }

  function ReceivedIp4(c: Counters, path: Path): Counters {
    if IsGtp(path) then ReceivedGtp(c.(rxUdp := c.rxUdp + 1, rxN3 := c.rxN3 + 1), path)
    else if path == Icmp4 then c.(rxIcmp := c.rxIcmp + 1, rxN6 := c.rxN6 + 1)
    else if path == Udp4 then c.(rxUdp := c.rxUdp + 1, rxN6 := c.rxN6 + 1)
    else if path == Tcp4 then c.(rxTcp := c.rxTcp + 1, rxN6 := c.rxN6 + 1)
    else c.(rxOther := c.rxOther + 1)
  }

  function ReceivedIp6(c: Counters, path: Path): Counters {
    if path == Icmp6 then c.(rxIcmp6 := c.rxIcmp6 + 1)
    else if path == Udp6 then c.(rxUdp := c.rxUdp + 1, rxN6 := c.rxN6 + 1)
    else if path == Tcp6 then c.(rxTcp := c.rxTcp + 1, rxN6 := c.rxN6 + 1)
    else c.(rxOther := c.rxOther + 1)
  }

  /** The receive counters. */
  function Received(c: Counters, path: Path): Counters {
    if path == NotIp then c
    else if path == Arp then c.(rxArp := c.rxArp + 1)
    else if IsIp6(path) then ReceivedIp6(c.(rxIp6 := c.rxIp6 + 1), path)
    else ReceivedIp4(c.(rxIp4 := c.rxIp4 + 1), path)
  }

  /** The transmit counters. */
  function Sent(c: Counters, d: Decision): Counters {
    c.(txN3 := c.txN3 + if d.sentN3 then 1 else 0, txN6 := c.txN6 + if d.sentN6 then 1 else 0)
  }

  function Count(c: Counters, path: Path, d: Decision): Counters {
    if ReachesTables(path) then Sent(Received(c, path), d) else Received(c, path)
  }

  lemma ReceivedByVersion(c: Counters, path: Path)
    requires path != NotIp && path != Arp
    ensures Received(c, path) == if IsIp6(path) then ReceivedIp6(c.(rxIp6 := c.rxIp6 + 1), path)
                                 else ReceivedIp4(c.(rxIp4 := c.rxIp4 + 1), path)
  {
  }

  lemma GtpPathIsGtp(f: seq<Byte>, at: nat)
    ensures IsGtp(GtpPath(f, at))
  {
  }

  lemma Ip4PathIsIp4(config: Config, f: seq<Byte>)
    ensures !IsIp6(Ip4Path(config, f)) && Ip4Path(config, f) != Arp && Ip4Path(config, f) != NotIp
  {
  }

  // ---------------------------------------------------------------- packet sequences

  /** One ingress frame and what the session tables decide about it. */
  datatype Ingress = Ingress(frame: seq<Byte>, decision: Decision)

  function CountAll(config: Config, run: seq<Ingress>): Counters {
    if run == [] then NO_COUNTS
    else
      var last := run[|run| - 1];
      Count(CountAll(config, run[..|run| - 1]), PathOf(config, last.frame), last.decision)
  }

  /** How many packets ended with the given action; the counters index it by its low three bits. */
  function ActionCount(config: Config, run: seq<Ingress>, action: nat): nat {
    if run == [] then 0
    else
      var last := run[|run| - 1];
      ActionCount(config, run[..|run| - 1], action)
      + if ActionOf(PathOf(config, last.frame), last.decision) == action then 1 else 0
  }

  function EchoResponses(config: Config, run: seq<Ingress>): nat {
    if run == [] then 0
    else
      EchoResponses(config, run[..|run| - 1])
      + if PathOf(config, run[|run| - 1].frame) == GtpEchoResponse then 1 else 0
  }

  ghost predicate PlausibleRun(config: Config, run: seq<Ingress>) {
    forall i :: 0 <= i < |run| ==> Plausible(PathOf(config, run[i].frame), run[i].decision)
  }

  /** The laws relating the counters. */
  ghost predicate Balanced(c: Counters, echoResponses: nat) {
    && c.rxIp4 + c.rxIp6 == c.rxIcmp + c.rxIcmp6 + c.rxTcp + c.rxUdp + c.rxOther
    && c.rxN3 == c.rxGtpPdu + c.rxGtpEcho + c.rxGtpOther + c.rxGtpUnexp + echoResponses
    && c.rxN3 + c.rxN6 + c.rxIcmp6 + c.rxOther == c.rxIp4 + c.rxIp6
    && c.txN3 + c.txN6 <= c.rxN6 + c.rxGtpPdu
    && c.txN6 <= c.rxGtpPdu
  }

  lemma GtpBalanced(c: Counters, path: Path, echoes: nat)
    requires Balanced(c, echoes) && IsGtp(path)
    ensures Balanced(Received(c, path), echoes + if path == GtpEchoResponse then 1 else 0)
    ensures Received(c, path).rxGtpPdu == c.rxGtpPdu + if path == GtpPdu then 1 else 0
  {
  }

  lemma OthersBalanced(c: Counters, path: Path, echoes: nat)
    requires Balanced(c, echoes) && !IsGtp(path)
    ensures Balanced(Received(c, path), echoes)
    ensures Received(c, path).rxN6 == c.rxN6 + if ReachesTables(path) then 1 else 0
  {
  }

  lemma ReceivedKeepsSent(c: Counters, path: Path)
    ensures var r := Received(c, path);
      && r.txN3 == c.txN3 && r.txN6 == c.txN6
      && r.rxN6 + r.rxGtpPdu == c.rxN6 + c.rxGtpPdu + (if ReachesTables(path) then 1 else 0)
      && r.rxGtpPdu == c.rxGtpPdu + (if path == GtpPdu then 1 else 0)
  {
  }

  lemma SentBalanced(r: Counters, d: Decision, echoes: nat)
    requires Balanced(r, echoes) && !(d.sentN3 && d.sentN6)
    requires r.txN3 + r.txN6 < r.rxN6 + r.rxGtpPdu && (d.sentN6 ==> r.txN6 < r.rxGtpPdu)
    ensures Balanced(Sent(r, d), echoes)
  {
  }

  lemma CountBalanced(c: Counters, path: Path, d: Decision, echoes: nat)
    requires Balanced(c, echoes) && Plausible(path, d)
    ensures Balanced(Count(c, path, d), echoes + if path == GtpEchoResponse then 1 else 0)
  {
    if IsGtp(path) { GtpBalanced(c, path, echoes); } else { OthersBalanced(c, path, echoes); }
    ReceivedKeepsSent(c, path);
    if ReachesTables(path) { SentBalanced(Received(c, path), d, echoes); }
  }

  /** Over any packet sequence the counters balance. */
  lemma {:induction false} CountersBalance(config: Config, run: seq<Ingress>)
    requires PlausibleRun(config, run)
    ensures Balanced(CountAll(config, run), EchoResponses(config, run))
  {
    if run != [] {
      var before, last := run[..|run| - 1], run[|run| - 1];
      CountersBalance(config, before);
      CountBalanced(CountAll(config, before), PathOf(config, last.frame), last.decision, EchoResponses(config, before));
    }
  }

  function ActionTotal(config: Config, run: seq<Ingress>, n: nat): nat {
    if n == 0 then 0 else ActionTotal(config, run, n - 1) + ActionCount(config, run, n - 1)
  }

  lemma {:induction false} ActionTotalStep(config: Config, run: seq<Ingress>, n: nat)
    requires run != []
    ensures var last := run[|run| - 1];
      ActionTotal(config, run, n) == ActionTotal(config, run[..|run| - 1], n)
        + if ActionOf(PathOf(config, last.frame), last.decision) < n then 1 else 0
  {
    if n != 0 { ActionTotalStep(config, run, n - 1); }
  }

  lemma {:induction false} ActionTotalEmpty(config: Config, n: nat)
    ensures ActionTotal(config, [], n) == 0
  {
    if n != 0 { ActionTotalEmpty(config, n - 1); }
  }

  /** The eight action counters add up to the packets processed. */
  lemma {:induction false} ActionsAddUp(config: Config, run: seq<Ingress>)
    requires PlausibleRun(config, run)
    ensures ActionTotal(config, run, 8) == |run|
  {
    if run == [] {
      ActionTotalEmpty(config, 8);
    } else {
      ActionsAddUp(config, run[..|run| - 1]);
      ActionTotalStep(config, run, 8);
    }
  }

  // ---------------------------------------------------------------- tunnelled frames arrive

  /** A frame encapsulated towards a local address is dispatched as a G-PDU. */
  lemma EncapsulatedIsGtpPdu(config: Config, f: seq<Byte>, saddr: Ip4, daddr: Ip4, tos: Byte, qfi: Byte, teid: nat,
                             ipLen: nat)
    requires |f| >= 14 && IsLocal(config, daddr)
    ensures PathOf(config, Encapsulated(f, saddr, daddr, tos, qfi, teid, ipLen)) == GtpPdu
  {
    ParsesBack(f, saddr, daddr, tos, qfi, teid, ipLen);
  }
}
