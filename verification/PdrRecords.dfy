/**
 * The record the data plane reads for a PDR key, how the control plane writes it, and how the
 * kernel classifies a packet with it.
 */
module PdrRecords {
  import opened Base
  import opened SdfParser

  /** PdrInfo: what a session wants done with a PDR's packets. */
  datatype PdrInfo = PdrInfo(outerHeaderRemoval: nat, farId: nat, qerId: nat, urr1Id: nat, urr2Id: nat,
                             sdf: Option<SdfFilter>)

  /** The three values one half of a record selects for a packet. */
  datatype Selection = Selection(outerHeaderRemoval: nat, farId: nat, qerId: nat)

  type Ip16 = b: seq<Byte> | |b| == 16 witness [0, 0, 0, 0, 0, 0, 0, 0, 0, 0, 0, 0, 0, 0, 0, 0]

  /** An address as the kernel stores it: 128-bit little-endian value and mask. */
  datatype KernelAddress = KernelAddress(kind: nat, ip: Ip16, mask: Ip16)

  datatype KernelFilter = KernelFilter(protocol: nat, src: KernelAddress, srcPorts: PortRange,
                                       dst: KernelAddress, dstPorts: PortRange)

  /** mode 0: no filter, 1: filter only, 2: filter and default.  urr1Id and urr2Id are charged for the packets. */
  datatype PdrRecord = PdrRecord(default: Selection, urr1Id: nat, urr2Id: nat, mode: nat, filter: KernelFilter,
                                 filtered: Selection)

  /** The URR ids a record charges its packets to. */
  function Charged(r: PdrRecord): (nat, nat) { (r.urr1Id, r.urr2Id) }

  const ZERO_SELECTION := Selection(0, 0, 0)
  const ZERO_IP: Ip16 := [0, 0, 0, 0, 0, 0, 0, 0, 0, 0, 0, 0, 0, 0, 0, 0]
  const ZERO_FILTER := KernelFilter(0, KernelAddress(0, ZERO_IP, ZERO_IP), PortRange(0, 0),
                                   KernelAddress(0, ZERO_IP, ZERO_IP), PortRange(0, 0))

  function Selects(info: PdrInfo): Selection {
    Selection(info.outerHeaderRemoval, info.farId, info.qerId)
  }

  /** Copy16Ip: the bytes in reverse order, padded with zeros. */
  function Copy16Ip(arr: seq<Byte>): Ip16 {
    if |arr| == 4 || |arr| == 16 then
      seq(16, i requires 0 <= i < 16 => if i < |arr| then arr[|arr| - 1 - i] else 0)
    else ZERO_IP
  }

  function ToKernelAddress(a: IpWMask): KernelAddress {
    KernelAddress(a.kind, Copy16Ip(a.ip), Copy16Ip(a.mask))
  }

  function ToKernelFilter(f: SdfFilter): KernelFilter {
    KernelFilter(f.protocol, ToKernelAddress(f.src), f.srcPorts, ToKernelAddress(f.dst), f.dstPorts)
  }

  /** ToIpEntrypointPdrInfo; the URR ids are not copied. */
  function PlainRecord(info: PdrInfo): PdrRecord {
    PdrRecord(Selects(info), 0, 0, 0, ZERO_FILTER, ZERO_SELECTION)
  }

  /** CombinePdrWithSdf: keeps the selection of whatever record is there, but no URR ids. */
  function CombinedRecord(present: Option<PdrRecord>, info: PdrInfo, sdf: SdfFilter): PdrRecord {
    match present
    case Some(r) => PdrRecord(r.default, 0, 0, 2, ToKernelFilter(sdf), Selects(info))
    case None => PdrRecord(ZERO_SELECTION, 0, 0, 1, ToKernelFilter(sdf), Selects(info))
  }

  /** The record PutPdrUplink and PutPdrDownlink store over what is present. */
  function RecordToStore(present: Option<PdrRecord>, info: PdrInfo): PdrRecord {
    match info.sdf
    case None => PlainRecord(info)
    case Some(sdf) => CombinedRecord(present, info, sdf)
  }

  // ---------------------------------------------------------------- the kernel's classifier

  /** The header fields the classifier reads; ports are absent unless the packet is TCP or UDP. */
  datatype Packet = Packet(src: Ip4, dst: Ip4, protocol: Byte, ports: Option<(nat, nat)>)

  /** The number with these bytes, least significant first. */
  function Number(a: Byte, b: Byte, c: Byte, d: Byte): nat {
    (a as int) + 0x100 * (b as int) + 0x1_0000 * (c as int) + 0x100_0000 * (d as int)
  }

  /** A 32-bit load from memory on a little-endian host. */
  function Load32(b: seq<Byte>): nat
    requires |b| >= 4
  {
    Number(b[0], b[1], b[2], b[3])
  }

  /** bpf_htonl of a 128-bit value held in memory as b: truncate to 32 bits, swap the bytes. */
  function Swapped32(b: seq<Byte>): nat
    requires |b| >= 4
  {
    Load32([b[3], b[2], b[1], b[0]])
  }

  /** get_sdf_protocol. */
  function SdfProtocol(ipProtocol: Byte): nat {
    if ipProtocol == 1 then 0 else if ipProtocol == 6 then 2 else if ipProtocol == 17 then 3 else 1
  }

  predicate AddressMatches(a: KernelAddress, packet: Ip4) {
    BitAnd(Load32(packet), Swapped32(a.mask)) == Swapped32(a.ip)
  }

  /** match_sdf_filter_ipv4. */
  predicate FilterMatches(f: KernelFilter, p: Packet) {
    var (srcPort, dstPort) := p.ports.GetOr((0, 0));
    && (f.protocol == 1 || f.protocol == SdfProtocol(p.protocol))
    && AddressMatches(f.src, p.src)
    && AddressMatches(f.dst, p.dst)
    && f.srcPorts.lower <= srcPort <= f.srcPorts.upper
    && f.dstPorts.lower <= dstPort <= f.dstPorts.upper
  }

  datatype Verdict = PassUp | Use(selection: Selection)

  /** The branches taken once it is known whether the record's filter accepts the packet. */
  function Choose(r: PdrRecord, accepted: bool): Verdict {
    if r.mode == 0 then Use(r.default)
    else if accepted then Use(r.filtered)
    else if r.mode % 2 == 1 then PassUp
    else Use(r.default)
  }

  /** PDR and SDF selection in handle_n6_packet_ipv4 and handle_gtp_packet. */
  function Classify(present: Option<PdrRecord>, p: Packet): Verdict {
    match present
    case None => PassUp
    case Some(r) => Choose(r, FilterMatches(r.filter, p))
  }

  // ---------------------------------------------------------------- the history of one key

  datatype Write = Put(info: PdrInfo) | Erase

  function Replay(history: seq<Write>): Option<PdrRecord> {
    if history == [] then None
    else
      match history[|history| - 1]
      case Erase => None
      case Put(info) => Some(RecordToStore(Replay(history[..|history| - 1]), info))
  }

  /** The part of the history after its last delete. */
  function SinceDelete(history: seq<Write>): (s: seq<PdrInfo>) {
    if history == [] then []
    else
      match history[|history| - 1]
      case Erase => []
      case Put(info) => SinceDelete(history[..|history| - 1]) + [info]
  }

  /** What the most recent plain put selects, if there was one. */
  function LastPlain(puts: seq<PdrInfo>): Option<Selection> {
    if puts == [] then None
    else
      var last := puts[|puts| - 1];
      if last.sdf.None? then Some(Selects(last)) else LastPlain(puts[..|puts| - 1])
  }

  /** The filter in force: the last put, if it carries one. */
  function FilterInForce(puts: seq<PdrInfo>): Option<PdrInfo> {
    if puts != [] && puts[|puts| - 1].sdf.Some? then Some(puts[|puts| - 1]) else None
  }

  /**
   * What the puts ask for: packets the filter accepts follow it, the others the default rule,
   * and when there is no default they are not the session's.
   */
  function Intended(puts: seq<PdrInfo>, p: Packet): Verdict {
    if FilterInForce(puts).Some? && Accepts(FilterInForce(puts).value, p) then Use(Selects(FilterInForce(puts).value))
    else match LastPlain(puts) case Some(s) => Use(s) case None => PassUp
  }

  /** The filter a put carries accepts the packet. */
  predicate Accepts(info: PdrInfo, p: Packet) {
    info.sdf.Some? && FilterMatches(ToKernelFilter(info.sdf.value), p)
  }

  /** The stored record as a function of the puts since the last delete. */
  lemma {:induction false} RecordIsHistory(history: seq<Write>)
    ensures var puts := SinceDelete(history);
      match Replay(history)
      case None => puts == []
      case Some(r) =>
        && puts != []
        && r.default == LastPlain(puts).GetOr(ZERO_SELECTION)
        && (match FilterInForce(puts)
            case None => r.mode == 0 && r.filter == ZERO_FILTER && r.filtered == ZERO_SELECTION
            case Some(info) =>
              && r.filter == ToKernelFilter(info.sdf.value) && r.filtered == Selects(info)
              && r.mode == if |puts| == 1 then 1 else 2)
  {
    if history != [] && history[|history| - 1].Put? {
      var before := history[..|history| - 1];
      RecordIsHistory(before);
      var puts := SinceDelete(history);
      assert puts[..|puts| - 1] == SinceDelete(before);
    }
  }

  /**
   * The kernel does with a packet what the puts ask for exactly when a plain put came since the
   * last delete, or at most one put did, or the filter accepts the packet.  Otherwise -- two
   * filters in a row on a key that never had a default -- a packet the filter refuses is sent to
   * rule 0 instead of being passed up.
   */
  lemma ClassifiesAsIntendedIff(history: seq<Write>, p: Packet)
    ensures var puts := SinceDelete(history);
      Classify(Replay(history), p) == Intended(puts, p)
      <==> (|puts| <= 1 || LastPlain(puts).Some? || Accepts(puts[|puts| - 1], p))
  {
    RecordIsHistory(history);
    var puts := SinceDelete(history);
    if puts == [] {
      assert Replay(history) == None;
      assert LastPlain(puts) == None;
    } else {
      var last := puts[|puts| - 1];
      var r := Replay(history).value;
      assert |puts| == 1 ==> puts[..0] == [];
      ClassifyIsChoice(r, last, p);
      IntendedIsChoice(puts, p);
      ChoosesAsIntended(r, puts, Accepts(last, p));
    }
  }

  lemma IntendedIsChoice(puts: seq<PdrInfo>, p: Packet)
    requires puts != []
    ensures var last := puts[|puts| - 1];
      Intended(puts, p) == if Accepts(last, p) then Use(Selects(last))
                           else match LastPlain(puts) case Some(s) => Use(s) case None => PassUp
  {
  }

  lemma ClassifyIsChoice(r: PdrRecord, last: PdrInfo, p: Packet)
    requires if last.sdf.None? then r.mode == 0 && r.filter == ZERO_FILTER
             else r.filter == ToKernelFilter(last.sdf.value)
    ensures Classify(Some(r), p) == Choose(r, Accepts(last, p))
  {
  }

  lemma ChoosesAsIntended(r: PdrRecord, puts: seq<PdrInfo>, accepted: bool)
    requires puts != [] && (|puts| == 1 ==> LastPlain(puts[..0]) == None)
    requires r.default == LastPlain(puts).GetOr(ZERO_SELECTION)
    requires var last := puts[|puts| - 1];
      if last.sdf.None? then r.mode == 0 && !accepted
      else r.filtered == Selects(last) && r.mode == if |puts| == 1 then 1 else 2
    ensures var last := puts[|puts| - 1];
      Choose(r, accepted) == (if accepted then Use(Selects(last))
                              else match LastPlain(puts) case Some(s) => Use(s) case None => PassUp)
      <==> (|puts| == 1 || LastPlain(puts).Some? || accepted)
  {
  }

  lemma TwoFilterPuts(info: PdrInfo)
    requires info.sdf.Some?
    ensures SinceDelete([Put(info), Put(info)]) == [info, info] && LastPlain([info, info]) == None
  {
    assert [Put(info), Put(info)][..1] == [Put(info)] && [Put(info)][..0] == [];
    assert SinceDelete([Put(info)]) == [info];
    assert [info, info][..1] == [info] && [info][..0] == [];
    assert LastPlain([info]) == None;
  }

  /** Two filters in a row without a default: a packet the second refuses follows rule 0. */
  lemma RefusedFollowsZero(history: seq<Write>, info: PdrInfo, p: Packet)
    requires SinceDelete(history) == [info, info] && LastPlain([info, info]) == None
    requires info.sdf.Some? && !Accepts(info, p)
    ensures Classify(Replay(history), p) == Use(ZERO_SELECTION) && Intended(SinceDelete(history), p) == PassUp
  {
    RecordIsHistory(history);
    ClassifyIsChoice(Replay(history).value, info, p);
    IntendedIsChoice([info, info], p);
  }

  /** A filter refused by no rule: two filters without a default, and a packet outside the second. */
  lemma TwoFiltersMisroute()
    ensures exists history, p ::
      Classify(Replay(history), p) == Use(ZERO_SELECTION) && Intended(SinceDelete(history), p) == PassUp
  {
    var udp := SdfFilter(3, ANY_ADDRESS, ALL_PORTS, ANY_ADDRESS, ALL_PORTS);
    var info := PdrInfo(0, 7, 7, 0, 0, Some(udp));
    var history := [Put(info), Put(info)];
    var p := Packet([10, 0, 0, 1], [10, 0, 0, 2], 6, Some((1, 1)));
    TwoFilterPuts(info);
    assert !Accepts(info, p) by { assert SdfProtocol(6) == 2; }
    RefusedFollowsZero(history, info, p);
  }
}
