/**
 * From a PFCP establishment request to the bytes on the wire: what the whole program, dispatch and
 * handler, does with the frames of an established session.
 */
module EndToEnd {
  import opened Base
  import opened Packets
  import opened SdfParser
  import opened SdfRoundTrip
  import opened SdfMatch
  import opened PdrRecords
  import opened Rules
  import opened SessionSpec
  import W = World
  import opened Runs
  import opened Isolation
  import opened Resolution
  import opened Pipeline
  import opened Forwarding
  import opened Uplink
  import opened Dataplane
  import opened TunnelPayload

  // ---------------------------------------------------------------- which frames reach a handler

  predicate IsIp4Frame(f: seq<Byte>) { |f| >= 34 && Get16(f, 12) == ETH_P_IP }

  /** The protocols whose IPv4 packets are looked up: ICMP, TCP and UDP. */
  predicate LookedUp(protocol: Byte) { protocol == 1 || protocol == 6 || protocol == 17 }

  /** A UDP datagram to port 2152 of the program itself. */
  predicate ForGtpu(config: Config, f: seq<Byte>)
    requires |f| >= 34
  {
    var udp := 14 + f[14] % 16 * 4;
    f[23] == 17 && udp + 8 <= |f| && Get16(f, udp + 2) == GTP_UDP_PORT && IsLocal(config, f[30..34])
  }

  /**
   * An IPv4 frame that is no GTP-U for the program is looked up as downlink exactly when it is ICMP,
   * TCP or UDP; one of any other protocol goes to the kernel before any table is read.
   */
  lemma Ip4Dispatch(config: Config, t: Tables, f: seq<Byte>, headroom: nat, s: Surroundings)
    requires IsIp4Frame(f) && !ForGtpu(config, f)
    ensures Program(config, t, f, headroom, s)
         == if LookedUp(f[23]) then Downlink(t, f, headroom, config.n3, s.now) else (t, f, Passed)
  {
    var path := PathOf(config, f);
    PathFits(config, f);
    N6Handled(path, config, t, f, LayersOf(f), headroom, s);
    if !LookedUp(f[23]) { RestHandled(path, config, t, f, LayersOf(f), headroom, s); }
  }

  /** An IPv6 frame is looked up exactly when TCP or UDP follows its header at once. */
  lemma Ip6Dispatch(config: Config, t: Tables, f: seq<Byte>, headroom: nat, s: Surroundings)
    requires |f| >= 54 && Get16(f, 12) == ETH_P_IPV6
    ensures Program(config, t, f, headroom, s)
         == if f[20] == 6 || f[20] == 17 then DownlinkIp6(t, f, headroom, config.n3, s.now, s.v6) else (t, f, Passed)
  {
    var path := PathOf(config, f);
    PathFits(config, f);
    N6Handled(path, config, t, f, LayersOf(f), headroom, s);
    if f[20] != 6 && f[20] != 17 { RestHandled(path, config, t, f, LayersOf(f), headroom, s); }
  }

  /** A GTP-U frame for the program behind an outer IPv4 header without options. */
  predicate PlainGtpu(config: Config, f: seq<Byte>) {
    |f| >= 50 && IsIp4Frame(f) && ForGtpu(config, f) && f[14] % 16 == 5
  }

  lemma PlainLayers(config: Config, f: seq<Byte>)
    requires PlainGtpu(config, f)
    ensures LayersOf(f) == Layers(34, 42, InnerAt(f)) && PathOf(config, f) == GtpKind(Some(f[43]))
  {
  }

  /** Such a frame is handled as a G-PDU exactly when its message type is 255; no other type meets the tables. */
  lemma GtpuDispatch(config: Config, t: Tables, f: seq<Byte>, headroom: nat, s: Surroundings)
    requires PlainGtpu(config, f)
    ensures var end := Program(config, t, f, headroom, s);
      if f[43] == 255 then end == UplinkPath(t, f, 34, 42, InnerAt(f), headroom, config, s.now, s.later, s.v6)
      else end.0 == t && end.2 == Passed && (f[43] != 1 ==> end.1 == f)
  {
    var path := PathOf(config, f);
    PathFits(config, f);
    PlainLayers(config, f);
    if f[43] == 255 {
      PduHandled(config, t, f, LayersOf(f), headroom, s);
    } else {
      RestHandled(path, config, t, f, LayersOf(f), headroom, s);
    }
  }

  // ---------------------------------------------------------------- downlink

  /**
   * After an accepted establishment whose FAR i asks for a tunnel and whose QER k has an open gate, and
   * after any run in which only other sessions act, on other keys, and packets flow: every IPv4 frame for
   * the UE that PDR j wants leaves in that tunnel, subject to the limiter window in the QER's slot and to
   * headroom, if it is ICMP, TCP or UDP; a frame of any other protocol is passed up untouched.
   */
  lemma DownlinkReachesItsTunnel(env: Env, w: State, addr: string, est: W.EstablishReq, i: nat, k: nat, j: nat,
                                 run: seq<Event>, config: Config, f: seq<Byte>, headroom: nat, x: Surroundings)
    requires Inv(w.shared, w.sessions) && W.Establish(env, w, addr, est).response.cause == W.Accepted
    requires IsIp4Frame(f) && !ForGtpu(config, f)
    requires Serves(env, w, addr, est, i, k, j, Downlink4(f[30..34])) && Wants(est.createPdrs[j], Inspect(f, 14))
    requires AsksForTunnel(est.createFars[i]) && est.createQers[k].gateDL.GetOr(0) == 0
    requires var v := W.Establish(env, w, addr, est).state;
      && WellFormedRun(env, v, run)
      && OthersOnly(env, v, run, W.SessKey(addr, W.NextSeid(w.next[addr])), Downlink4(f[30..34]))
    ensures var s := After(env, w, addr, est, run);
      var sess := NewlyStored(env, w, addr, est);
      var end := Program(config, TablesIn(s), f, headroom, x);
      && QerId(est.createQers[k]) in sess.qers
      && var qer := sess.qers[QerId(est.createQers[k])].globalId;
         && qer < |s.qer.slots| && (run == [] ==> s.qer.slots[qer].startDL == 0)
         && if LookedUp(f[23]) then
              Served(end, f, Get16(f, 16), headroom, config.n3, x.now, est.createFars[i], est.createQers[k],
                     s.qer.slots[qer].startDL)
            else end == (TablesIn(s), f, Passed)
  {
    HandlerServes(env, w, addr, est, i, k, j, run, f, headroom, config.n3, x.now);
    Ip4Dispatch(config, TablesIn(After(env, w, addr, est, run)), f, headroom, x);
  }

  /**
   * The same for a UE with an IPv6 address and a PDR without flow description: every IPv6 frame for it
   * in which TCP or UDP follows the header leaves in the tunnel; all others are passed up untouched.
   */
  lemma DownlinkIp6ReachesItsTunnel(env: Env, w: State, addr: string, est: W.EstablishReq, i: nat, k: nat, j: nat,
                                    run: seq<Event>, config: Config, f: seq<Byte>, headroom: nat, x: Surroundings)
    requires Inv(w.shared, w.sessions) && W.Establish(env, w, addr, est).response.cause == W.Accepted
    requires |f| >= 54 && Get16(f, 12) == ETH_P_IPV6
    requires Serves(env, w, addr, est, i, k, j, Downlink6(f[38..54])) && est.createPdrs[j].flow.None?
    requires AsksForTunnel(est.createFars[i]) && est.createQers[k].gateDL.GetOr(0) == 0
    requires var v := W.Establish(env, w, addr, est).state;
      && WellFormedRun(env, v, run)
      && OthersOnly(env, v, run, W.SessKey(addr, W.NextSeid(w.next[addr])), Downlink6(f[38..54]))
    ensures var s := After(env, w, addr, est, run);
      var sess := NewlyStored(env, w, addr, est);
      var end := Program(config, TablesIn(s), f, headroom, x);
      && QerId(est.createQers[k]) in sess.qers
      && var qer := sess.qers[QerId(est.createQers[k])].globalId;
         && qer < |s.qer.slots| && (run == [] ==> s.qer.slots[qer].startDL == 0)
         && if f[20] == 6 || f[20] == 17 then
              Served(end, f, Get16(f, 18) + 40, headroom, config.n3, x.now, est.createFars[i], est.createQers[k],
                     s.qer.slots[qer].startDL)
            else end == (TablesIn(s), f, Passed)
  {
    HandlerServesIp6(env, w, addr, est, i, k, j, run, f, headroom, config.n3, x.now, x.v6);
    Ip6Dispatch(config, TablesIn(After(env, w, addr, est, run)), f, headroom, x);
  }

  /**
   * The other direction: if PDR j is the only one on a new address, frames its rule refuses are passed
   * up untouched, still after a run of other sessions and traffic.
   */
  lemma RefusedFramesPass(env: Env, w: State, addr: string, est: W.EstablishReq, j: nat, rule: FlowRule, style: Style,
                          run: seq<Event>, config: Config, f: seq<Byte>, headroom: nat, x: Surroundings)
    requires Inv(w.shared, w.sessions) && IsIp4Frame(f) && !ForGtpu(config, f)
    requires W.Establish(env, w, addr, est).response.cause == W.Accepted && j < |est.createPdrs|
    requires ForAddress(env, est.createPdrs[j], f[30..34]) && Downlink4(f[30..34]) !in w.shared.pdrs
    requires ValidRule(rule) && est.createPdrs[j].flow == Some(Print(rule, style)) && !RuleAccepts(rule, Inspect(f, 14))
    requires var created := CreatedBy(env, w, addr, est);
      forall l :: 0 <= l < |created| && l != j ==> KeyOf(created[l]) != Downlink4(f[30..34])
    requires var v := W.Establish(env, w, addr, est).state;
      && WellFormedRun(env, v, run)
      && OthersOnly(env, v, run, W.SessKey(addr, W.NextSeid(w.next[addr])), Downlink4(f[30..34]))
    ensures var t := TablesIn(After(env, w, addr, est, run));
      Program(config, t, f, headroom, x) == (t, f, Passed)
  {
    HandlerPassesRefused(env, w, addr, est, j, rule, style, run, f, headroom, config.n3, x.now);
    Ip4Dispatch(config, TablesIn(After(env, w, addr, est, run)), f, headroom, x);
  }

  // ---------------------------------------------------------------- uplink

  /** Routed to N6 is only the frame as it came, re-tunnelled or not, or the one remove_gtp_header leaves. */
  lemma SentIsStripped(t: Tables, f: seq<Byte>, cursor: nat, headroom: nat, config: Config, x: Surroundings)
    requires |f| >= 50
    ensures var end := UplinkPath(t, f, 34, 42, cursor, headroom, config, x.now, x.later, x.v6);
      end.2 == SentN6 ==> |end.1| == |f| || Stripped(f, f[42]) == Some(end.1)
  {
  }

  /**
   * Where the skip of 8 bytes misses the T-PDU, the frame with the T-PDU never comes out, whatever the
   * tables hold.
   */
  lemma MissedPayloadIsLost(config: Config, t: Tables, f: seq<Byte>, g: seq<Byte>, headroom: nat, x: Surroundings)
    requires PlainGtpu(config, f) && Unwrapped(f, 42) == Some(g) && !StripsAtPayload(f, 42)
    ensures var end := Program(config, t, f, headroom, x); !(end.2 == SentN6 && end.1 == g)
  {
    GtpuDispatch(config, t, f, headroom, x);
    SentIsStripped(t, f, InnerAt(f), headroom, config, x);
    StrippedIsUnwrappedIff(f, 42);
    UnwrappedIsRest(f, 42);
  }

  /**
   * A G-PDU with a sequence number and nothing else, on a PDR that forwards without filter or limit: the
   * T-PDU begins at byte 54, but what is routed begins at byte 58, or nothing is routed at all.
   */
  lemma SequenceNumberCutsPacket(config: Config, t: Tables, f: seq<Byte>, headroom: nat, x: Surroundings)
    requires PlainGtpu(config, f) && |f| >= 59 && f[42] == 0x32 && f[43] == 255
    requires var key := PdrKey.Uplink(Get32(f, 46));
      && key in t.pdrs && t.pdrs[key].mode == 0 && t.pdrs[key].default.outerHeaderRemoval == 0
      && t.pdrs[key].default.farId < |t.fars| && t.pdrs[key].default.qerId < |t.qers|
      && var far, qer := t.fars[t.pdrs[key].default.farId], t.qers[t.pdrs[key].default.qerId];
         far.action == 2 && far.outerHeaderCreation == 0 && qer.gateStatusUL == 0 && qer.maxBitrateUL == 0
    ensures PayloadAt(f, 42) == Some(54)
    ensures var end := Program(config, t, f, headroom, x);
      match GuessEthertype(f[58])
      case None => end.1 == f && end.2 == Aborted
      case Some(proto) =>
        var cut := f[..12] + Be16(proto) + f[58..];
        Routable(config, cut) ==> end.1 == cut && end.2 == SentN6
  {
    GtpuDispatch(config, t, f, headroom, x);
    var pdr := t.pdrs[PdrKey.Uplink(Get32(f, 46))];
    var (u, far) := PoliceUplink(t, pdr.default, Charged(pdr), |f|, x.now);
    assert far == Some(t.fars[pdr.default.farId]);
    if GuessEthertype(f[58]).Some? {
      var cut := f[..12] + Be16(GuessEthertype(f[58]).value) + f[58..];
      if Routable(config, cut) { RoutableLeaves(u, f, cut, 0, far.value, headroom, config, x.later); }
    }
  }

  /**
   * After an accepted establishment whose FAR i forwards without a new outer header, whose QER k has an
   * open gate and whose PDR j has the outer header removed, and after any such run: let g be the frame
   * with the T-PDU that a G-PDU for the program carries, by TS 29.281, under the PDR's TEID behind an
   * outer IPv4 header without options.  If it is routable and the PDR wants it, then, subject to the
   * limiter window in the QER's slot, g comes out and is sent on exactly when no flag announces optional
   * fields or there is one extension header of 4 bytes and no other.  A message of any other type under
   * the TEID does not meet the tables.
   */
  lemma UplinkDeliversInner(env: Env, w: State, addr: string, est: W.EstablishReq, i: nat, k: nat, j: nat,
                            run: seq<Event>, config: Config, f: seq<Byte>, g: seq<Byte>, headroom: nat,
                            x: Surroundings)
    requires Inv(w.shared, w.sessions) && W.Establish(env, w, addr, est).response.cause == W.Accepted
    requires PlainGtpu(config, f) && Unwrapped(f, 42) == Some(g) && Routable(config, g)
    requires Serves(env, w, addr, est, i, k, j, PdrKey.Uplink(Get32(f, 46))) && WantsInner(est.createPdrs[j], g)
    requires est.createPdrs[j].outerHeaderRemoval.GetOr(0) == 0 || est.createPdrs[j].outerHeaderRemoval.GetOr(0) == 6
    requires AsksToForward(est.createFars[i]) && est.createQers[k].gateUL.GetOr(0) == 0
    requires var v := W.Establish(env, w, addr, est).state;
      && WellFormedRun(env, v, run)
      && OthersOnly(env, v, run, W.SessKey(addr, W.NextSeid(w.next[addr])), PdrKey.Uplink(Get32(f, 46)))
    ensures var s := After(env, w, addr, est, run);
      var sess := NewlyStored(env, w, addr, est);
      var end := Program(config, TablesIn(s), f, headroom, x);
      && QerId(est.createQers[k]) in sess.qers
      && var qer := sess.qers[QerId(est.createQers[k])].globalId;
         && qer < |s.qer.slots| && (run == [] ==> s.qer.slots[qer].startUL == 0)
         && if f[43] != 255 then end.0 == TablesIn(s) && end.2 == Passed
            else if StripsAtPayload(f, 42) then Delivered(end, f, g, x.now, est.createQers[k], s.qer.slots[qer].startUL)
            else !(end.2 == SentN6 && end.1 == g)
  {
    var s := After(env, w, addr, est, run);
    EstablishedRules(env, w, addr, est, i, k);
    RulesPersist(env, w, addr, est, i, k, j, PdrKey.Uplink(Get32(f, 46)), run);
    GtpuDispatch(config, TablesIn(s), f, headroom, x);
    if StripsAtPayload(f, 42) {
      StrippedIsUnwrappedIff(f, 42);
      HandlerDelivers(env, w, addr, est, i, k, j, run, f, g, headroom, config, x.now, x.later, x.v6);
    } else {
      MissedPayloadIsLost(config, TablesIn(s), f, g, headroom, x);
    }
  }

  /** The PDR has no flow description, or the T-PDU is where the program looks for it and the PDR wants it. */
  ghost predicate WantsCarried(pdr: PdrIE, f: seq<Byte>)
    requires |f| >= 50
  {
    || pdr.flow.None?
    || (StripsAtPayload(f, 42) && Unwrapped(f, 42).Some?
        && |Unwrapped(f, 42).value| >= 34 && WantsInner(pdr, Unwrapped(f, 42).value))
  }

  /** The same towards another user plane: with a FAR i that asks for a tunnel the frame goes on in that tunnel. */
  lemma UplinkReachesNextTunnel(env: Env, w: State, addr: string, est: W.EstablishReq, i: nat, k: nat, j: nat,
                                run: seq<Event>, config: Config, f: seq<Byte>, headroom: nat, x: Surroundings)
    requires Inv(w.shared, w.sessions) && W.Establish(env, w, addr, est).response.cause == W.Accepted
    requires PlainGtpu(config, f) && Serves(env, w, addr, est, i, k, j, PdrKey.Uplink(Get32(f, 46)))
    requires WantsCarried(est.createPdrs[j], f)
    requires AsksForTunnel(est.createFars[i]) && est.createQers[k].gateUL.GetOr(0) == 0
    requires var v := W.Establish(env, w, addr, est).state;
      && WellFormedRun(env, v, run)
      && OthersOnly(env, v, run, W.SessKey(addr, W.NextSeid(w.next[addr])), PdrKey.Uplink(Get32(f, 46)))
    ensures var s := After(env, w, addr, est, run);
      var sess := NewlyStored(env, w, addr, est);
      var end := Program(config, TablesIn(s), f, headroom, x);
      && QerId(est.createQers[k]) in sess.qers
      && var qer := sess.qers[QerId(est.createQers[k])].globalId;
         && qer < |s.qer.slots| && (run == [] ==> s.qer.slots[qer].startUL == 0)
         && if f[43] == 255 then Handed(end, f, config, x.now, est.createFars[i], est.createQers[k],
                                        s.qer.slots[qer].startUL)
            else end.0 == TablesIn(s) && end.2 == Passed
  {
    var g := Unwrapped(f, 42).GetOr(f);
    if Unwrapped(f, 42).Some? { StrippedIsUnwrappedIff(f, 42); }
    HandlerHandsOn(env, w, addr, est, i, k, j, run, f, g, headroom, config, x.now, x.later, x.v6);
    GtpuDispatch(config, TablesIn(After(env, w, addr, est, run)), f, headroom, x);
  }
}
