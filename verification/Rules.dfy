/** Rule records, decoded information elements (IEs), and how an IE changes a record. */
module Rules {
  import opened Base
  import opened PdrRecords

  datatype FarInfo = FarInfo(action: nat, outerHeaderCreation: nat, teid: nat, remoteIp: nat,
                             transportLevelMarking: nat)

  datatype QerInfo = QerInfo(gateStatusUL: nat, gateStatusDL: nat, qfi: nat, maxBitrateUL: nat, maxBitrateDL: nat,
                             startUL: nat, startDL: nat)

  datatype UrrInfo = UrrInfo(uplinkVolume: nat, downlinkVolume: nat)

  const ZERO_FAR := FarInfo(0, 0, 0, 0, 0)
  const ZERO_QER := QerInfo(0, 0, 0, 0, 0, 0, 0)
  const ZERO_URR := UrrInfo(0, 0)

  // ---------------------------------------------------------------- FAR

  datatype FarType = CreateFarType | UpdateFarType | OtherType

  /** Outer Header Creation: description, TEID, and the addresses it carries. */
  datatype Ohc = Ohc(description: nat, teid: nat, ip4: Option<Ip4>, hasIp6: bool)

  /**
   * A FAR IE.  forwarding is absent when the (Update) Forwarding Parameters of its type are; a
   * present one may lack the Outer Header Creation.
   */
  datatype FarIE = FarIE(kind: FarType, id: Option<nat>, action: Option<nat>, forwarding: Option<Option<Ohc>>,
                         marking: Option<nat>)

  /** binary.LittleEndian.Uint32 */
  function LittleEndian(b: Ip4): nat { Load32(b) }

  function ComposeFarInfo(far: FarIE, base: FarInfo): Result<FarInfo> {
    var acted := if far.action.Some? then base.(action := far.action.value) else base;
    if far.kind == OtherType then Err
    else
      match far.forwarding
      case Some(Some(ohc)) =>
        if ohc.hasIp6 then Err
        else
          var sent := acted.(outerHeaderCreation := ohc.description / 256 % 256, teid := ohc.teid);
          var aimed := if ohc.ip4.Some? then sent.(remoteIp := LittleEndian(ohc.ip4.value)) else sent;
          Ok(Marked(far, aimed))
      case _ => Ok(Marked(far, acted))
  }

  function Marked(far: FarIE, info: FarInfo): FarInfo {
    if far.marking.Some? then info.(transportLevelMarking := far.marking.value) else info
  }

  // ---------------------------------------------------------------- QER and URR

  /** Bit rates arrive in kilobits per second. */
  datatype QerIE = QerIE(id: Option<nat>, gateDL: Option<nat>, gateUL: Option<nat>, mbrDL: Option<nat>,
                         mbrUL: Option<nat>, qfi: Option<nat>)

  /** uint32(rate) * 1000 in 32-bit arithmetic. */
  function BitRate(kbps: nat): nat {
    kbps % 0x1_0000_0000 * 1000 % 0x1_0000_0000
  }

  /** Fields the IE lacks keep their value; the limiter windows always restart. */
  function UpdateQerInfo(info: QerInfo, qer: QerIE): QerInfo {
    QerInfo(qer.gateUL.GetOr(info.gateStatusUL), qer.gateDL.GetOr(info.gateStatusDL), qer.qfi.GetOr(info.qfi),
            if qer.mbrUL.Some? then BitRate(qer.mbrUL.value) else info.maxBitrateUL,
            if qer.mbrDL.Some? then BitRate(qer.mbrDL.value) else info.maxBitrateDL, 0, 0)
  }

  /** A QER record apart from its limiter windows. */
  function Settings(info: QerInfo): QerInfo { info.(startUL := 0, startDL := 0) }

  datatype UrrIE = UrrIE(id: Option<nat>)

  /** The original leaves URR records unchanged. */
  function UpdateUrrInfo(info: UrrInfo, urr: UrrIE): UrrInfo { info }

  // ---------------------------------------------------------------- PDR

  datatype FteidIE = BadFteid | Fteid(teid: nat, choose: bool, chooseId: Option<nat>)

  datatype UeIpIE = BadUeIp | UeIp(chooseV4: bool, ip4: Option<Ip4>, ip6: Option<seq<Byte>>)

  datatype Pdi = Pdi(fteid: Option<FteidIE>, ueIp: Option<UeIpIE>)

  /** flow is the flow description of the SDF filter, if the PDR has one. */
  datatype PdrIE = PdrIE(id: Option<nat>, outerHeaderRemoval: Option<nat>, farId: Option<nat>, qerId: Option<nat>,
                         urrIds: seq<nat>, pdi: Option<Pdi>, flow: Option<string>)

  /** SPDRInfo: a session's record of one PDR. */
  datatype SPdr = SPdr(pdrId: nat, info: PdrInfo, teid: nat, ip4: Option<Ip4>, ip6: Option<seq<Byte>>, chosen: bool)

  const ZERO_PDR_INFO := PdrInfo(0, 0, 0, 0, 0, None)
  const ZERO_PDR := SPdr(0, ZERO_PDR_INFO, 0, None, None, false)

  /** The three PDR hash tables as one, keyed by table and key. */
  datatype PdrKey = Uplink(teid: nat) | Downlink4(ip4: Ip4) | Downlink6(ip6: seq<Byte>)

  /** The key applyPDR and deletePDR use. */
  function KeyOf(p: SPdr): PdrKey {
    if p.ip4.Some? then Downlink4(p.ip4.value)
    else if p.ip6.Some? then Downlink6(p.ip6.value)
    else Uplink(p.teid)
  }
}
