/**
 * The objects a PFCP message is handled with, and the handling of one IE on them.  Each method
 * is proved to do exactly what SessionSpec says of the IE.
 */
module Handlers {
  import opened Base
  import opened RuleTables
  import opened Trackers
  import opened Resources
  import opened SdfParser
  import opened PdrRecords
  import opened Rules
  import opened SessionSpec
  import W = World

  /** The data-plane tables: three arrays with their trackers, and the PDR hash tables. */
  class BpfObjects {
    const env: Env
    const far: RuleTable<FarInfo>
    const qer: RuleTable<QerInfo>
    const urr: RuleTable<UrrInfo>
    var pdrs: map<PdrKey, PdrRecord>
    var clock: nat

    constructor (env: Env, farSize: nat, qerSize: nat, urrSize: nat)
      ensures this.env == env && fresh(far.Repr()) && fresh(qer.Repr()) && fresh(urr.Repr())
      ensures far.Valid() && qer.Valid() && urr.Valid()
      ensures far.zero == ZERO_FAR && qer.zero == ZERO_QER && urr.zero == ZERO_URR
      ensures far.Repr() !! qer.Repr() && far.Repr() !! urr.Repr() && qer.Repr() !! urr.Repr()
      ensures this !in far.Repr() + qer.Repr() + urr.Repr()
      ensures far.Abs() == Pool(UpTo(farSize), seq(farSize, _ => ZERO_FAR))
      ensures qer.Abs() == Pool(UpTo(qerSize), seq(qerSize, _ => ZERO_QER))
      ensures urr.Abs() == Pool(UpTo(urrSize), seq(urrSize, _ => ZERO_URR))
      ensures pdrs == map[] && clock == 0
    {
      this.env := env;
      far := new RuleTable<FarInfo>(farSize, ZERO_FAR);
      qer := new RuleTable<QerInfo>(qerSize, ZERO_QER);
      urr := new RuleTable<UrrInfo>(urrSize, ZERO_URR);
      pdrs, clock := map[], 0;
    }

    /** A hash-table put; the kernel may refuse it. */
    method PutPdr(key: PdrKey, info: PdrInfo) returns (ok: bool)
      modifies this
      ensures clock == old(clock) + 1 && ok == env.accepts(old(clock))
      ensures pdrs
           == if ok then
                old(pdrs)[key := RecordToStore(if key in old(pdrs) then Some(old(pdrs)[key]) else None, info)]
              else old(pdrs)
    {
      var present := if key in pdrs then Some(pdrs[key]) else None;
      var record := RecordToStore(present, info);
      ok := env.accepts(clock);
      clock := clock + 1;
      if ok {
        pdrs := pdrs[key := record];
      }
    }

    /** A hash-table delete; it fails for an absent key. */
    method DeletePdr(key: PdrKey) returns (ok: bool)
      modifies this
      ensures clock == old(clock) + 1 && ok == (env.accepts(old(clock)) && key in old(pdrs))
      ensures pdrs == if ok then old(pdrs) - {key} else old(pdrs)
    {
      ok := env.accepts(clock) && key in pdrs;
      clock := clock + 1;
      if ok {
        pdrs := pdrs - {key};
      }
    }

    /** The order in which the runtime visits the keys of a map. */
    method Visit(keys: set<nat>) returns (order: seq<nat>)
      modifies this`clock
      ensures clock == old(clock) + 1 && order == env.order(old(clock), keys) && Enumerates(order, keys)
    {
      order := env.order(clock, keys);
      clock := clock + 1;
    }
  }

  class Session {
    var localSEID: nat
    var remoteSEID: nat
    var PDRs: map<nat, SPdr>
    var FARs: map<nat, Rule<FarInfo>>
    var QERs: map<nat, Rule<QerInfo>>
    var URRs: map<nat, Rule<UrrInfo>>

    ghost function Abs(): SessionRec
      reads this
    {
      SessionRec(localSEID, remoteSEID, PDRs, FARs, QERs, URRs)
    }

    constructor (localSEID: nat, remoteSEID: nat)
      ensures Abs() == W.NewSession(localSEID, remoteSEID)
    {
      this.localSEID, this.remoteSEID := localSEID, remoteSEID;
      PDRs, FARs, QERs, URRs := map[], map[], map[], map[];
    }
  }

  /** Tables and pools together: what all sessions share. */
  class Plane {
    const bpf: BpfObjects
    const fteidm: FTEIDM
    const ipam: IPAM

    ghost function Repr(): set<object> {
      {bpf, fteidm, ipam, bpf.far.tracker, bpf.far.slots, bpf.qer.tracker, bpf.qer.slots, bpf.urr.tracker,
       bpf.urr.slots}
    }

    ghost predicate Valid() {
      && bpf.far.Valid() && bpf.qer.Valid() && bpf.urr.Valid()
      && bpf.far.zero == ZERO_FAR && bpf.qer.zero == ZERO_QER && bpf.urr.zero == ZERO_URR
      && bpf.far.Repr() !! bpf.qer.Repr() && bpf.far.Repr() !! bpf.urr.Repr() && bpf.qer.Repr() !! bpf.urr.Repr()
      && bpf !in bpf.far.Repr() + bpf.qer.Repr() + bpf.urr.Repr()
      && fteidm !in bpf.far.Repr() + bpf.qer.Repr() + bpf.urr.Repr()
      && ipam !in bpf.far.Repr() + bpf.qer.Repr() + bpf.urr.Repr()
    }

    ghost function Abs(): Shared
      reads Repr()
    {
      Shared(bpf.far.Abs(), bpf.qer.Abs(), bpf.urr.Abs(), bpf.pdrs, fteidm.Abs(), ipam.Abs(), bpf.clock)
    }

    constructor (env: Env, farSize: nat, qerSize: nat, urrSize: nat, teidRange: nat, addresses: seq<Ip4>)
      ensures Valid() && fresh(Repr()) && bpf.env == env
      ensures Abs().far == Pool(UpTo(farSize), seq(farSize, _ => ZERO_FAR))
      ensures Abs().qer == Pool(UpTo(qerSize), seq(qerSize, _ => ZERO_QER))
      ensures Abs().urr == Pool(UpTo(urrSize), seq(urrSize, _ => ZERO_URR))
      ensures Abs().pdrs == map[] && Abs().ips == IpPool(addresses, map[]) && Abs().clock == 0
      ensures Distinct(Abs().teids, teidRange) && Complete(Abs().teids, teidRange) && Abs().teids.busy == map[]
    {
      bpf := new BpfObjects(env, farSize, qerSize, urrSize);
      fteidm := new FTEIDM(teidRange);
      ipam := new IPAM(addresses);
    }

    /** ReleaseTEID for one SEID. */
    method ReleaseSeid(seid: nat)
      requires Valid()
      modifies bpf`clock, fteidm
      ensures Abs() == ReleaseSession(bpf.env, old(Abs()), seid)
    {
      var row: map<nat, nat> := if seid in fteidm.busyTEIDs then fteidm.busyTEIDs[seid] else map[];
      assert row == Row(fteidm.Abs(), seid);
      var order := bpf.Visit(row.Keys);
      fteidm.ReleaseTEID(seid, order);
    }
  }

  /** PDRCreationContext, with what the handler's closure carries besides. */
  class Context {
    const plane: Plane
    const session: Session
    var teidCache: map<nat, nat>
    var created: seq<SPdr>
    var reports: seq<(nat, UrrInfo)>

    ghost predicate Valid() {
      plane.Valid() && session !in plane.Repr() && this !in plane.Repr() && session as object != this
    }

    ghost function Abs(): Ctx
      reads this, session, plane.Repr()
    {
      Ctx(plane.Abs(), session.Abs(), teidCache, created, reports)
    }

    constructor (plane: Plane, session: Session)
      requires plane.Valid() && session !in plane.Repr()
      ensures Valid() && this.plane == plane && this.session == session
      ensures Abs() == W.Start(plane.Abs(), session.Abs())
    {
      this.plane, this.session := plane, session;
      teidCache, created, reports := map[], [], [];
    }

    // -------------------------------------------------------------- FARs

    method CreateFar(far: FarIE) returns (ok: bool)
      requires Valid()
      modifies session, plane.bpf.far.tracker, plane.bpf.far.slots
      ensures Outcome(Abs(), ok) == ApplyFar(old(Abs()), Ie.CreateFar(far))
    {
      var composed := ComposeFarInfo(far, ZERO_FAR);
      if composed.Err? {
        return false;
      }
      var id := plane.bpf.far.New(composed.value);
      if id.None? {
        return false;
      }
      session.FARs := session.FARs[far.id.GetOr(0) := Rule(composed.value, id.value)];
      return true;
    }

    method UpdateFar(far: FarIE) returns (ok: bool)
      requires Valid()
      modifies session, plane.bpf.far.slots
      ensures Outcome(Abs(), ok) == ApplyFar(old(Abs()), Ie.UpdateFar(far))
    {
      if far.id.None? {
        return false;
      }
      var rule := Lookup(session.FARs, far.id.value, Rule(ZERO_FAR, 0));
      var composed := ComposeFarInfo(far, rule.info);
      if composed.Err? {
        return false;
      }
      session.FARs := session.FARs[far.id.value := Rule(composed.value, rule.globalId)];
      ok := plane.bpf.far.Update(rule.globalId, composed.value);
    }

    method RemoveFar(id: Option<nat>) returns (ok: bool)
      requires Valid()
      modifies session, plane.bpf.far.tracker, plane.bpf.far.slots
      ensures Outcome(Abs(), ok) == ApplyFar(old(Abs()), Ie.RemoveFar(id))
    {
      var rule := Lookup(session.FARs, id.GetOr(0), Rule(ZERO_FAR, 0));
      session.FARs := session.FARs - {id.GetOr(0)};
      ok := plane.bpf.far.Delete(rule.globalId);
    }

    // -------------------------------------------------------------- QERs

    method CreateQer(qer: QerIE) returns (ok: bool)
      requires Valid()
      modifies session, plane.bpf.qer.tracker, plane.bpf.qer.slots
      ensures Outcome(Abs(), ok) == ApplyQer(old(Abs()), Ie.CreateQer(qer))
    {
      if qer.id.None? {
        return false;
      }
      var info := UpdateQerInfo(ZERO_QER, qer);
      var id := plane.bpf.qer.New(info);
      if id.None? {
        return false;
      }
      session.QERs := session.QERs[qer.id.value := Rule(info, id.value)];
      return true;
    }

    method UpdateQer(qer: QerIE) returns (ok: bool)
      requires Valid()
      modifies session, plane.bpf.qer.slots
      ensures Outcome(Abs(), ok) == ApplyQer(old(Abs()), Ie.UpdateQer(qer))
    {
      if qer.id.None? {
        return false;
      }
      var rule := Lookup(session.QERs, qer.id.value, Rule(ZERO_QER, 0));
      var info := UpdateQerInfo(rule.info, qer);
      session.QERs := session.QERs[qer.id.value := Rule(info, rule.globalId)];
      ok := plane.bpf.qer.Update(rule.globalId, info);
    }

    method RemoveQer(id: Option<nat>) returns (ok: bool)
      requires Valid()
      modifies session, plane.bpf.qer.tracker, plane.bpf.qer.slots
      ensures Outcome(Abs(), ok) == ApplyQer(old(Abs()), Ie.RemoveQer(id))
    {
      if id.None? {
        return false;
      }
      var rule := Lookup(session.QERs, id.value, Rule(ZERO_QER, 0));
      session.QERs := session.QERs - {id.value};
      ok := plane.bpf.qer.Delete(rule.globalId);
    }

    // -------------------------------------------------------------- URRs

    method CreateUrr(urr: UrrIE) returns (ok: bool)
      requires Valid()
      modifies session, plane.bpf.urr.tracker, plane.bpf.urr.slots
      ensures Outcome(Abs(), ok) == ApplyUrr(old(Abs()), Ie.CreateUrr(urr))
    {
      if urr.id.None? {
        return false;
      }
      var info := UpdateUrrInfo(ZERO_URR, urr);
      var id := plane.bpf.urr.New(info);
      if id.None? {
        return false;
      }
      session.URRs := session.URRs[urr.id.value := Rule(info, id.value)];
      return true;
    }

    method UpdateUrr(urr: UrrIE) returns (ok: bool)
      requires Valid()
      modifies session, plane.bpf.urr.slots
      ensures Outcome(Abs(), ok) == ApplyUrr(old(Abs()), Ie.UpdateUrr(urr))
    {
      if urr.id.None? {
        return false;
      }
      var rule := Lookup(session.URRs, urr.id.value, Rule(ZERO_URR, 0));
      var info := UpdateUrrInfo(rule.info, urr);
      session.URRs := session.URRs[urr.id.value := Rule(info, rule.globalId)];
      ok := plane.bpf.urr.Update(rule.globalId, info);
    }

    method RemoveUrr(id: Option<nat>) returns (ok: bool)
      requires Valid()
      modifies this, session, plane.bpf.urr.tracker, plane.bpf.urr.slots
      ensures Outcome(Abs(), ok) == ApplyUrr(old(Abs()), Ie.RemoveUrr(id))
    {
      if id.None? {
        return false;
      }
      var rule := Lookup(session.URRs, id.value, Rule(ZERO_URR, 0));
      session.URRs := session.URRs - {id.value};
      var volumes := plane.bpf.urr.DeleteReading(rule.globalId);
      if volumes.None? {
        return false;
      }
      reports := reports + [(id.value, volumes.value)];
      return true;
    }

    // -------------------------------------------------------------- PDRs

    /** The FAR, QER and URR ids of a PDR IE, as global ids of this session. */
    method ResolvePdrIds(pdr: PdrIE, info: PdrInfo) returns (r: PdrInfo)
      ensures r == ResolveIds(session.Abs(), pdr, info)
    {
      r := info.(outerHeaderRemoval := pdr.outerHeaderRemoval.GetOr(info.outerHeaderRemoval));
      if pdr.farId.Some? {
        r := r.(farId := Lookup(session.FARs, pdr.farId.value, Rule(ZERO_FAR, 0)).globalId);
      }
      if pdr.qerId.Some? {
        r := r.(qerId := Lookup(session.QERs, pdr.qerId.value, Rule(ZERO_QER, 0)).globalId);
      }
      if |pdr.urrIds| > 0 {
        r := r.(urr1Id := Lookup(session.URRs, pdr.urrIds[0], Rule(ZERO_URR, 0)).globalId);
      }
      if |pdr.urrIds| > 1 {
        r := r.(urr2Id := Lookup(session.URRs, pdr.urrIds[1], Rule(ZERO_URR, 0)).globalId);
      }
    }

    method TakeTeid(fteid: FteidIE, p: SPdr) returns (r: Result<SPdr>)
      requires Valid()
      modifies this, plane.fteidm
      ensures match ResolveTeid(old(Abs()), fteid, p)
              case Err => r == Err && Abs() == old(Abs())
              case Ok((c, q)) => r == Ok(q) && Abs() == c
    {
      if fteid.BadFteid? {
        return Err;
      }
      if !fteid.choose {
        return Ok(p.(teid := fteid.teid));
      }
      if fteid.chooseId.Some? && fteid.chooseId.value in teidCache {
        return Ok(p.(teid := teidCache[fteid.chooseId.value], chosen := true));
      }
      var teid := plane.fteidm.AllocateTEID(session.remoteSEID, p.pdrId);
      if teid.None? {
        return Err;
      }
      if fteid.chooseId.Some? {
        teidCache := teidCache[fteid.chooseId.value := teid.value];
      }
      return Ok(p.(teid := teid.value, chosen := true));
    }

    method TakeUeIp(ueIp: UeIpIE, p: SPdr) returns (r: Result<SPdr>)
      requires Valid()
      modifies plane.ipam
      ensures match ResolveUeIp(plane.bpf.env, old(Abs()), ueIp, p)
              case Err => r == Err && Abs() == old(Abs())
              case Ok((c, q)) => r == Ok(q) && Abs() == c
    {
      if ueIp.BadUeIp? {
        return Err;
      }
      var address, chosen := ueIp.ip4, p.chosen;
      if plane.bpf.env.ueIpFeature && ueIp.chooseV4 {
        var ip := plane.ipam.AllocateIP(session.remoteSEID);
        if ip.Some? {
          address, chosen := ip, true;
        }
      }
      if address.Some? {
        return Ok(p.(ip4 := address, chosen := chosen));
      } else if ueIp.ip6.Some? {
        return Ok(p.(ip6 := ueIp.ip6));
      }
      return Err;
    }

    /** The PDR's rule ids and filter over those of info. */
    method ResolvePdrInfo(pdr: PdrIE, info: PdrInfo) returns (r: Result<PdrInfo>)
      ensures r == ResolveFlow(pdr.flow, ResolveIds(session.Abs(), pdr, info))
    {
      var resolved := ResolvePdrIds(pdr, info);
      if pdr.flow.Some? && pdr.flow.value != "" {
        var filter := ParseSdfFilter(pdr.flow.value);
        if filter.Err? {
          return Err;
        }
        return Ok(resolved.(sdf := Some(filter.value)));
      }
      return Ok(resolved);
    }

    /** extractPDR. */
    method Extract(pdr: PdrIE, base: SPdr) returns (r: Result<SPdr>)
      requires Valid()
      modifies this, plane.fteidm, plane.ipam
      ensures match ExtractPdr(plane.bpf.env, old(Abs()), pdr, base)
              case Err => r == Err && Abs() == old(Abs())
              case Ok((c, q)) => r == Ok(q) && Abs() == c
    {
      if pdr.pdi.None? {
        return Err;
      }
      var info := ResolvePdrInfo(pdr, base.info);
      if info.Err? {
        return Err;
      }
      var p := base.(info := info.value);
      if pdr.pdi.value.fteid.Some? {
        r := TakeTeid(pdr.pdi.value.fteid.value, p);
      } else if pdr.pdi.value.ueIp.Some? {
        r := TakeUeIp(pdr.pdi.value.ueIp.value, p);
      } else {
        r := Ok(p);
      }
    }

    /** session.PutPDR and applyPDR. */
    method Store(id: nat, p: SPdr) returns (ok: bool)
      requires Valid()
      modifies session, plane.bpf
      ensures Outcome(Abs(), ok) == StorePdr(plane.bpf.env, old(Abs()), id, p)
    {
      session.PDRs := session.PDRs[id := p];
      ok := plane.bpf.PutPdr(KeyOf(p), p.info);
    }

    /** Extracts a PDR from the IE over base, then stores it. */
    method Install(id: nat, pdr: PdrIE, base: SPdr) returns (ok: bool, p: SPdr)
      requires Valid()
      modifies this, session, plane.bpf, plane.fteidm, plane.ipam
      ensures match ExtractPdr(plane.bpf.env, old(Abs()), pdr, base)
              case Err => !ok && Abs() == old(Abs())
              case Ok((c, q)) => p == q && Outcome(Abs(), ok) == StorePdr(plane.bpf.env, c, id, q)
    {
      var extracted := Extract(pdr, base);
      if extracted.Err? {
        return false, base;
      }
      p := extracted.value;
      ok := Store(id, p);
    }

    /** The PDR is reported in the response. */
    method Announce(p: SPdr)
      requires Valid()
      modifies this`created
      ensures Abs() == old(Abs()).(created := old(created) + [p])
    {
      created := created + [p];
    }

    method CreatePdr(pdr: PdrIE) returns (ok: bool)
      requires Valid()
      modifies this, session, plane.bpf, plane.fteidm, plane.ipam
      ensures Outcome(Abs(), ok) == ApplyPdr(plane.bpf.env, old(Abs()), Ie.CreatePdr(pdr))
    {
      if pdr.id.None? {
        return false;
      }
      var p;
      ok, p := Install(pdr.id.value, pdr, ZERO_PDR.(pdrId := pdr.id.value));
      if ok {
        Announce(p);
      }
    }

    method UpdatePdr(pdr: PdrIE) returns (ok: bool)
      requires Valid()
      modifies this, session, plane.bpf, plane.fteidm, plane.ipam
      ensures Outcome(Abs(), ok) == ApplyPdr(plane.bpf.env, old(Abs()), Ie.UpdatePdr(pdr))
    {
      if pdr.id.None? {
        return false;
      }
      var p;
      ok, p := Install(pdr.id.value, pdr, Lookup(session.PDRs, pdr.id.value, ZERO_PDR));
    }

    method DropPdrKey(p: SPdr) returns (ok: bool)
      requires Valid()
      modifies this, plane.bpf
      ensures Outcome(Abs(), ok) == DropKey(plane.bpf.env, old(Abs()), p)
    {
      if p.ip4.Some? || p.ip6.Some? {
        ok := plane.bpf.DeletePdr(KeyOf(p));
      } else if p.teid % 256 in teidCache {
        ok := true;
      } else {
        ok := plane.bpf.DeletePdr(KeyOf(p));
        if ok {
          teidCache := teidCache[p.teid % 256 := 0];
        }
      }
    }

    /** deletePDR. */
    method DeletePdrKeys(p: SPdr) returns (ok: bool)
      requires Valid()
      modifies this, plane.bpf, plane.fteidm
      ensures Outcome(Abs(), ok) == DeletePdr(plane.bpf.env, old(Abs()), p)
    {
      ok := DropPdrKey(p);
      if ok && p.teid != 0 {
        plane.ReleaseSeid(session.remoteSEID);
      }
    }

    method RemovePdr(id: Option<nat>) returns (ok: bool)
      requires Valid()
      modifies this, session, plane.bpf, plane.fteidm
      ensures Outcome(Abs(), ok) == ApplyPdr(plane.bpf.env, old(Abs()), Ie.RemovePdr(id))
    {
      var key := id.GetOr(0);
      if key !in session.PDRs {
        return true;
      }
      var p := session.PDRs[key];
      session.PDRs := session.PDRs - {key};
      ok := DeletePdrKeys(p);
    }

    // -------------------------------------------------------------- lists

    method ProcessFar(ie: Ie) returns (ok: bool)
      requires Valid() && (ie.CreateFar? || ie.UpdateFar? || ie.RemoveFar?)
      modifies session, plane.bpf.far.tracker, plane.bpf.far.slots
      ensures Outcome(Abs(), ok) == Apply(plane.bpf.env, old(Abs()), ie)
    {
      match ie {
        case CreateFar(x) => ok := CreateFar(x);
        case UpdateFar(x) => ok := UpdateFar(x);
        case RemoveFar(id) => ok := RemoveFar(id);
      }
    }

    method ProcessQer(ie: Ie) returns (ok: bool)
      requires Valid() && (ie.CreateQer? || ie.UpdateQer? || ie.RemoveQer?)
      modifies session, plane.bpf.qer.tracker, plane.bpf.qer.slots
      ensures Outcome(Abs(), ok) == Apply(plane.bpf.env, old(Abs()), ie)
    {
      match ie {
        case CreateQer(x) => ok := CreateQer(x);
        case UpdateQer(x) => ok := UpdateQer(x);
        case RemoveQer(id) => ok := RemoveQer(id);
      }
    }

    method ProcessUrr(ie: Ie) returns (ok: bool)
      requires Valid() && (ie.CreateUrr? || ie.UpdateUrr? || ie.RemoveUrr?)
      modifies this, session, plane.bpf.urr.tracker, plane.bpf.urr.slots
      ensures Outcome(Abs(), ok) == Apply(plane.bpf.env, old(Abs()), ie)
    {
      match ie {
        case CreateUrr(x) => ok := CreateUrr(x);
        case UpdateUrr(x) => ok := UpdateUrr(x);
        case RemoveUrr(id) => ok := RemoveUrr(id);
      }
    }

    method ProcessPdr(ie: Ie) returns (ok: bool)
      requires Valid() && (ie.CreatePdr? || ie.UpdatePdr? || ie.RemovePdr?)
      modifies this, session, plane.bpf, plane.fteidm, plane.ipam
      ensures Outcome(Abs(), ok) == Apply(plane.bpf.env, old(Abs()), ie)
    {
      match ie {
        case CreatePdr(x) => ok := CreatePdr(x);
        case UpdatePdr(x) => ok := UpdatePdr(x);
        case RemovePdr(id) => ok := RemovePdr(id);
      }
    }

    method Process(ie: Ie) returns (ok: bool)
      requires Valid()
      modifies this, session, plane.Repr()
      ensures Outcome(Abs(), ok) == Apply(plane.bpf.env, old(Abs()), ie)
    {
      if ie.CreateFar? || ie.UpdateFar? || ie.RemoveFar? {
        ok := ProcessFar(ie);
      } else if ie.CreateQer? || ie.UpdateQer? || ie.RemoveQer? {
        ok := ProcessQer(ie);
      } else if ie.CreateUrr? || ie.UpdateUrr? || ie.RemoveUrr? {
        ok := ProcessUrr(ie);
      } else {
        ok := ProcessPdr(ie);
      }
    }

    /** One of the handler's loops: it stops at the first IE that fails. */
    method ProcessAll(ies: seq<Ie>) returns (ok: bool)
      requires Valid()
      modifies this, session, plane.Repr()
      ensures Outcome(Abs(), ok) == ApplyAll(plane.bpf.env, old(Abs()), ies)
    {
      for i := 0 to |ies|
        invariant ApplyAll(plane.bpf.env, old(Abs()), ies) == ApplyAll(plane.bpf.env, Abs(), ies[i..])
      {
        assert ies[i..][0] == ies[i] && ies[i..][1..] == ies[i + 1..];
        ok := Process(ies[i]);
        if !ok {
          return;
        }
      }
      return true;
    }
  }
}
