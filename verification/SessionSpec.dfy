/**
 * One session's rules and the state all sessions share, on values: what a single IE of an
 * establishment or modification request does, and what a list of them does.  A list stops at
 * the first IE that fails and keeps what was done so far; there is no rollback.
 */
module SessionSpec {
  import opened Base
  import opened RuleTables
  import opened Resources
  import opened SdfParser
  import opened PdrRecords
  import opened Rules

  // ---------------------------------------------------------------- what the code cannot choose

  /**
   * accepts(n) says whether the n-th write to a hash table succeeds; order(n, s) is the order in
   * which the n-th map iteration visits the keys s; ueIpFeature is the configured feature flag.
   */
  datatype Choices = Choices(accepts: nat -> bool, order: (nat, set<nat>) -> seq<nat>, ueIpFeature: bool)

  ghost predicate Fair(e: Choices) {
    forall n, s :: Enumerates(e.order(n, s), s)
  }

  ghost function AnyOrder(s: set<nat>): (order: seq<nat>)
    ensures Enumerates(order, s)
  {
    if s == {} then []
    else
      var x :| x in s;
      var rest := AnyOrder(s - {x});
      assert forall k :: k in [x] + rest <==> k == x || k in rest;
      [x] + rest
  }

  type Env = e: Choices | Fair(e) ghost witness Choices(_ => true, (_, s) => AnyOrder(s), false)

  // ---------------------------------------------------------------- state

  /** The three rule pools, the PDR tables, the resource pools, and how many choices were made. */
  datatype Shared = Shared(far: Pool<FarInfo>, qer: Pool<QerInfo>, urr: Pool<UrrInfo>,
                           pdrs: map<PdrKey, PdrRecord>, teids: TeidPool, ips: IpPool, clock: nat)

  datatype SessionRec = SessionRec(localSeid: nat, remoteSeid: nat, pdrs: map<nat, SPdr>,
                                   fars: map<nat, Rule<FarInfo>>, qers: map<nat, Rule<QerInfo>>,
                                   urrs: map<nat, Rule<UrrInfo>>)

  /** The state while a message is handled: cache is the context's TEIDCache. */
  datatype Ctx = Ctx(shared: Shared, sess: SessionRec, cache: map<nat, nat>, created: seq<SPdr>,
                     reports: seq<(nat, UrrInfo)>)

  // ---------------------------------------------------------------- PDR tables

  ghost function PutPdrKey(env: Env, s: Shared, key: PdrKey, info: PdrInfo): Outcome<Shared> {
    var present := if key in s.pdrs then Some(s.pdrs[key]) else None;
    var next := s.(clock := s.clock + 1);
    if env.accepts(s.clock) then Outcome(next.(pdrs := s.pdrs[key := RecordToStore(present, info)]), true)
    else Outcome(next, false)
  }

  /** Deleting an absent key fails. */
  ghost function DeletePdrKey(env: Env, s: Shared, key: PdrKey): Outcome<Shared> {
    var next := s.(clock := s.clock + 1);
    if env.accepts(s.clock) && key in s.pdrs then Outcome(next.(pdrs := s.pdrs - {key}), true)
    else Outcome(next, false)
  }

  ghost function ReleaseSession(env: Env, s: Shared, seid: nat): Shared {
    var order := env.order(s.clock, Row(s.teids, seid).Keys);
    s.(teids := ReleaseTeids(s.teids, seid, order), clock := s.clock + 1)
  }

  // ---------------------------------------------------------------- extractPDR and deletePDR

  ghost function ResolveIds(sess: SessionRec, pdr: PdrIE, info: PdrInfo): PdrInfo {
    PdrInfo(
      pdr.outerHeaderRemoval.GetOr(info.outerHeaderRemoval),
      if pdr.farId.Some? then Lookup(sess.fars, pdr.farId.value, Rule(ZERO_FAR, 0)).globalId else info.farId,
      if pdr.qerId.Some? then Lookup(sess.qers, pdr.qerId.value, Rule(ZERO_QER, 0)).globalId else info.qerId,
      if |pdr.urrIds| > 0 then Lookup(sess.urrs, pdr.urrIds[0], Rule(ZERO_URR, 0)).globalId else info.urr1Id,
      if |pdr.urrIds| > 1 then Lookup(sess.urrs, pdr.urrIds[1], Rule(ZERO_URR, 0)).globalId else info.urr2Id,
      info.sdf)
  }

  function ResolveFlow(flow: Option<string>, info: PdrInfo): Result<PdrInfo> {
    match flow
    case None => Ok(info)
    case Some(text) =>
      if text == "" then Ok(info)
      else match ParseSdfFilter(text) case Ok(f) => Ok(info.(sdf := Some(f))) case Err => Err
  }

  ghost function ResolveTeid(c: Ctx, fteid: FteidIE, p: SPdr): Result<(Ctx, SPdr)> {
    match fteid
    case BadFteid => Err
    case Fteid(teid, choose, chooseId) =>
      if !choose then Ok((c, p.(teid := teid)))
      else if chooseId.Some? && chooseId.value in c.cache then
        Ok((c, p.(teid := c.cache[chooseId.value], chosen := true)))
      else
        match AllocateTeid(c.shared.teids, c.sess.remoteSeid, p.pdrId)
        case None => Err
        case Some((teids, t)) =>
          Ok((c.(shared := c.shared.(teids := teids),
                 cache := if chooseId.Some? then c.cache[chooseId.value := t] else c.cache),
              p.(teid := t, chosen := true)))
  }

  /** A failed address allocation is only logged; the address of the IE is used instead. */
  ghost function ResolveUeIp(env: Env, c: Ctx, ueIp: UeIpIE, p: SPdr): Result<(Ctx, SPdr)> {
    match ueIp
    case BadUeIp => Err
    case UeIp(chooseV4, ip4, ip6) =>
      var got := if env.ueIpFeature && chooseV4 then AllocateIp(c.shared.ips, c.sess.remoteSeid) else None;
      if got.Some? then
        Ok((c.(shared := c.shared.(ips := got.value.0)), p.(ip4 := Some(got.value.1), chosen := true)))
      else if ip4.Some? then Ok((c, p.(ip4 := ip4)))
      else if ip6.Some? then Ok((c, p.(ip6 := ip6)))
      else Err
  }

  ghost function ExtractPdr(env: Env, c: Ctx, pdr: PdrIE, base: SPdr): Result<(Ctx, SPdr)> {
    if pdr.pdi.None? then Err
    else
      match ResolveFlow(pdr.flow, ResolveIds(c.sess, pdr, base.info))
      case Err => Err
      case Ok(info) =>
        var p := base.(info := info);
        if pdr.pdi.value.fteid.Some? then ResolveTeid(c, pdr.pdi.value.fteid.value, p)
        else if pdr.pdi.value.ueIp.Some? then ResolveUeIp(env, c, pdr.pdi.value.ueIp.value, p)
        else Ok((c, p))
  }

  /** The uplink key is deleted unless the cache already holds the low byte of the TEID. */
  ghost function DropKey(env: Env, c: Ctx, p: SPdr): Outcome<Ctx> {
    var uplink := KeyOf(p).Uplink?;
    if uplink && p.teid % 256 in c.cache then Outcome(c, true)
    else
      var deleted := DeletePdrKey(env, c.shared, KeyOf(p));
      Outcome(c.(shared := deleted.state,
                 cache := if uplink && deleted.ok then c.cache[p.teid % 256 := 0] else c.cache), deleted.ok)
  }

  /** A PDR with a TEID then gives back every TEID of the session's peer. */
  ghost function DeletePdr(env: Env, c: Ctx, p: SPdr): Outcome<Ctx> {
    var dropped := DropKey(env, c, p);
    if !dropped.ok || p.teid == 0 then dropped
    else Outcome(dropped.state.(shared := ReleaseSession(env, dropped.state.shared, c.sess.remoteSeid)), true)
  }

  // ---------------------------------------------------------------- one IE

  datatype Ie =
    | CreateFar(far: FarIE) | UpdateFar(far: FarIE) | RemoveFar(id: Option<nat>)
    | CreateQer(qer: QerIE) | UpdateQer(qer: QerIE) | RemoveQer(id: Option<nat>)
    | CreateUrr(urr: UrrIE) | UpdateUrr(urr: UrrIE) | RemoveUrr(id: Option<nat>)
    | CreatePdr(pdr: PdrIE) | UpdatePdr(pdr: PdrIE) | RemovePdr(id: Option<nat>)

  ghost function FarBank(c: Ctx): Bank<FarInfo> { Bank(c.shared.far, c.sess.fars) }
  ghost function QerBank(c: Ctx): Bank<QerInfo> { Bank(c.shared.qer, c.sess.qers) }
  ghost function UrrBank(c: Ctx): Bank<UrrInfo> { Bank(c.shared.urr, c.sess.urrs) }

  ghost function WithFars(c: Ctx, o: Outcome<Bank<FarInfo>>): Outcome<Ctx> {
    Outcome(c.(shared := c.shared.(far := o.state.pool), sess := c.sess.(fars := o.state.rules)), o.ok)
  }

  ghost function WithQers(c: Ctx, o: Outcome<Bank<QerInfo>>): Outcome<Ctx> {
    Outcome(c.(shared := c.shared.(qer := o.state.pool), sess := c.sess.(qers := o.state.rules)), o.ok)
  }

  ghost function WithUrrs(c: Ctx, o: Outcome<Bank<UrrInfo>>): Outcome<Ctx> {
    Outcome(c.(shared := c.shared.(urr := o.state.pool), sess := c.sess.(urrs := o.state.rules)), o.ok)
  }

  ghost function ApplyFar(c: Ctx, ie: Ie): Outcome<Ctx>
    requires ie.CreateFar? || ie.UpdateFar? || ie.RemoveFar?
  {
    match ie
    case CreateFar(far) => (
      match ComposeFarInfo(far, ZERO_FAR)
      case Err => Outcome(c, false)
      case Ok(info) => WithFars(c, CreateRule(FarBank(c), far.id.GetOr(0), info)))
    case UpdateFar(far) =>
      if far.id.None? then Outcome(c, false)
      else (
        match ComposeFarInfo(far, Lookup(c.sess.fars, far.id.value, Rule(ZERO_FAR, 0)).info)
        case Err => Outcome(c, false)
        case Ok(info) => WithFars(c, UpdateRule(FarBank(c), far.id.value, info, ZERO_FAR)))
    case RemoveFar(id) => WithFars(c, RemoveRule(FarBank(c), id.GetOr(0), ZERO_FAR))
  }

  ghost function ApplyQer(c: Ctx, ie: Ie): Outcome<Ctx>
    requires ie.CreateQer? || ie.UpdateQer? || ie.RemoveQer?
  {
    match ie
    case CreateQer(qer) =>
      if qer.id.None? then Outcome(c, false)
      else WithQers(c, CreateRule(QerBank(c), qer.id.value, UpdateQerInfo(ZERO_QER, qer)))
    case UpdateQer(qer) =>
      if qer.id.None? then Outcome(c, false)
      else
        var info := UpdateQerInfo(Lookup(c.sess.qers, qer.id.value, Rule(ZERO_QER, 0)).info, qer);
        WithQers(c, UpdateRule(QerBank(c), qer.id.value, info, ZERO_QER))
    case RemoveQer(id) =>
      if id.None? then Outcome(c, false) else WithQers(c, RemoveRule(QerBank(c), id.value, ZERO_QER))
  }

  ghost function ApplyUrr(c: Ctx, ie: Ie): Outcome<Ctx>
    requires ie.CreateUrr? || ie.UpdateUrr? || ie.RemoveUrr?
  {
    match ie
    case CreateUrr(urr) =>
      if urr.id.None? then Outcome(c, false)
      else WithUrrs(c, CreateRule(UrrBank(c), urr.id.value, UpdateUrrInfo(ZERO_URR, urr)))
    case UpdateUrr(urr) =>
      if urr.id.None? then Outcome(c, false)
      else
        var info := UpdateUrrInfo(Lookup(c.sess.urrs, urr.id.value, Rule(ZERO_URR, 0)).info, urr);
        WithUrrs(c, UpdateRule(UrrBank(c), urr.id.value, info, ZERO_URR))
    case RemoveUrr(id) =>
      if id.None? then Outcome(c, false)
      else
        var g := Lookup(c.sess.urrs, id.value, Rule(ZERO_URR, 0)).globalId;
        var after := WithUrrs(c, RemoveRule(UrrBank(c), id.value, ZERO_URR));
        if !after.ok then after
        else Outcome(after.state.(reports := c.reports + [(id.value, c.shared.urr.slots[g])]), true)
  }

  /** session.PutPDR followed by applyPDR. */
  ghost function StorePdr(env: Env, c: Ctx, id: nat, p: SPdr): Outcome<Ctx> {
    var put := PutPdrKey(env, c.shared, KeyOf(p), p.info);
    Outcome(c.(shared := put.state, sess := c.sess.(pdrs := c.sess.pdrs[id := p])), put.ok)
  }

  ghost function ApplyPdr(env: Env, c: Ctx, ie: Ie): Outcome<Ctx>
    requires ie.CreatePdr? || ie.UpdatePdr? || ie.RemovePdr?
  {
    match ie
    case CreatePdr(pdr) =>
      if pdr.id.None? then Outcome(c, false)
      else (
        match ExtractPdr(env, c, pdr, ZERO_PDR.(pdrId := pdr.id.value))
        case Err => Outcome(c, false)
        case Ok((d, p)) =>
          var stored := StorePdr(env, d, pdr.id.value, p);
          if stored.ok then Outcome(stored.state.(created := stored.state.created + [p]), true) else stored)
    case UpdatePdr(pdr) =>
      if pdr.id.None? then Outcome(c, false)
      else (
        match ExtractPdr(env, c, pdr, Lookup(c.sess.pdrs, pdr.id.value, ZERO_PDR))
        case Err => Outcome(c, false)
        case Ok((d, p)) => StorePdr(env, d, pdr.id.value, p))
    case RemovePdr(id) =>
      var key := id.GetOr(0);
      if key !in c.sess.pdrs then Outcome(c, true)
      else DeletePdr(env, c.(sess := c.sess.(pdrs := c.sess.pdrs - {key})), c.sess.pdrs[key])
  }

  ghost function Apply(env: Env, c: Ctx, ie: Ie): Outcome<Ctx> {
    if ie.CreateFar? || ie.UpdateFar? || ie.RemoveFar? then ApplyFar(c, ie)
    else if ie.CreateQer? || ie.UpdateQer? || ie.RemoveQer? then ApplyQer(c, ie)
    else if ie.CreateUrr? || ie.UpdateUrr? || ie.RemoveUrr? then ApplyUrr(c, ie)
    else ApplyPdr(env, c, ie)
  }

  /** The IEs of a request in the order the handler's loops take them. */
  ghost function ApplyAll(env: Env, c: Ctx, ies: seq<Ie>): Outcome<Ctx>
    decreases ies
  {
    if ies == [] then Outcome(c, true)
    else
      var first := Apply(env, c, ies[0]);
      if first.ok then ApplyAll(env, first.state, ies[1..]) else first
  }

  /** Running two lists one after the other is running their concatenation. */
  lemma {:induction false} ApplyAllConcat(env: Env, c: Ctx, a: seq<Ie>, b: seq<Ie>)
    ensures var first := ApplyAll(env, c, a);
      ApplyAll(env, c, a + b) == if first.ok then ApplyAll(env, first.state, b) else first
    decreases a
  {
    if a == [] {
      assert a + b == b;
    } else {
      assert (a + b)[0] == a[0] && (a + b)[1..] == a[1..] + b;
      var first := Apply(env, c, a[0]);
      if first.ok { ApplyAllConcat(env, first.state, a[1..], b); }
    }
  }
}
