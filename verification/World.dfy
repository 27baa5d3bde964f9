/**
 * The whole control plane on values: associations, sessions, shared tables, and what each PFCP
 * message and association pruning do to them.
 */
module World {
  import opened Base
  import opened RuleTables
  import opened Resources
  import opened PdrRecords
  import opened Rules
  import opened SessionSpec

  datatype SessKey = SessKey(addr: string, seid: nat)

  /** next holds each association's NextSessionID. */
  datatype State = State(shared: Shared, next: map<string, nat>, sessions: map<SessKey, SessionRec>)

  // ---------------------------------------------------------------- messages

  /** cpSeid is absent when the CP F-SEID is missing or does not decode. */
  datatype EstablishReq = EstablishReq(nodeIdOk: bool, cpSeid: Option<nat>, createFars: seq<FarIE>,
                                       createQers: seq<QerIE>, createUrrs: seq<UrrIE>, createPdrs: seq<PdrIE>)

  datatype ModifyReq = ModifyReq(
    cpSeid: Option<nat>,
    createFars: seq<FarIE>, updateFars: seq<FarIE>, removeFars: seq<Option<nat>>,
    createQers: seq<QerIE>, updateQers: seq<QerIE>, removeQers: seq<Option<nat>>,
    createUrrs: seq<UrrIE>, updateUrrs: seq<UrrIE>, removeUrrs: seq<Option<nat>>,
    createPdrs: seq<PdrIE>, updatePdrs: seq<PdrIE>, removePdrs: seq<Option<nat>>)

  datatype Cause = Accepted | MandatoryIeMissing | NoAssociation | SessionNotFound | RuleFailure

  /** A Created PDR IE reports a resource the user plane chose. */
  datatype CreatedPdr = CreatedUeIp(pdrId: nat, ip4: Ip4) | CreatedFteid(pdrId: nat, teid: nat)

  datatype Response = Response(cause: Cause, peerSeid: nat, localSeid: Option<nat>, created: seq<CreatedPdr>,
                               reports: seq<(nat, UrrInfo)>)

  datatype Answer = Answer(state: State, response: Response)

  function Reject(cause: Cause, peerSeid: nat): Response {
    Response(cause, peerSeid, None, [], [])
  }

  /** processCreatedPDRs. */
  function CreatedIes(created: seq<SPdr>): seq<CreatedPdr> {
    if created == [] then []
    else
      var p := created[0];
      (if !p.chosen then []
       else if p.ip4.Some? then [CreatedUeIp(p.pdrId, p.ip4.value)]
       else if p.ip6.Some? then []
       else [CreatedFteid(p.pdrId, p.teid)])
      + CreatedIes(created[1..])
  }

  /** r is what the user plane has to tell about the resource it chose for p. */
  predicate Reports(p: SPdr, r: CreatedPdr) {
    && p.chosen
    && if p.ip4.Some? then r == CreatedUeIp(p.pdrId, p.ip4.value)
       else p.ip6.None? && r == CreatedFteid(p.pdrId, p.teid)
  }

  /** The Created PDR IEs report the PDRs with a chosen resource, and no others. */
  lemma {:induction false} CreatedIesReport(created: seq<SPdr>, r: CreatedPdr)
    ensures r in CreatedIes(created) <==> exists i :: 0 <= i < |created| && Reports(created[i], r)
    decreases created
  {
    if created == [] {
    } else {
      CreatedIesReport(created[1..], r);
      if i :| 0 <= i < |created| && Reports(created[i], r) {
        if i > 0 { assert Reports(created[1..][i - 1], r); }
      }
      if i :| 0 <= i < |created[1..]| && Reports(created[1..][i], r) { assert Reports(created[i + 1], r); }
    }
  }

  // ---------------------------------------------------------------- lists of IEs

  function Wrap<A, B>(f: A -> B, s: seq<A>): (r: seq<B>)
    ensures |r| == |s| && forall i :: 0 <= i < |s| ==> r[i] == f(s[i])
  {
    seq(|s|, i requires 0 <= i < |s| => f(s[i]))
  }

  function EstablishIes(r: EstablishReq): seq<Ie> {
    Wrap(x => CreateFar(x), r.createFars) + Wrap(x => CreateQer(x), r.createQers)
    + Wrap(x => CreateUrr(x), r.createUrrs) + Wrap(x => CreatePdr(x), r.createPdrs)
  }

  function FarIes(r: ModifyReq): seq<Ie> {
    Wrap(x => CreateFar(x), r.createFars) + Wrap(x => UpdateFar(x), r.updateFars)
      + Wrap(x => RemoveFar(x), r.removeFars)
  }

  function QerIes(r: ModifyReq): seq<Ie> {
    Wrap(x => CreateQer(x), r.createQers) + Wrap(x => UpdateQer(x), r.updateQers)
      + Wrap(x => RemoveQer(x), r.removeQers)
  }

  function UrrIes(r: ModifyReq): seq<Ie> {
    Wrap(x => CreateUrr(x), r.createUrrs) + Wrap(x => UpdateUrr(x), r.updateUrrs)
      + Wrap(x => RemoveUrr(x), r.removeUrrs)
  }

  function PdrIes(r: ModifyReq): seq<Ie> {
    Wrap(x => CreatePdr(x), r.createPdrs) + Wrap(x => UpdatePdr(x), r.updatePdrs)
      + Wrap(x => RemovePdr(x), r.removePdrs)
  }

  function ModifyIes(r: ModifyReq): seq<Ie> {
    FarIes(r) + QerIes(r) + UrrIes(r) + PdrIes(r)
  }

  // ---------------------------------------------------------------- establishment and modification

  function NewSession(localSeid: nat, remoteSeid: nat): SessionRec {
    SessionRec(localSeid, remoteSeid, map[], map[], map[], map[])
  }

  ghost function Start(shared: Shared, sess: SessionRec): Ctx {
    Ctx(shared, sess, map[], [], [])
  }

  /** NextSessionID is a 64-bit counter. */
  function NextSeid(n: nat): nat { (n + 1) % 0x1_0000_0000_0000_0000 }

  ghost function Establish(env: Env, w: State, addr: string, r: EstablishReq): Answer {
    if !r.nodeIdOk || r.cpSeid.None? then Answer(w, Reject(MandatoryIeMissing, 0))
    else if addr !in w.next then Answer(w, Reject(NoAssociation, 0))
    else
      var local := NextSeid(w.next[addr]);
      var next := w.next[addr := local];
      var run := ApplyAll(env, Start(w.shared, NewSession(local, r.cpSeid.value)), EstablishIes(r));
      if !run.ok then Answer(State(run.state.shared, next, w.sessions), Reject(RuleFailure, r.cpSeid.value))
      else Answer(State(run.state.shared, next, w.sessions[SessKey(addr, local) := run.state.sess]),
                  Response(Accepted, r.cpSeid.value, Some(local), CreatedIes(run.state.created), []))
  }

  /** The session as the modification's IEs find it: a new CP F-SEID takes effect first. */
  function Rehomed(sess: SessionRec, r: ModifyReq): SessionRec {
    if r.cpSeid.Some? then sess.(remoteSeid := r.cpSeid.value) else sess
  }

  ghost function Modify(env: Env, w: State, addr: string, seid: nat, r: ModifyReq): Answer {
    if addr !in w.next then Answer(w, Reject(NoAssociation, seid))
    else if SessKey(addr, seid) !in w.sessions then Answer(w, Reject(SessionNotFound, 0))
    else
      var sess := Rehomed(w.sessions[SessKey(addr, seid)], r);
      var run := ApplyAll(env, Start(w.shared, sess), ModifyIes(r));
      Answer(State(run.state.shared, w.next, w.sessions[SessKey(addr, seid) := run.state.sess]),
             if run.ok then Response(Accepted, run.state.sess.remoteSeid, None, CreatedIes(run.state.created),
                                     run.state.reports)
             else Reject(RuleFailure, run.state.sess.remoteSeid))
  }

  // ---------------------------------------------------------------- deletion

  ghost function Tick(s: Shared): Shared { s.(clock := s.clock + 1) }

  /** The PDRs of the session in the given order, up to the first that fails. */
  ghost function DeletePdrs(env: Env, c: Ctx, order: seq<nat>): Outcome<Ctx>
    requires forall k :: k in order ==> k in c.sess.pdrs
    decreases order
  {
    if order == [] then Outcome(c, true)
    else
      var first := DeletePdr(env, c, c.sess.pdrs[order[0]]);
      if first.ok then DeletePdrs(env, first.state, order[1..]) else first
  }

  /** Drops the slots of the rules in the given order, up to the first that fails. */
  function DropAll<T>(p: Pool<T>, rules: map<nat, Rule<T>>, order: seq<nat>, zero: T): Outcome<Pool<T>>
    requires forall k :: k in order ==> k in rules
    decreases order
  {
    if order == [] then Outcome(p, true)
    else
      var first := DropSlot(p, rules[order[0]].globalId, zero);
      if first.ok then DropAll(first.state, rules, order[1..], zero) else first
  }

  /** Drops every slot it can and skips the others. */
  function DropEach<T>(p: Pool<T>, rules: map<nat, Rule<T>>, order: seq<nat>, zero: T): Pool<T>
    requires forall k :: k in order ==> k in rules
    decreases order
  {
    if order == [] then p else DropEach(DropSlot(p, rules[order[0]].globalId, zero).state, rules, order[1..], zero)
  }

  /** The usage reports for the URRs that could be read. */
  function DropReports(p: Pool<UrrInfo>, rules: map<nat, Rule<UrrInfo>>, order: seq<nat>): seq<(nat, UrrInfo)>
    requires forall k :: k in order ==> k in rules
    decreases order
  {
    if order == [] then []
    else
      var g := rules[order[0]].globalId;
      (if g < |p.slots| then [(order[0], p.slots[g])] else [])
      + DropReports(DropSlot(p, g, ZERO_URR).state, rules, order[1..])
  }

  ghost function DropFars(env: Env, s: Shared, sess: SessionRec): Outcome<Shared> {
    var run := DropAll(s.far, sess.fars, env.order(s.clock, sess.fars.Keys), ZERO_FAR);
    Outcome(Tick(s.(far := run.state)), run.ok)
  }

  ghost function DropQers(env: Env, s: Shared, sess: SessionRec): Outcome<Shared> {
    var run := DropAll(s.qer, sess.qers, env.order(s.clock, sess.qers.Keys), ZERO_QER);
    Outcome(Tick(s.(qer := run.state)), run.ok)
  }

  ghost function DropUrrs(env: Env, s: Shared, sess: SessionRec): (Shared, seq<(nat, UrrInfo)>) {
    var order := env.order(s.clock, sess.urrs.Keys);
    (Tick(s.(urr := DropEach(s.urr, sess.urrs, order, ZERO_URR))), DropReports(s.urr, sess.urrs, order))
  }

  /** The FAR, QER and URR loops of the deletion handler, and its usage reports. */
  ghost function TeardownRules(env: Env, s: Shared, sess: SessionRec): Outcome<(Shared, seq<(nat, UrrInfo)>)> {
    var fars := DropFars(env, s, sess);
    if !fars.ok then Outcome((fars.state, []), false)
    else
      var qers := DropQers(env, fars.state, sess);
      if !qers.ok then Outcome((qers.state, []), false)
      else Outcome(DropUrrs(env, qers.state, sess), true)
  }

  /** All loops of the deletion handler, PDRs first. */
  ghost function Teardown(env: Env, s: Shared, sess: SessionRec): Outcome<(Shared, seq<(nat, UrrInfo)>)> {
    var pdrs := DeletePdrs(env, Start(Tick(s), sess), env.order(s.clock, sess.pdrs.Keys));
    if !pdrs.ok then Outcome((pdrs.state.shared, []), false) else TeardownRules(env, pdrs.state.shared, sess)
  }

  /** ReleaseResources: by the SEID of the request, which is the local one. */
  ghost function ReleaseResources(env: Env, s: Shared, seid: nat): Shared {
    ReleaseSession(env, s.(ips := ReleaseIp(s.ips, seid)), seid)
  }

  ghost function Delete(env: Env, w: State, addr: string, seid: nat): Answer {
    var key := SessKey(addr, seid);
    if addr !in w.next then Answer(w, Reject(NoAssociation, 0))
    else if key !in w.sessions then Answer(w, Reject(SessionNotFound, 0))
    else
      var sess := w.sessions[key];
      var down := Teardown(env, w.shared, sess);
      if !down.ok then Answer(w.(shared := down.state.0), Reject(RuleFailure, 0))
      else Answer(State(ReleaseResources(env, down.state.0, seid), w.next, w.sessions - {key}),
                  Response(Accepted, sess.remoteSeid, None, [], down.state.1))
  }

  // ---------------------------------------------------------------- pruning

  /** Deletes what it can of every PDR; errors are ignored. */
  ghost function PrunePdrs(env: Env, c: Ctx, order: seq<nat>): Ctx
    requires forall k :: k in order ==> k in c.sess.pdrs
    decreases order
  {
    if order == [] then c else PrunePdrs(env, DeletePdr(env, c, c.sess.pdrs[order[0]]).state, order[1..])
  }

  ghost function PruneFars(env: Env, s: Shared, sess: SessionRec): Shared {
    Tick(s.(far := DropEach(s.far, sess.fars, env.order(s.clock, sess.fars.Keys), ZERO_FAR)))
  }

  ghost function PruneQers(env: Env, s: Shared, sess: SessionRec): Shared {
    Tick(s.(qer := DropEach(s.qer, sess.qers, env.order(s.clock, sess.qers.Keys), ZERO_QER)))
  }

  /** PfcpConnection.DeleteSession: FARs, QERs, then PDRs.  URRs are not visited. */
  ghost function PruneSession(env: Env, s: Shared, sess: SessionRec): Shared {
    var rules := PruneQers(env, PruneFars(env, s, sess), sess);
    PrunePdrs(env, Start(Tick(rules), sess), env.order(rules.clock, sess.pdrs.Keys)).shared
  }

  ghost function SeidsOf(w: State, addr: string): set<nat> {
    set k | k in w.sessions && k.addr == addr :: k.seid
  }

  ghost function PruneSessions(env: Env, s: Shared, sessions: map<SessKey, SessionRec>, addr: string, order: seq<nat>)
    : Shared
    requires forall seid :: seid in order ==> SessKey(addr, seid) in sessions
    decreases order
  {
    if order == [] then s
    else PruneSessions(env, PruneSession(env, s, sessions[SessKey(addr, order[0])]), sessions, addr, order[1..])
  }

  /** DeleteAssociation. */
  ghost function Prune(env: Env, w: State, addr: string): State {
    State(PruneSessions(env, Tick(w.shared), w.sessions, addr, env.order(w.shared.clock, SeidsOf(w, addr))),
          w.next - {addr}, map k | k in w.sessions && k.addr != addr :: w.sessions[k])
  }

  /** Association setup: an existing association is kept. */
  function Associate(w: State, addr: string): State {
    if addr in w.next then w else w.(next := w.next[addr := 1])
  }
}
