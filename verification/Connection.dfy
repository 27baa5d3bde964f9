/**
 * The PFCP connection as an object, and the handlers of the session messages and of pruning.
 * Every handler does to the heap exactly what World says, so the theorems about World's functions
 * hold of these methods.  An association's NextSessionID and Sessions are kept in two maps of the
 * connection, keyed by the association's address.
 */
module Connection {
  import opened Base
  import opened RuleTables
  import opened Trackers
  import opened Resources
  import opened PdrRecords
  import opened Rules
  import opened SessionSpec
  import opened World
  import opened Handlers

  // ---------------------------------------------------------------- loops over a session's rules

  /** Deletes the slots of the rules in order, up to the first failure. */
  method DropRules<T(0)>(table: RuleTable<T>, rules: map<nat, Rule<T>>, order: seq<nat>) returns (ok: bool)
    requires table.Valid() && forall k :: k in order ==> k in rules
    modifies table.tracker, table.slots
    ensures Outcome(table.Abs(), ok) == DropAll(old(table.Abs()), rules, order, table.zero)
  {
    for i := 0 to |order|
      invariant DropAll(old(table.Abs()), rules, order, table.zero)
          == DropAll(table.Abs(), rules, order[i..], table.zero)
    {
      assert order[i..][0] == order[i] && order[i..][1..] == order[i + 1..] && order[i] in order;
      ok := table.Delete(rules[order[i]].globalId);
      if !ok {
        return;
      }
    }
    return true;
  }

  /** Deletes what it can; errors are ignored. */
  method DropRulesAnyway<T(0)>(table: RuleTable<T>, rules: map<nat, Rule<T>>, order: seq<nat>)
    requires table.Valid() && forall k :: k in order ==> k in rules
    modifies table.tracker, table.slots
    ensures table.Abs() == DropEach(old(table.Abs()), rules, order, table.zero)
  {
    for i := 0 to |order|
      invariant DropEach(old(table.Abs()), rules, order, table.zero)
          == DropEach(table.Abs(), rules, order[i..], table.zero)
    {
      assert order[i..][0] == order[i] && order[i..][1..] == order[i + 1..] && order[i] in order;
      var _ := table.Delete(rules[order[i]].globalId);
    }
  }

  lemma Assoc<T>(a: seq<T>, b: seq<T>, c: seq<T>)
    ensures a + (b + c) == (a + b) + c
  {
  }

  /** One turn of the reporting loop. */
  lemma DropReportsTurn(p: Pool<UrrInfo>, rules: map<nat, Rule<UrrInfo>>, order: seq<nat>, i: nat)
    requires i < |order| && forall k :: k in order ==> k in rules
    ensures var g := rules[order[i]].globalId;
      var q := DropSlot(p, g, ZERO_URR).state;
      && DropEach(p, rules, order[i..], ZERO_URR) == DropEach(q, rules, order[i + 1..], ZERO_URR)
      && DropReports(p, rules, order[i..])
         == (if g < |p.slots| then [(order[i], p.slots[g])] else []) + DropReports(q, rules, order[i + 1..])
  {
    assert order[i..][0] == order[i] && order[i..][1..] == order[i + 1..];
  }

  /** Deletes what it can and reports the volumes read. */
  method DropReporting(table: RuleTable<UrrInfo>, rules: map<nat, Rule<UrrInfo>>, order: seq<nat>)
    returns (reports: seq<(nat, UrrInfo)>)
    requires table.Valid() && table.zero == ZERO_URR && forall k :: k in order ==> k in rules
    modifies table.tracker, table.slots
    ensures table.Abs() == DropEach(old(table.Abs()), rules, order, ZERO_URR)
    ensures reports == DropReports(old(table.Abs()), rules, order)
  {
    reports := [];
    for i := 0 to |order|
      invariant DropEach(old(table.Abs()), rules, order, ZERO_URR) == DropEach(table.Abs(), rules, order[i..], ZERO_URR)
      invariant DropReports(old(table.Abs()), rules, order) == reports + DropReports(table.Abs(), rules, order[i..])
    {
      assert order[i] in order;
      DropReportsTurn(table.Abs(), rules, order, i);
      ghost var rest := DropReports(DropSlot(table.Abs(), rules[order[i]].globalId, ZERO_URR).state, rules,
                                    order[i + 1..]);
      var volumes := table.DeleteReading(rules[order[i]].globalId);
      var turn := if volumes.Some? then [(order[i], volumes.value)] else [];
      Assoc(reports, turn, rest);
      reports := reports + turn;
    }
  }

  method ProcessCreatedPDRs(created: seq<SPdr>) returns (ies: seq<CreatedPdr>)
    ensures ies == CreatedIes(created)
  {
    ies := [];
    for i := 0 to |created|
      invariant CreatedIes(created) == ies + CreatedIes(created[i..])
    {
      var p := created[i];
      assert created[i..][0] == p && created[i..][1..] == created[i + 1..];
      var reported := [];
      if p.chosen {
        if p.ip4.Some? {
          reported := [CreatedUeIp(p.pdrId, p.ip4.value)];
        } else if p.ip6.None? {
          reported := [CreatedFteid(p.pdrId, p.teid)];
        }
      }
      Assoc(ies, reported, CreatedIes(created[i + 1..]));
      ies := ies + reported;
    }
  }

  // ---------------------------------------------------------------- the connection

  /** The records of a map of session objects. */
  ghost function Records(m: map<SessKey, Session>): map<SessKey, SessionRec>
    reads m.Values
  {
    map k | k in m :: m[k].Abs()
  }

  /** No session object is stored under two keys, and none is part of the plane. */
  ghost predicate Unshared(m: map<SessKey, Session>, plane: Plane) {
    && (forall k, l :: k in m && l in m && m[k] == m[l] ==> k == l)
    && (forall k :: k in m ==> m[k] !in plane.Repr())
  }

  lemma RecordsSame(m: map<SessKey, Session>, before: map<SessKey, SessionRec>)
    requires before.Keys == m.Keys && forall k :: k in m ==> m[k].Abs() == before[k]
    ensures Records(m) == before
  {
  }

  /** If the other sessions' records are as before, the one under key is the only difference. */
  lemma RecordsOfOne(m: map<SessKey, Session>, key: SessKey, before: map<SessKey, SessionRec>)
    requires key in m && before.Keys == m.Keys
    requires forall k :: k in m && k != key ==> m[k].Abs() == before[k]
    ensures Records(m) == before[key := m[key].Abs()]
  {
  }

  /** A request's IEs on one session: the created PDRs and the usage reports. */
  method RunIes(plane: Plane, session: Session, ies: seq<Ie>)
    returns (ok: bool, created: seq<SPdr>, reports: seq<(nat, UrrInfo)>, ghost end: Ctx)
    requires plane.Valid() && session !in plane.Repr()
    modifies session, plane.Repr()
    ensures Outcome(end, ok) == ApplyAll(plane.bpf.env, Start(old(plane.Abs()), old(session.Abs())), ies)
    ensures plane.Abs() == end.shared && session.Abs() == end.sess && created == end.created && reports == end.reports
  {
    var ctx := new Context(plane, session);
    ok := ctx.ProcessAll(ies);
    created, reports, end := ctx.created, ctx.reports, ctx.Abs();
  }

  /** A new CP F-SEID takes effect before the modification's IEs. */
  method Rehome(session: Session, r: ModifyReq)
    modifies session`remoteSEID
    ensures session.Abs() == Rehomed(old(session.Abs()), r)
  {
    if r.cpSeid.Some? {
      session.remoteSEID := r.cpSeid.value;
    }
  }

  /** The loops of the deletion handler over one session. */
  method TearDownSession(plane: Plane, session: Session) returns (ok: bool, reports: seq<(nat, UrrInfo)>)
    requires plane.Valid() && session !in plane.Repr()
    modifies plane.Repr()
    ensures Outcome((plane.Abs(), reports), ok) == Teardown(plane.bpf.env, old(plane.Abs()), session.Abs())
  {
    reports := [];
    ok := DropPdrs(plane, session);
    if ok {
      ok, reports := TearDownRules(plane, session);
    }
  }

  method TearDownRules(plane: Plane, session: Session) returns (ok: bool, reports: seq<(nat, UrrInfo)>)
    requires plane.Valid() && session !in plane.Repr()
    modifies plane.Repr()
    ensures Outcome((plane.Abs(), reports), ok) == TeardownRules(plane.bpf.env, old(plane.Abs()), session.Abs())
  {
    reports := [];
    ok := DropSessionFars(plane, session);
    if ok {
      ghost var s := plane.Abs();
      ok := DropSessionQers(plane, session);
      assert Outcome(plane.Abs(), ok) == DropQers(plane.bpf.env, s, session.Abs());
      if ok {
        reports := DropSessionUrrs(plane, session);
      }
    }
  }

  method DropPdrs(plane: Plane, session: Session) returns (ok: bool)
    requires plane.Valid() && session !in plane.Repr()
    modifies plane.bpf, plane.fteidm
    ensures var run := DeletePdrs(plane.bpf.env, Start(Tick(old(plane.Abs())), session.Abs()),
                                  plane.bpf.env.order(old(plane.bpf.clock), session.PDRs.Keys));
      ok == run.ok && plane.Abs() == run.state.shared
  {
    var env := plane.bpf.env;
    var order := plane.bpf.Visit(session.PDRs.Keys);
    var ctx := new Context(plane, session);
    ghost var start := ctx.Abs();
    assert start == Start(Tick(old(plane.Abs())), session.Abs());
    for i := 0 to |order|
      invariant ctx.Abs().sess == start.sess
      invariant DeletePdrs(env, start, order) == DeletePdrs(env, ctx.Abs(), order[i..])
    {
      assert order[i..][0] == order[i] && order[i..][1..] == order[i + 1..] && order[i] in order;
      ok := ctx.DeletePdrKeys(session.PDRs[order[i]]);
      if !ok {
        return;
      }
    }
    ok := true;
  }

  method DropSessionFars(plane: Plane, session: Session) returns (ok: bool)
    requires plane.Valid() && session !in plane.Repr()
    modifies plane.bpf`clock, plane.bpf.far.tracker, plane.bpf.far.slots
    ensures Outcome(plane.Abs(), ok) == DropFars(plane.bpf.env, old(plane.Abs()), session.Abs())
  {
    var order := plane.bpf.Visit(session.FARs.Keys);
    ok := DropRules(plane.bpf.far, session.FARs, order);
  }

  method DropSessionQers(plane: Plane, session: Session) returns (ok: bool)
    requires plane.Valid() && session !in plane.Repr()
    modifies plane.bpf`clock, plane.bpf.qer.tracker, plane.bpf.qer.slots
    ensures Outcome(plane.Abs(), ok) == DropQers(plane.bpf.env, old(plane.Abs()), session.Abs())
  {
    var order := plane.bpf.Visit(session.QERs.Keys);
    ok := DropRules(plane.bpf.qer, session.QERs, order);
  }

  method DropSessionUrrs(plane: Plane, session: Session) returns (reports: seq<(nat, UrrInfo)>)
    requires plane.Valid() && session !in plane.Repr()
    modifies plane.bpf`clock, plane.bpf.urr.tracker, plane.bpf.urr.slots
    ensures (plane.Abs(), reports) == DropUrrs(plane.bpf.env, old(plane.Abs()), session.Abs())
  {
    var order := plane.bpf.Visit(session.URRs.Keys);
    reports := DropReporting(plane.bpf.urr, session.URRs, order);
  }

  /** PfcpConnection.DeleteSession: errors are ignored and URRs are not visited. */
  method DeleteSession(plane: Plane, session: Session)
    requires plane.Valid() && session !in plane.Repr()
    modifies plane.Repr()
    ensures plane.Abs() == PruneSession(plane.bpf.env, old(plane.Abs()), session.Abs())
  {
    var order := plane.bpf.Visit(session.FARs.Keys);
    DropRulesAnyway(plane.bpf.far, session.FARs, order);
    ghost var s1 := plane.Abs();
    assert s1 == PruneFars(plane.bpf.env, old(plane.Abs()), session.Abs());
    order := plane.bpf.Visit(session.QERs.Keys);
    DropRulesAnyway(plane.bpf.qer, session.QERs, order);
    assert plane.Abs() == PruneQers(plane.bpf.env, s1, session.Abs());
    DropPdrsAnyway(plane, session);
  }

  method DropPdrsAnyway(plane: Plane, session: Session)
    requires plane.Valid() && session !in plane.Repr()
    modifies plane.bpf, plane.fteidm
    ensures plane.Abs() == PrunePdrs(plane.bpf.env, Start(Tick(old(plane.Abs())), session.Abs()),
                                     plane.bpf.env.order(old(plane.bpf.clock), session.PDRs.Keys)).shared
  {
    var env := plane.bpf.env;
    var order := plane.bpf.Visit(session.PDRs.Keys);
    var ctx := new Context(plane, session);
    ghost var start := ctx.Abs();
    assert start == Start(Tick(old(plane.Abs())), session.Abs());
    for i := 0 to |order|
      invariant ctx.Abs().sess == start.sess
      invariant PrunePdrs(env, start, order) == PrunePdrs(env, ctx.Abs(), order[i..])
    {
      assert order[i..][0] == order[i] && order[i..][1..] == order[i + 1..] && order[i] in order;
      var _ := ctx.DeletePdrKeys(session.PDRs[order[i]]);
    }
  }

  class PfcpConnection {
    const plane: Plane
    var next: map<string, nat>
    var sessions: map<SessKey, Session>

    ghost predicate Valid()
      reads this
    {
      plane.Valid() && this !in plane.Repr() && Unshared(sessions, plane)
    }

    ghost function Abs(): State
      reads this, sessions.Values, plane.Repr()
    {
      State(plane.Abs(), next, Records(sessions))
    }

    constructor (plane: Plane)
      requires plane.Valid()
      ensures Valid() && this.plane == plane && Abs() == State(plane.Abs(), map[], map[])
    {
      this.plane := plane;
      next, sessions := map[], map[];
    }

    /** Association setup: an existing association is retained. */
    method HandleSetup(addr: string)
      requires Valid()
      modifies this`next
      ensures Valid() && Abs() == Associate(old(Abs()), addr)
    {
      if addr !in next {
        next := next[addr := 1];
      }
    }

    /** NewLocalSEID: a 64-bit counter. */
    method NewLocalSEID(addr: string) returns (seid: nat)
      requires Valid() && addr in next
      modifies this`next
      ensures Valid() && seid == NextSeid(old(next)[addr])
      ensures Abs() == old(Abs()).(next := old(next)[addr := seid])
    {
      seid := (next[addr] + 1) % 0x1_0000_0000_0000_0000;
      next := next[addr := seid];
    }

    /** Processes IEs on a session that is not stored yet. */
    method RunNew(session: Session, ies: seq<Ie>) returns (ok: bool, created: seq<SPdr>, ghost end: Ctx)
      requires Valid() && session !in sessions.Values && session !in plane.Repr() && session as object != this
      modifies session, plane.Repr()
      ensures Valid()
      ensures Outcome(end, ok) == ApplyAll(plane.bpf.env, Start(old(plane.Abs()), old(session.Abs())), ies)
      ensures Abs() == old(Abs()).(shared := end.shared) && session.Abs() == end.sess && created == end.created
    {
      var reports;
      ok, created, reports, end := RunIes(plane, session, ies);
      RecordsSame(sessions, old(Records(sessions)));
    }

    /** A modification's IEs on a stored session, after its new CP F-SEID, if any. */
    method RunModification(key: SessKey, r: ModifyReq)
      returns (ok: bool, created: seq<SPdr>, reports: seq<(nat, UrrInfo)>, ghost end: Ctx)
      requires Valid() && key in sessions
      modifies sessions[key], plane.Repr()
      ensures Valid()
      ensures Outcome(end, ok)
           == ApplyAll(plane.bpf.env, Start(old(plane.Abs()), Rehomed(old(sessions[key].Abs()), r)), ModifyIes(r))
      ensures created == end.created && reports == end.reports && sessions[key].Abs() == end.sess
      ensures Abs() == State(end.shared, next, old(Records(sessions))[key := end.sess])
    {
      var session := sessions[key];
      Rehome(session, r);
      ok, created, reports, end := RunIes(plane, session, ModifyIes(r));
      RecordsOfOne(sessions, key, old(Records(sessions)));
    }

    /** Stores a new session. */
    method Install(key: SessKey, session: Session)
      requires Valid() && session !in sessions.Values && session !in plane.Repr() && session as object != this
      modifies this`sessions
      ensures Valid() && Abs() == old(Abs()).(sessions := old(Abs()).sessions[key := session.Abs()])
    {
      sessions := sessions[key := session];
      assert Records(sessions) == old(Records(sessions))[key := session.Abs()];
    }

    method HandleEstablishment(addr: string, r: EstablishReq) returns (response: Response)
      requires Valid()
      modifies this, plane.Repr()
      ensures Valid() && Answer(Abs(), response) == Establish(plane.bpf.env, old(Abs()), addr, r)
    {
      if !r.nodeIdOk || r.cpSeid.None? {
        return Reject(MandatoryIeMissing, 0);
      }
      if addr !in next {
        return Reject(NoAssociation, 0);
      }
      var local := NewLocalSEID(addr);
      var session := new Session(local, r.cpSeid.value);
      var ok, created, end := RunNew(session, EstablishIes(r));
      if !ok {
        return Reject(RuleFailure, r.cpSeid.value);
      }
      var ies := ProcessCreatedPDRs(created);
      Install(SessKey(addr, local), session);
      return Response(Accepted, r.cpSeid.value, Some(local), ies, []);
    }

    method HandleModification(addr: string, seid: nat, r: ModifyReq) returns (response: Response)
      requires Valid()
      modifies sessions.Values, plane.Repr()
      ensures Valid() && Answer(Abs(), response) == Modify(plane.bpf.env, old(Abs()), addr, seid, r)
    {
      var key := SessKey(addr, seid);
      if addr !in next {
        return Reject(NoAssociation, seid);
      }
      if key !in sessions {
        return Reject(SessionNotFound, 0);
      }
      var ok, created, reports, end := RunModification(key, r);
      if !ok {
        return Reject(RuleFailure, sessions[key].remoteSEID);
      }
      var ies := ProcessCreatedPDRs(created);
      return Response(Accepted, sessions[key].remoteSEID, None, ies, reports);
    }

    /** The tables after a method that leaves every session alone. */
    lemma PlaneOnly(before: State)
      requires Valid() && next == before.next && before.sessions.Keys == sessions.Keys
      requires forall k :: k in sessions ==> sessions[k].Abs() == before.sessions[k]
      ensures Abs() == before.(shared := plane.Abs())
    {
      RecordsSame(sessions, before.sessions);
    }

    /** ReleaseResources: gives back what is booked under this SEID. */
    method FreeResources(seid: nat)
      requires Valid()
      modifies plane.bpf`clock, plane.fteidm, plane.ipam
      ensures Valid() && Abs() == old(Abs()).(shared := ReleaseResources(plane.bpf.env, old(plane.Abs()), seid))
    {
      plane.ipam.ReleaseIP(seid);
      plane.ReleaseSeid(seid);
      PlaneOnly(old(Abs()));
    }

    method HandleDeletion(addr: string, seid: nat) returns (response: Response)
      requires Valid()
      modifies this`sessions, plane.Repr()
      ensures Valid() && Answer(Abs(), response) == Delete(plane.bpf.env, old(Abs()), addr, seid)
    {
      var key := SessKey(addr, seid);
      if addr !in next {
        return Reject(NoAssociation, 0);
      }
      if key !in sessions {
        return Reject(SessionNotFound, 0);
      }
      var ok, reports := TearDown(key);
      if !ok {
        return Reject(RuleFailure, 0);
      }
      var remote := sessions[key].remoteSEID;
      Uninstall(key);
      FreeResources(seid);
      return Response(Accepted, remote, None, [], reports);
    }

    method TearDown(key: SessKey) returns (ok: bool, reports: seq<(nat, UrrInfo)>)
      requires Valid() && key in sessions
      modifies plane.Repr()
      ensures Valid()
      ensures Outcome((plane.Abs(), reports), ok) == Teardown(plane.bpf.env, old(plane.Abs()), old(sessions[key].Abs()))
      ensures Abs() == old(Abs()).(shared := plane.Abs())
      ensures sessions[key].remoteSEID == old(sessions[key].remoteSEID)
    {
      ok, reports := TearDownSession(plane, sessions[key]);
      PlaneOnly(old(Abs()));
    }

    method Uninstall(key: SessKey)
      requires Valid() && key in sessions
      modifies this`sessions
      ensures Valid() && Abs() == old(Abs()).(sessions := old(Abs()).sessions - {key})
      ensures next == old(next)
    {
      sessions := sessions - {key};
      assert Records(sessions) == old(Records(sessions)) - {key};
    }

    /** DeleteAssociation: every session of the association, then the association itself. */
    method HandlePrune(addr: string)
      requires Valid() && addr in next
      modifies this, plane.Repr()
      ensures Valid() && Abs() == Prune(plane.bpf.env, old(Abs()), addr)
    {
      var order := VisitSessions(addr);
      PruneInOrder(addr, order);
      Forget(addr);
    }

    method Forget(addr: string)
      requires Valid()
      modifies this
      ensures Valid()
      ensures Abs() == State(plane.Abs(), old(next) - {addr},
                             map k | k in old(Records(sessions)) && k.addr != addr :: old(Records(sessions))[k])
    {
      next := next - {addr};
      sessions := map k | k in sessions && k.addr != addr :: sessions[k];
      RecordsSame(sessions, map k | k in old(Records(sessions)) && k.addr != addr :: old(Records(sessions))[k]);
    }

    /** One session of the loop; no session object changes. */
    method PruneOne(key: SessKey, ghost before: State)
      requires Valid() && key in sessions && Abs() == before.(shared := plane.Abs())
      modifies plane.Repr()
      ensures Valid() && Abs() == before.(shared := plane.Abs())
      ensures plane.Abs() == PruneSession(plane.bpf.env, old(plane.Abs()), before.sessions[key])
    {
      DeleteSession(plane, sessions[key]);
      PlaneOnly(before);
    }

    /** The association's sessions in the order the runtime visits them. */
    method VisitSessions(addr: string) returns (order: seq<nat>)
      requires Valid()
      modifies plane.bpf`clock
      ensures Valid() && Abs() == old(Abs()).(shared := Tick(old(plane.Abs())))
      ensures order == plane.bpf.env.order(old(plane.bpf.clock), SeidsOf(old(Abs()), addr))
      ensures forall seid :: seid in order ==> SessKey(addr, seid) in sessions
    {
      var seids := set k | k in sessions && k.addr == addr :: k.seid;
      assert seids == SeidsOf(Abs(), addr);
      order := plane.bpf.Visit(seids);
      PlaneOnly(old(Abs()));
    }

    method PruneInOrder(addr: string, order: seq<nat>)
      requires Valid() && forall seid :: seid in order ==> SessKey(addr, seid) in sessions
      modifies plane.Repr()
      ensures Valid()
      ensures Abs()
           == old(Abs()).(shared := PruneSessions(plane.bpf.env, old(plane.Abs()), old(Abs()).sessions, addr, order))
    {
      var env := plane.bpf.env;
      ghost var before := Abs();
      for i := 0 to |order|
        invariant Abs() == before.(shared := plane.Abs())
        invariant PruneSessions(env, before.shared, before.sessions, addr, order)
               == PruneSessions(env, plane.Abs(), before.sessions, addr, order[i..])
      {
        assert order[i..][0] == order[i] && order[i..][1..] == order[i + 1..] && order[i] in order;
        PruneOne(SessKey(addr, order[i]), before);
      }
    }
  }
}
