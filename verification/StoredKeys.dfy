/**
 * Which PDR keys stay in the tables: after one IE, and over runs, when every stored key is still the key
 * of a PDR some session has.
 */
module StoredKeys {
  import opened Base
  import opened RuleTables
  import opened Resources
  import opened PdrRecords
  import opened Rules
  import opened SessionSpec
  import opened SessionLemmas
  import W = World
  import opened Runs
  import opened Isolation
  import opened Restore

  // ---------------------------------------------------------------- one IE

  function Without(sess: SessionRec, id: nat): SessionRec {
    sess.(pdrs := sess.pdrs - {id})
  }

  /** Every stored key is one of the session's, or one of the others'. */
  ghost predicate Covered(s: Shared, sess: SessionRec, others: set<PdrKey>) {
    forall k :: k in s.pdrs ==> k in Carried(sess) || k in others
  }

  /** The key of PDR id is stored, and no other PDR has it. */
  ghost predicate Alone(c: Ctx, id: nat, others: set<PdrKey>)
    requires id in c.sess.pdrs
  {
    var k := KeyOf(c.sess.pdrs[id]);
    k in c.shared.pdrs && k !in others && k !in Carried(Without(c.sess, id))
  }

  /** The IE gives a PDR the session already has another key. */
  ghost predicate Moves(env: Env, c: Ctx, pdr: PdrIE, base: SPdr, id: nat)
    requires id in c.sess.pdrs
  {
    var got := ExtractPdr(env, c, pdr, base);
    got.Ok? && KeyOf(got.value.1) != KeyOf(c.sess.pdrs[id])
  }

  /** A Remove PDR passes over an uplink key whose low byte is cached, and the kernel may refuse. */
  ghost predicate KeepsKey(env: Env, c: Ctx, p: SPdr) {
    (KeyOf(p).Uplink? && p.teid % 256 in c.cache) || !env.accepts(c.shared.clock)
  }

  /** The IE takes the last PDR from a stored key without deleting the key. */
  ghost predicate Orphans(env: Env, c: Ctx, ie: Ie, others: set<PdrKey>) {
    match ie
    case CreatePdr(pdr) =>
      && pdr.id.Some? && pdr.id.value in c.sess.pdrs && Alone(c, pdr.id.value, others)
      && Moves(env, c, pdr, ZERO_PDR.(pdrId := pdr.id.value), pdr.id.value)
    case UpdatePdr(pdr) =>
      && pdr.id.Some? && pdr.id.value in c.sess.pdrs && Alone(c, pdr.id.value, others)
      && Moves(env, c, pdr, c.sess.pdrs[pdr.id.value], pdr.id.value)
    case RemovePdr(id) =>
      && id.GetOr(0) in c.sess.pdrs && Alone(c, id.GetOr(0), others) && KeepsKey(env, c, c.sess.pdrs[id.GetOr(0)])
    case _ => false
  }

  lemma CarriedWith(sess: SessionRec, id: nat, p: SPdr)
    ensures Carried(sess.(pdrs := sess.pdrs[id := p])) == Carried(Without(sess, id)) + {KeyOf(p)}
    ensures id in sess.pdrs ==> Carried(sess) == Carried(Without(sess, id)) + {KeyOf(sess.pdrs[id])}
    ensures id !in sess.pdrs ==> Carried(sess) == Carried(Without(sess, id))
  {
    var less, more := Without(sess, id), sess.(pdrs := sess.pdrs[id := p]);
    forall i | i in less.pdrs ensures KeyOf(less.pdrs[i]) in Carried(more) && KeyOf(less.pdrs[i]) in Carried(sess) {
      assert more.pdrs[i] == sess.pdrs[i] == less.pdrs[i];
    }
    assert more.pdrs[id] == p;
    if id in sess.pdrs { assert KeyOf(sess.pdrs[id]) in Carried(sess); }
    forall k | k in Carried(sess) ensures k in Carried(less) || (id in sess.pdrs && k == KeyOf(sess.pdrs[id])) {
      var i :| i in sess.pdrs && KeyOf(sess.pdrs[i]) == k;
      if i != id { assert less.pdrs[i] == sess.pdrs[i]; }
    }
    forall k | k in Carried(more) ensures k in Carried(less) || k == KeyOf(p) {
      var i :| i in more.pdrs && KeyOf(more.pdrs[i]) == k;
      if i != id { assert less.pdrs[i] == more.pdrs[i]; }
    }
  }

  lemma InstallCoversIff(env: Env, c: Ctx, pdr: PdrIE, base: SPdr, id: nat, others: set<PdrKey>)
    requires Covered(c.shared, c.sess, others) && ExtractPdr(env, c, pdr, base).Ok?
    ensures var (e, p) := ExtractPdr(env, c, pdr, base).value; var d := StorePdr(env, e, id, p).state;
      Covered(d.shared, d.sess, others)
      <==> !(id in c.sess.pdrs && Alone(c, id, others) && Moves(env, c, pdr, base, id))
  {
    ExtractSameRules(env, c, pdr, base);
    var (e, p) := ExtractPdr(env, c, pdr, base).value;
    CarriedWith(c.sess, id, p);
    var d := StorePdr(env, e, id, p).state;
    assert d.sess == c.sess.(pdrs := c.sess.pdrs[id := p]);
    if id in c.sess.pdrs { assert KeyOf(c.sess.pdrs[id]) in c.shared.pdrs ==> KeyOf(c.sess.pdrs[id]) in d.shared.pdrs; }
  }

  lemma RemoveCoversIff(env: Env, c: Ctx, id: nat, others: set<PdrKey>)
    requires Covered(c.shared, c.sess, others) && id in c.sess.pdrs
    ensures var d := DeletePdr(env, c.(sess := Without(c.sess, id)), c.sess.pdrs[id]).state;
      Covered(d.shared, d.sess, others) <==> !(Alone(c, id, others) && KeepsKey(env, c, c.sess.pdrs[id]))
  {
    CarriedWith(c.sess, id, c.sess.pdrs[id]);
  }

  lemma RuleIesKeepKeys(env: Env, c: Ctx, ie: Ie)
    requires !ie.CreatePdr? && !ie.UpdatePdr? && !ie.RemovePdr?
    ensures var d := Apply(env, c, ie).state; d.shared.pdrs == c.shared.pdrs && Carried(d.sess) == Carried(c.sess)
  {
  }

  ghost predicate CoversIff(env: Env, c: Ctx, ie: Ie, others: set<PdrKey>) {
    var d := Apply(env, c, ie).state;
    Covered(d.shared, d.sess, others) <==> !Orphans(env, c, ie, others)
  }

  lemma CreatePdrCoversIff(env: Env, c: Ctx, pdr: PdrIE, others: set<PdrKey>)
    requires Covered(c.shared, c.sess, others)
    ensures CoversIff(env, c, CreatePdr(pdr), others)
  {
    if pdr.id.Some? && ExtractPdr(env, c, pdr, ZERO_PDR.(pdrId := pdr.id.value)).Ok? {
      InstallCoversIff(env, c, pdr, ZERO_PDR.(pdrId := pdr.id.value), pdr.id.value, others);
    }
  }

  lemma UpdatePdrCoversIff(env: Env, c: Ctx, pdr: PdrIE, others: set<PdrKey>)
    requires Covered(c.shared, c.sess, others)
    ensures CoversIff(env, c, UpdatePdr(pdr), others)
  {
    if pdr.id.Some? && ExtractPdr(env, c, pdr, Lookup(c.sess.pdrs, pdr.id.value, ZERO_PDR)).Ok? {
      InstallCoversIff(env, c, pdr, Lookup(c.sess.pdrs, pdr.id.value, ZERO_PDR), pdr.id.value, others);
    }
  }

  /**
   * Where every stored key had a PDR, one does not after an IE exactly when the IE orphans its key: it
   * gives the last PDR on it another key, or removes that PDR while the cache holds its low byte or the
   * kernel refuses.
   */
  lemma IeCoversIff(env: Env, c: Ctx, ie: Ie, others: set<PdrKey>)
    requires Covered(c.shared, c.sess, others)
    ensures var d := Apply(env, c, ie).state; Covered(d.shared, d.sess, others) <==> !Orphans(env, c, ie, others)
  {
    match ie {
      case CreatePdr(pdr) => CreatePdrCoversIff(env, c, pdr, others);
      case UpdatePdr(pdr) => UpdatePdrCoversIff(env, c, pdr, others);
      case RemovePdr(id) => if id.GetOr(0) in c.sess.pdrs { RemoveCoversIff(env, c, id.GetOr(0), others); }
      case _ => RuleIesKeepKeys(env, c, ie);
    }
  }

  // ---------------------------------------------------------------- the IEs of a request

  /** No IE of the list orphans a key when its turn comes. */
  ghost predicate Tidy(env: Env, c: Ctx, ies: seq<Ie>, others: set<PdrKey>)
    decreases ies
  {
    ies == [] || (
      && !Orphans(env, c, ies[0], others)
      && (Apply(env, c, ies[0]).ok ==> Tidy(env, Apply(env, c, ies[0]).state, ies[1..], others)))
  }

  lemma {:induction false} TidyCovers(env: Env, c: Ctx, ies: seq<Ie>, others: set<PdrKey>)
    requires Covered(c.shared, c.sess, others) && Tidy(env, c, ies, others)
    ensures var d := ApplyAll(env, c, ies).state; Covered(d.shared, d.sess, others)
    decreases ies
  {
    if ies == [] {
    } else {
      IeCoversIff(env, c, ies[0], others);
      var first := Apply(env, c, ies[0]);
      if first.ok { TidyCovers(env, first.state, ies[1..], others); }
    }
  }

  // ---------------------------------------------------------------- sessions

  /** The keys of all PDRs of all sessions. */
  ghost function AllCarried(sessions: map<W.SessKey, SessionRec>): set<PdrKey> {
    set key, id | key in sessions && id in sessions[key].pdrs :: KeyOf(sessions[key].pdrs[id])
  }

  /** Every stored PDR key is the key of a PDR some session has. */
  ghost predicate NoOrphans(s: Shared, sessions: map<W.SessKey, SessionRec>) {
    forall k :: k in s.pdrs ==> k in AllCarried(sessions)
  }

  lemma AllCarriedHas(sessions: map<W.SessKey, SessionRec>, key: W.SessKey)
    requires key in sessions
    ensures AllCarried(sessions) == Carried(sessions[key]) + AllCarried(sessions - {key})
  {
    var rest := sessions - {key};
    forall k | k in Carried(sessions[key]) ensures k in AllCarried(sessions) {
      var id :| id in sessions[key].pdrs && KeyOf(sessions[key].pdrs[id]) == k;
    }
    forall k | k in AllCarried(rest) ensures k in AllCarried(sessions) {
      var l, id :| l in rest && id in rest[l].pdrs && KeyOf(rest[l].pdrs[id]) == k;
      assert sessions[l] == rest[l];
    }
    forall k | k in AllCarried(sessions) ensures k in Carried(sessions[key]) || k in AllCarried(rest) {
      var l, id :| l in sessions && id in sessions[l].pdrs && KeyOf(sessions[l].pdrs[id]) == k;
      if l != key { assert rest[l] == sessions[l]; }
    }
  }

  /** Seen from one session, the others are those left without it. */
  lemma CoveredIff(s: Shared, sessions: map<W.SessKey, SessionRec>, key: W.SessKey, sess: SessionRec)
    ensures NoOrphans(s, sessions[key := sess]) <==> Covered(s, sess, AllCarried(sessions - {key}))
  {
    AllCarriedHas(sessions[key := sess], key);
    assert sessions[key := sess] - {key} == sessions - {key};
  }

  // ---------------------------------------------------------------- deleting and pruning

  /** A cached low byte still means its keys are gone after one more deletion the kernel accepts. */
  lemma DeleteOneCached(env: Env, c: Ctx, id: nat)
    requires id in c.sess.pdrs && !Congruent(c.sess) && CachedAreGone(c) && env.accepts(c.shared.clock)
    ensures var d := DeletePdr(env, c, c.sess.pdrs[id]).state;
      && d.sess == c.sess && d.shared.clock >= c.shared.clock && CachedAreGone(d)
      && KeyOf(c.sess.pdrs[id]) !in d.shared.pdrs && d.shared.pdrs.Keys <= c.shared.pdrs.Keys
  {
    var d := DeletePdr(env, c, c.sess.pdrs[id]).state;
    forall i | i in c.sess.pdrs && KeyOf(c.sess.pdrs[i]).Uplink? && c.sess.pdrs[i].teid % 256 in d.cache
      ensures KeyOf(c.sess.pdrs[i]) !in d.shared.pdrs
    {
      if c.sess.pdrs[i].teid % 256 !in c.cache { assert c.sess.pdrs[i].teid == c.sess.pdrs[id].teid; }
    }
  }

  lemma {:induction false} PrunePdrsRemoves(env: Env, c: Ctx, order: seq<nat>, k: nat)
    requires (forall id :: id in order ==> id in c.sess.pdrs) && !Congruent(c.sess) && CachedAreGone(c)
    requires AcceptsFrom(env, c.shared.clock) && k in c.sess.pdrs
    requires (k in order || KeyOf(c.sess.pdrs[k]) !in c.shared.pdrs)
    ensures KeyOf(c.sess.pdrs[k]) !in W.PrunePdrs(env, c, order).shared.pdrs
    decreases order
  {
    if order == [] {
    } else {
      var first := DeletePdr(env, c, c.sess.pdrs[order[0]]).state;
      DeleteOneCached(env, c, order[0]);
      assert k in order[1..] || KeyOf(c.sess.pdrs[k]) !in first.shared.pdrs;
      PrunePdrsRemoves(env, first, order[1..], k);
    }
  }

  lemma {:induction false} PrunePdrsOnlyRemove(env: Env, c: Ctx, order: seq<nat>)
    requires forall id :: id in order ==> id in c.sess.pdrs
    ensures W.PrunePdrs(env, c, order).shared.pdrs.Keys <= c.shared.pdrs.Keys
    ensures W.PrunePdrs(env, c, order).shared.clock >= c.shared.clock
    decreases order
  {
    if order == [] {
    } else {
      PrunePdrsOnlyRemove(env, DeletePdr(env, c, c.sess.pdrs[order[0]]).state, order[1..]);
    }
  }

  /** Pruning one session removes its keys and stores none. */
  lemma PruneSessionRemoves(env: Env, s: Shared, sess: SessionRec)
    ensures var t := W.PruneSession(env, s, sess);
      && t.pdrs.Keys <= s.pdrs.Keys && t.clock >= s.clock
      && (!Congruent(sess) && AcceptsFrom(env, s.clock) ==> forall k :: k in Carried(sess) ==> k !in t.pdrs)
  {
    var rules := W.PruneQers(env, W.PruneFars(env, s, sess), sess);
    var c, order := W.Start(W.Tick(rules), sess), env.order(rules.clock, sess.pdrs.Keys);
    PrunePdrsOnlyRemove(env, c, order);
    if !Congruent(sess) && AcceptsFrom(env, s.clock) {
      forall k | k in Carried(sess) ensures k !in W.PruneSession(env, s, sess).pdrs {
        var id :| id in sess.pdrs && KeyOf(sess.pdrs[id]) == k;
        PrunePdrsRemoves(env, c, order, id);
      }
    }
  }

  lemma {:induction false} PruneSessionsRemove(env: Env, s: Shared, sessions: map<W.SessKey, SessionRec>, addr: string,
                                               order: seq<nat>)
    requires forall seid :: seid in order ==>
               W.SessKey(addr, seid) in sessions && !Congruent(sessions[W.SessKey(addr, seid)])
    requires AcceptsFrom(env, s.clock)
    ensures var t := W.PruneSessions(env, s, sessions, addr, order);
      && t.pdrs.Keys <= s.pdrs.Keys
      && forall seid, k :: seid in order && k in Carried(sessions[W.SessKey(addr, seid)]) ==> k !in t.pdrs
    decreases order
  {
    if order == [] {
    } else {
      var sess := sessions[W.SessKey(addr, order[0])];
      PruneSessionRemoves(env, s, sess);
      PruneSessionsRemove(env, W.PruneSession(env, s, sess), sessions, addr, order[1..]);
    }
  }

  // ---------------------------------------------------------------- events and runs

  /** The establishment as the handler runs it. */
  ghost function Established(env: Env, w: State, addr: string, est: W.EstablishReq): Outcome<Ctx>
    requires est.cpSeid.Some? && addr in w.next
  {
    ApplyAll(env, W.Start(w.shared, W.NewSession(W.NextSeid(w.next[addr]), est.cpSeid.value)), W.EstablishIes(est))
  }

  /**
   * The event orphans no key: an establishment is for a SEID not in use, and if it is rejected no PDR
   * was reached; no IE of a request orphans a key; sessions that go have no congruent TEIDs; and the
   * kernel accepts what pruning deletes.
   */
  ghost predicate TidyEvent(env: Env, w: State, e: Event) {
    match e
    case EstablishMsg(addr, est) =>
      est.nodeIdOk && est.cpSeid.Some? && addr in w.next ==>
        var local := W.NextSeid(w.next[addr]);
        && W.SessKey(addr, local) !in w.sessions
        && Tidy(env, W.Start(w.shared, W.NewSession(local, est.cpSeid.value)), W.EstablishIes(est),
                AllCarried(w.sessions))
        && (!Established(env, w, addr, est).ok ==> Established(env, w, addr, est).state.sess.pdrs == map[])
    case ModifyMsg(addr, seid, mod) =>
      var key := W.SessKey(addr, seid);
      key in w.sessions ==>
        Tidy(env, W.Start(w.shared, W.Rehomed(w.sessions[key], mod)), W.ModifyIes(mod), AllCarried(w.sessions - {key}))
    case DeleteMsg(addr, seid) => W.SessKey(addr, seid) in w.sessions ==> !Congruent(w.sessions[W.SessKey(addr, seid)])
    case PruneEvent(addr) =>
      && AcceptsFrom(env, w.shared.clock)
      && forall key :: key in w.sessions && key.addr == addr ==> !Congruent(w.sessions[key])
    case SetupMsg(_) => true
    case Traffic(_, _) => true
  }

  lemma EstablishLeavesNone(env: Env, w: State, addr: string, est: W.EstablishReq)
    requires NoOrphans(w.shared, w.sessions) && TidyEvent(env, w, EstablishMsg(addr, est))
    ensures var v := W.Establish(env, w, addr, est).state; NoOrphans(v.shared, v.sessions)
  {
    if est.nodeIdOk && est.cpSeid.Some? && addr in w.next {
      var local := W.NextSeid(w.next[addr]);
      var key := W.SessKey(addr, local);
      var d := Established(env, w, addr, est).state;
      assert w.sessions - {key} == w.sessions;
      TidyCovers(env, W.Start(w.shared, W.NewSession(local, est.cpSeid.value)), W.EstablishIes(est),
                 AllCarried(w.sessions));
      if Established(env, w, addr, est).ok {
        CoveredIff(d.shared, w.sessions, key, d.sess);
      } else {
        assert Carried(d.sess) == {};
      }
    }
  }

  lemma ModifyLeavesNone(env: Env, w: State, addr: string, seid: nat, mod: W.ModifyReq)
    requires NoOrphans(w.shared, w.sessions) && TidyEvent(env, w, ModifyMsg(addr, seid, mod))
    ensures var v := W.Modify(env, w, addr, seid, mod).state; NoOrphans(v.shared, v.sessions)
  {
    var key := W.SessKey(addr, seid);
    if addr in w.next && key in w.sessions {
      var c := W.Start(w.shared, W.Rehomed(w.sessions[key], mod));
      var d := ApplyAll(env, c, W.ModifyIes(mod)).state;
      assert Carried(c.sess) == Carried(w.sessions[key]);
      AllCarriedHas(w.sessions, key);
      TidyCovers(env, c, W.ModifyIes(mod), AllCarried(w.sessions - {key}));
      CoveredIff(d.shared, w.sessions, key, d.sess);
    }
  }

  lemma TeardownRemoves(env: Env, s: Shared, sess: SessionRec)
    requires !Congruent(sess)
    ensures var down := W.Teardown(env, s, sess);
      && (forall k :: k in down.state.0.pdrs && k !in Carried(sess) ==> k in s.pdrs)
      && (down.ok ==> forall k :: k in Carried(sess) ==> k !in down.state.0.pdrs)
  {
    if W.Teardown(env, s, sess).ok {
      TeardownPdrPart(env, s, sess);
      DeletePdrsRemovesAll(env, W.Start(W.Tick(s), sess), env.order(s.clock, sess.pdrs.Keys));
    }
    forall k | k in W.Teardown(env, s, sess).state.0.pdrs && k !in Carried(sess) ensures k in s.pdrs {
      TeardownTouchesCarried(env, s, sess, k);
    }
  }

  lemma DeleteLeavesNone(env: Env, w: State, addr: string, seid: nat)
    requires NoOrphans(w.shared, w.sessions) && TidyEvent(env, w, DeleteMsg(addr, seid))
    ensures var v := W.Delete(env, w, addr, seid).state; NoOrphans(v.shared, v.sessions)
  {
    var key := W.SessKey(addr, seid);
    if addr in w.next && key in w.sessions {
      AllCarriedHas(w.sessions, key);
      TeardownRemoves(env, w.shared, w.sessions[key]);
      ReleaseKeepsKeys(env, W.Teardown(env, w.shared, w.sessions[key]).state.0, seid);
    }
  }

  lemma ReleaseKeepsKeys(env: Env, s: Shared, seid: nat)
    ensures W.ReleaseResources(env, s, seid).pdrs == s.pdrs
  {
  }

  lemma PruneLeavesNone(env: Env, w: State, addr: string)
    requires NoOrphans(w.shared, w.sessions) && TidyEvent(env, w, PruneEvent(addr))
    ensures var v := W.Prune(env, w, addr); NoOrphans(v.shared, v.sessions)
  {
    var v, order := W.Prune(env, w, addr), env.order(w.shared.clock, W.SeidsOf(w, addr));
    forall seid | seid in order ensures W.SessKey(addr, seid) in w.sessions { assert seid in W.SeidsOf(w, addr); }
    PruneSessionsRemove(env, W.Tick(w.shared), w.sessions, addr, order);
    forall key | key in w.sessions && key.addr == addr ensures Carried(w.sessions[key]) !! v.shared.pdrs.Keys {
      assert key.seid in W.SeidsOf(w, addr) && key == W.SessKey(addr, key.seid);
    }
    forall k | k in v.shared.pdrs ensures k in AllCarried(v.sessions) {
      var key, id :| key in w.sessions && id in w.sessions[key].pdrs && KeyOf(w.sessions[key].pdrs[id]) == k;
      assert k in Carried(w.sessions[key]);
      assert v.sessions[key] == w.sessions[key];
    }
  }

  lemma StepLeavesNone(env: Env, w: State, e: Event)
    requires NoOrphans(w.shared, w.sessions) && TidyEvent(env, w, e)
    ensures var v := Step(env, w, e); NoOrphans(v.shared, v.sessions)
  {
    match e {
      case SetupMsg(addr) =>
      case EstablishMsg(addr, est) => EstablishLeavesNone(env, w, addr, est);
      case ModifyMsg(addr, seid, mod) => ModifyLeavesNone(env, w, addr, seid, mod);
      case DeleteMsg(addr, seid) => DeleteLeavesNone(env, w, addr, seid);
      case PruneEvent(addr) => PruneLeavesNone(env, w, addr);
      case Traffic(qers, urrs) =>
    }
  }

  ghost predicate TidyRun(env: Env, w: State, run: seq<Event>)
    decreases run
  {
    run == [] || (TidyEvent(env, w, run[0]) && TidyRun(env, Step(env, w, run[0]), run[1..]))
  }

  /** Over runs of such events, every stored key is always the key of a PDR some session has. */
  lemma {:induction false} RunLeavesNoOrphans(env: Env, w: State, run: seq<Event>)
    requires NoOrphans(w.shared, w.sessions) && TidyRun(env, w, run)
    ensures var v := Run(env, w, run); NoOrphans(v.shared, v.sessions)
    decreases run
  {
    if run == [] {
    } else {
      StepLeavesNone(env, w, run[0]);
      RunLeavesNoOrphans(env, Step(env, w, run[0]), run[1..]);
    }
  }
}
