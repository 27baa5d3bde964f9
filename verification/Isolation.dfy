/**
 * Session isolation: what a message for one session leaves alone, step by step and over runs.
 */
module Isolation {
  import opened Base
  import opened RuleTables
  import opened Resources
  import opened PdrRecords
  import opened Rules
  import opened SessionSpec
  import opened SessionLemmas
  import W = World
  import opened Ownership
  import opened Runs

  /** The event is about the session stored under key. */
  ghost predicate Targets(w: State, e: Event, key: W.SessKey) {
    match e
    case EstablishMsg(addr, _) => addr in w.next && key == W.SessKey(addr, W.NextSeid(w.next[addr]))
    case ModifyMsg(addr, seid, _) => key == W.SessKey(addr, seid)
    case DeleteMsg(addr, seid) => key == W.SessKey(addr, seid)
    case PruneEvent(addr) => key.addr == addr
    case SetupMsg(_) => false
    case Traffic(_, _) => false
  }

  /** The PDR keys the targeted sessions carry while the event is handled. */
  ghost function KeysOf(env: Env, w: State, e: Event): set<PdrKey> {
    match e
    case EstablishMsg(addr, est) =>
      if est.cpSeid.None? || addr !in w.next then {}
      else Footprint(env, W.Start(w.shared, W.NewSession(W.NextSeid(w.next[addr]), est.cpSeid.value)),
                     W.EstablishIes(est))
    case ModifyMsg(addr, seid, mod) =>
      if W.SessKey(addr, seid) !in w.sessions then {}
      else Footprint(env, W.Start(w.shared, W.Rehomed(w.sessions[W.SessKey(addr, seid)], mod)), W.ModifyIes(mod))
    case DeleteMsg(addr, seid) =>
      if W.SessKey(addr, seid) !in w.sessions then {} else Carried(w.sessions[W.SessKey(addr, seid)])
    case PruneEvent(addr) =>
      set k, id | k in w.sessions && k.addr == addr && id in w.sessions[k].pdrs :: KeyOf(w.sessions[k].pdrs[id])
    case SetupMsg(_) => {}
    case Traffic(_, _) => {}
  }

  /** The slots a session's rules own are the same before and after. */
  ghost predicate SameSlots<T>(rules: map<nat, Rule<T>>, p: Pool<T>, q: Pool<T>) {
    forall i :: i in rules && rules[i].globalId < |p.slots| ==>
      rules[i].globalId < |q.slots| && q.slots[rules[i].globalId] == p.slots[rules[i].globalId]
  }

  /** The QER slots a session owns differ in their limiter windows at most. */
  ghost predicate SameSettings(rules: map<nat, Rule<QerInfo>>, p: Pool<QerInfo>, q: Pool<QerInfo>) {
    forall i :: i in rules && rules[i].globalId < |p.slots| ==>
      rules[i].globalId < |q.slots| && Settings(q.slots[rules[i].globalId]) == Settings(p.slots[rules[i].globalId])
  }

  /** The session's record and every slot it owns survive unchanged. */
  ghost predicate Undisturbed(w: State, v: State, key: W.SessKey)
    requires key in w.sessions
  {
    && key in v.sessions && v.sessions[key] == w.sessions[key]
    && SameSlots(w.sessions[key].fars, w.shared.far, v.shared.far)
    && SameSlots(w.sessions[key].qers, w.shared.qer, v.shared.qer)
    && SameSlots(w.sessions[key].urrs, w.shared.urr, v.shared.urr)
  }

  lemma ForeignSlotsSame<T>(m: RuleMaps<T>, p: Pool<T>, q: Pool<T>, target: W.SessKey, key: W.SessKey)
    requires key in m && key != target && LeavesForeign(p, q, ForeignIds(m, target))
    ensures SameSlots(m[key], p, q)
  {
    forall i | i in m[key] ensures m[key][i].globalId in ForeignIds(m, target) {
    }
  }

  lemma KeptUndisturbed(c: Ctx, d: Ctx, sessions: map<W.SessKey, SessionRec>, target: W.SessKey, key: W.SessKey)
    requires key in sessions && key != target && Kept(c, d, Others(sessions, target))
    ensures SameSlots(sessions[key].fars, c.shared.far, d.shared.far)
    ensures SameSlots(sessions[key].qers, c.shared.qer, d.shared.qer)
    ensures SameSlots(sessions[key].urrs, c.shared.urr, d.shared.urr)
  {
    ForeignSlotsSame(Fars(sessions), c.shared.far, d.shared.far, target, key);
    ForeignSlotsSame(Qers(sessions), c.shared.qer, d.shared.qer, target, key);
    ForeignSlotsSame(Urrs(sessions), c.shared.urr, d.shared.urr, target, key);
  }

  /** The IEs of a session that is new touch no slot of the sessions there are. */
  lemma CreatesIsolate(env: Env, s: Shared, sessions: map<W.SessKey, SessionRec>, sess: SessionRec,
                       est: W.EstablishReq, key: W.SessKey)
    requires Inv(s, sessions) && key in sessions
    requires sess.fars == map[] && sess.qers == map[] && sess.urrs == map[]
    ensures var t := ApplyAll(env, W.Start(s, sess), W.EstablishIes(est)).state.shared;
      && SameSlots(sessions[key].fars, s.far, t.far)
      && SameSlots(sessions[key].qers, s.qer, t.qer)
      && SameSlots(sessions[key].urrs, s.urr, t.urr)
  {
    var c := W.Start(s, sess);
    CreatesWellFormed(env, c, W.EstablishIes(est));
    var spare := UnusedKey(sessions);
    FocusNew(s, sessions, sess, spare);
    ApplyAllKept(env, c, W.EstablishIes(est), Others(sessions, spare));
    KeptUndisturbed(c, ApplyAll(env, c, W.EstablishIes(est)).state, sessions, spare, key);
  }

  lemma EstablishIsolates(env: Env, w: State, addr: string, est: W.EstablishReq, key: W.SessKey)
    requires Inv(w.shared, w.sessions) && key in w.sessions && !Targets(w, EstablishMsg(addr, est), key)
    ensures Undisturbed(w, W.Establish(env, w, addr, est).state, key)
  {
    if est.nodeIdOk && est.cpSeid.Some? && addr in w.next {
      CreatesIsolate(env, w.shared, w.sessions, W.NewSession(W.NextSeid(w.next[addr]), est.cpSeid.value), est, key);
    }
  }

  lemma ModifyIsolates(env: Env, w: State, addr: string, seid: nat, mod: W.ModifyReq, key: W.SessKey)
    requires Inv(w.shared, w.sessions) && key in w.sessions && key != W.SessKey(addr, seid)
    requires WellFormed(env, w, ModifyMsg(addr, seid, mod))
    ensures Undisturbed(w, W.Modify(env, w, addr, seid, mod).state, key)
  {
    var target := W.SessKey(addr, seid);
    if addr in w.next && target in w.sessions {
      var c := W.Start(w.shared, W.Rehomed(w.sessions[target], mod));
      FocusSession(w.shared, w.sessions, target, c.sess);
      ApplyAllKept(env, c, W.ModifyIes(mod), Others(w.sessions, target));
      KeptUndisturbed(c, ApplyAll(env, c, W.ModifyIes(mod)).state, w.sessions, target, key);
    }
  }

  /** Dropping one session's slots leaves another's alone. */
  lemma DropUndisturbed(s: Shared, t: Shared, sessions: map<W.SessKey, SessionRec>, target: W.SessKey, key: W.SessKey)
    requires Inv(s, sessions) && target in sessions && key in sessions && key != target
    requires Dropped(s.far, t.far, Held(sessions[target].fars), ZERO_FAR)
    requires Dropped(s.qer, t.qer, Held(sessions[target].qers), ZERO_QER)
    requires s.urr == t.urr || Dropped(s.urr, t.urr, Held(sessions[target].urrs), ZERO_URR)
    ensures SameSlots(sessions[key].fars, s.far, t.far)
    ensures SameSlots(sessions[key].qers, s.qer, t.qer)
    ensures SameSlots(sessions[key].urrs, s.urr, t.urr)
  {
    DroppedLeavesForeign(Fars(sessions), s.far, target, t.far, ZERO_FAR);
    ForeignSlotsSame(Fars(sessions), s.far, t.far, target, key);
    DroppedLeavesForeign(Qers(sessions), s.qer, target, t.qer, ZERO_QER);
    ForeignSlotsSame(Qers(sessions), s.qer, t.qer, target, key);
    if s.urr != t.urr {
      DroppedLeavesForeign(Urrs(sessions), s.urr, target, t.urr, ZERO_URR);
      ForeignSlotsSame(Urrs(sessions), s.urr, t.urr, target, key);
    }
  }

  lemma DeleteIsolates(env: Env, w: State, addr: string, seid: nat, key: W.SessKey)
    requires Inv(w.shared, w.sessions) && key in w.sessions && key != W.SessKey(addr, seid)
    ensures Undisturbed(w, W.Delete(env, w, addr, seid).state, key)
  {
    var target := W.SessKey(addr, seid);
    if addr in w.next && target in w.sessions {
      TeardownDrops(env, w.shared, w.sessions, target);
      var down := W.Teardown(env, w.shared, w.sessions[target]);
      if down.ok { DropUndisturbed(w.shared, down.state.0, w.sessions, target, key); }
    }
  }

  lemma PruneSessionUndisturbed(env: Env, s: Shared, sessions: map<W.SessKey, SessionRec>, target: W.SessKey,
                                key: W.SessKey)
    requires Inv(s, sessions) && target in sessions && key in sessions && key != target
    ensures var t := W.PruneSession(env, s, sessions[target]);
      && SameSlots(sessions[key].fars, s.far, t.far)
      && SameSlots(sessions[key].qers, s.qer, t.qer)
      && SameSlots(sessions[key].urrs, s.urr, t.urr)
  {
    PruneSessionDrops(env, s, sessions, target);
    DropUndisturbed(s, W.PruneSession(env, s, sessions[target]), sessions, target, key);
  }

  lemma {:induction false} PruneSessionsUndisturbed(env: Env, s: Shared, sessions: map<W.SessKey, SessionRec>,
                                                    addr: string, order: seq<nat>, left: map<W.SessKey, SessionRec>,
                                                    key: W.SessKey)
    requires Inv(s, left) && key in left && key.addr != addr && ToPrune(sessions, addr, order, left)
    ensures var t := W.PruneSessions(env, s, sessions, addr, order);
      && SameSlots(left[key].fars, s.far, t.far)
      && SameSlots(left[key].qers, s.qer, t.qer)
      && SameSlots(left[key].urrs, s.urr, t.urr)
    decreases order
  {
    if order != [] {
      var target := W.SessKey(addr, order[0]);
      ToPruneNext(sessions, addr, order, left);
      PruneSessionUndisturbed(env, s, left, target, key);
      PruneSessionKeepsInv(env, s, left, target);
      PruneSessionsUndisturbed(env, W.PruneSession(env, s, left[target]), sessions, addr, order[1..], left - {target},
                               key);
    }
  }

  lemma PruneIsolates(env: Env, w: State, addr: string, key: W.SessKey)
    requires Inv(w.shared, w.sessions) && key in w.sessions && key.addr != addr
    ensures Undisturbed(w, W.Prune(env, w, addr), key)
  {
    var order := env.order(w.shared.clock, W.SeidsOf(w, addr));
    PrunedAreAt(env, w, addr);
    PruneSessionsUndisturbed(env, W.Tick(w.shared), w.sessions, addr, order, w.sessions, key);
  }

  /** A message or pruning leaves every session it is not about, and the slots that session owns, unchanged. */
  lemma StepIsolates(env: Env, w: State, e: Event, key: W.SessKey)
    requires Inv(w.shared, w.sessions) && WellFormed(env, w, e) && !e.Traffic?
    requires key in w.sessions && !Targets(w, e, key)
    ensures Undisturbed(w, Step(env, w, e), key)
  {
    match e {
      case SetupMsg(addr) =>
      case EstablishMsg(addr, est) => EstablishIsolates(env, w, addr, est, key);
      case ModifyMsg(addr, seid, mod) => ModifyIsolates(env, w, addr, seid, mod, key);
      case DeleteMsg(addr, seid) => DeleteIsolates(env, w, addr, seid, key);
      case PruneEvent(addr) => PruneIsolates(env, w, addr, key);
    }
  }

  // ---------------------------------------------------------------- PDR keys

  lemma {:induction false} DeletePdrsTouchCarried(env: Env, c: Ctx, order: seq<nat>, k: PdrKey)
    requires forall id :: id in order ==> id in c.sess.pdrs
    requires k !in Carried(c.sess)
    ensures SameAt(c.shared.pdrs, W.DeletePdrs(env, c, order).state.shared.pdrs, k)
    decreases order
  {
    if order != [] {
      assert KeyOf(c.sess.pdrs[order[0]]) in Carried(c.sess);
      var first := DeletePdr(env, c, c.sess.pdrs[order[0]]);
      if first.ok { DeletePdrsTouchCarried(env, first.state, order[1..], k); }
    }
  }

  lemma TeardownTouchesCarried(env: Env, s: Shared, sess: SessionRec, k: PdrKey)
    requires k !in Carried(sess)
    ensures SameAt(s.pdrs, W.Teardown(env, s, sess).state.0.pdrs, k)
  {
    DeletePdrsTouchCarried(env, W.Start(W.Tick(s), sess), env.order(s.clock, sess.pdrs.Keys), k);
  }

  lemma {:induction false} PrunePdrsTouchCarried(env: Env, c: Ctx, order: seq<nat>, k: PdrKey)
    requires forall id :: id in order ==> id in c.sess.pdrs
    requires k !in Carried(c.sess)
    ensures SameAt(c.shared.pdrs, W.PrunePdrs(env, c, order).shared.pdrs, k)
    decreases order
  {
    if order != [] {
      assert KeyOf(c.sess.pdrs[order[0]]) in Carried(c.sess);
      PrunePdrsTouchCarried(env, DeletePdr(env, c, c.sess.pdrs[order[0]]).state, order[1..], k);
    }
  }

  lemma {:induction false} PruneSessionsTouchCarried(env: Env, s: Shared, sessions: map<W.SessKey, SessionRec>,
                                                     addr: string, order: seq<nat>, k: PdrKey)
    requires forall seid :: seid in order ==>
               W.SessKey(addr, seid) in sessions && k !in Carried(sessions[W.SessKey(addr, seid)])
    ensures SameAt(s.pdrs, W.PruneSessions(env, s, sessions, addr, order).pdrs, k)
    decreases order
  {
    if order != [] {
      var sess := sessions[W.SessKey(addr, order[0])];
      var rules := W.PruneQers(env, W.PruneFars(env, s, sess), sess);
      PrunePdrsTouchCarried(env, W.Start(W.Tick(rules), sess), env.order(rules.clock, sess.pdrs.Keys), k);
      PruneSessionsTouchCarried(env, W.PruneSession(env, s, sess), sessions, addr, order[1..], k);
    }
  }

  /** An event writes no PDR key except those the sessions it is about carry. */
  lemma StepTouchesOwnKeys(env: Env, w: State, e: Event, k: PdrKey)
    requires k !in KeysOf(env, w, e)
    ensures SameAt(w.shared.pdrs, Step(env, w, e).shared.pdrs, k)
  {
    match e {
      case SetupMsg(addr) =>
      case Traffic(_, _) =>
      case EstablishMsg(addr, est) =>
        if est.cpSeid.Some? && addr in w.next {
          ApplyAllTouchesFootprint(env, W.Start(w.shared, W.NewSession(W.NextSeid(w.next[addr]), est.cpSeid.value)),
                                   W.EstablishIes(est), k);
        }
      case ModifyMsg(addr, seid, mod) =>
        if W.SessKey(addr, seid) in w.sessions {
          ApplyAllTouchesFootprint(env, W.Start(w.shared, W.Rehomed(w.sessions[W.SessKey(addr, seid)], mod)),
                                   W.ModifyIes(mod), k);
        }
      case DeleteMsg(addr, seid) =>
        if W.SessKey(addr, seid) in w.sessions {
          TeardownTouchesCarried(env, w.shared, w.sessions[W.SessKey(addr, seid)], k);
        }
      case PruneEvent(addr) =>
        var order := env.order(w.shared.clock, W.SeidsOf(w, addr));
        forall seid | seid in order
          ensures W.SessKey(addr, seid) in w.sessions && k !in Carried(w.sessions[W.SessKey(addr, seid)])
        {
          assert seid in W.SeidsOf(w, addr);
        }
        PruneSessionsTouchCarried(env, W.Tick(w.shared), w.sessions, addr, order, k);
    }
  }

  // ---------------------------------------------------------------- runs of other sessions

  /** No event of the run is about key's session, and none carries the PDR key k. */
  ghost predicate OthersOnly(env: Env, w: State, run: seq<Event>, key: W.SessKey, k: PdrKey)
    decreases run
  {
    run == [] || (
      && !Targets(w, run[0], key) && k !in KeysOf(env, w, run[0])
      && OthersOnly(env, Step(env, w, run[0]), run[1..], key, k))
  }

  /** Other sessions' runs, with traffic, keep the session, its FARs, its QERs' settings and the record at k. */
  lemma {:induction false} RunOfOthers(env: Env, w: State, run: seq<Event>, key: W.SessKey, k: PdrKey)
    requires Inv(w.shared, w.sessions) && WellFormedRun(env, w, run) && key in w.sessions
    requires OthersOnly(env, w, run, key, k)
    ensures var v := Run(env, w, run);
      && key in v.sessions && v.sessions[key] == w.sessions[key]
      && SameSlots(w.sessions[key].fars, w.shared.far, v.shared.far)
      && SameSettings(w.sessions[key].qers, w.shared.qer, v.shared.qer)
      && SameAt(w.shared.pdrs, v.shared.pdrs, k)
    decreases run
  {
    if run != [] {
      var v := Step(env, w, run[0]);
      StepKeepsInv(env, w, run[0]);
      if !run[0].Traffic? { StepIsolates(env, w, run[0], key); }
      StepTouchesOwnKeys(env, w, run[0], k);
      RunOfOthers(env, v, run[1..], key, k);
    }
  }
}
