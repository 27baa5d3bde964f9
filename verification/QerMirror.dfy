/**
 * The settings of every QER slot in use are what its session remembers, in every reachable state:
 * messages write both, and the data plane moves only the limiter windows.
 */
module QerMirror {
  import opened Base
  import opened RuleTables
  import opened Resources
  import opened PdrRecords
  import opened Rules
  import opened SessionSpec
  import opened SessionLemmas
  import W = World
  import opened Ownership
  import opened Runs

  /** The QER pool without its limiter windows. */
  ghost function Settled(p: Pool<QerInfo>): Pool<QerInfo> {
    Pool(p.free, seq(|p.slots|, i requires 0 <= i < |p.slots| => Settings(p.slots[i])))
  }

  ghost predicate Mirrored(s: Shared, sessions: map<W.SessKey, SessionRec>) {
    AllMirror(Qers(sessions), Settled(s.qer))
  }

  /** The same for the session being processed. */
  ghost predicate SettledCtx(c: Ctx) { Mirrors(Bank(Settled(c.shared.qer), c.sess.qers)) }

  // ---------------------------------------------------------------- the pool without windows

  lemma SettledOwned(m: RuleMaps<QerInfo>, p: Pool<QerInfo>)
    requires OwnedOnce(m, p)
    ensures OwnedOnce(m, Settled(p))
  {
  }

  lemma SettledLeaves(p: Pool<QerInfo>, q: Pool<QerInfo>, ids: set<nat>)
    requires LeavesForeign(p, q, ids)
    ensures LeavesForeign(Settled(p), Settled(q), ids)
  {
  }

  // ---------------------------------------------------------------- one session's IEs

  lemma QerIeSettled(c: Ctx, ie: Ie, f: Foreign)
    requires SoundCtx(c, f) && WellFormedIe(c, ie) && (ie.CreateQer? || ie.UpdateQer? || ie.RemoveQer?) && SettledCtx(c)
    ensures SettledCtx(ApplyQer(c, ie).state)
  {
  }

  lemma IeSettled(env: Env, c: Ctx, ie: Ie, f: Foreign)
    requires SoundCtx(c, f) && WellFormedIe(c, ie) && SettledCtx(c)
    ensures SettledCtx(Apply(env, c, ie).state)
  {
    if ie.CreateQer? || ie.UpdateQer? || ie.RemoveQer? {
      QerIeSettled(c, ie, f);
    } else if ie.CreatePdr? || ie.UpdatePdr? || ie.RemovePdr? {
      ApplyPdrSameRules(env, c, ie);
    }
  }

  lemma {:induction false} IesSettled(env: Env, c: Ctx, ies: seq<Ie>, f: Foreign)
    requires SoundCtx(c, f) && WellFormedIes(env, c, ies) && SettledCtx(c)
    ensures SettledCtx(ApplyAll(env, c, ies).state)
    decreases ies
  {
    if ies == [] {
    } else {
      ApplyKept(env, c, ies[0], f);
      IeSettled(env, c, ies[0], f);
      var first := Apply(env, c, ies[0]);
      if first.ok { IesSettled(env, first.state, ies[1..], f); }
    }
  }

  /** Putting a session back after its IEs were processed; or not, if it was new. */
  lemma PutBackSettled(c: Ctx, d: Ctx, sessions: map<W.SessKey, SessionRec>, key: W.SessKey)
    requires Inv(c.shared, sessions) && Mirrored(c.shared, sessions) && SettledCtx(d)
    requires LeavesForeign(c.shared.qer, d.shared.qer, ForeignIds(Qers(sessions), key))
    ensures Mirrored(d.shared, sessions[key := d.sess])
    ensures key !in sessions ==> Mirrored(d.shared, sessions)
  {
    var m := Qers(sessions);
    SessionUpdated(sessions, key, d.sess);
    SettledOwned(m, c.shared.qer);
    SettledLeaves(c.shared.qer, d.shared.qer, ForeignIds(m, key));
    UnfocusMirror(m, Settled(c.shared.qer), key, Bank(Settled(d.shared.qer), d.sess.qers));
    if key !in sessions { assert m - {key} == m; }
  }

  lemma EstablishMirrored(env: Env, w: State, addr: string, est: W.EstablishReq)
    requires Inv(w.shared, w.sessions) && Mirrored(w.shared, w.sessions)
    ensures var v := W.Establish(env, w, addr, est).state; Mirrored(v.shared, v.sessions)
  {
    if est.nodeIdOk && est.cpSeid.Some? && addr in w.next {
      var local := W.NextSeid(w.next[addr]);
      var key := W.SessKey(addr, local);
      var c := W.Start(w.shared, W.NewSession(local, est.cpSeid.value));
      var d := ApplyAll(env, c, W.EstablishIes(est)).state;
      var spare := UnusedKey(w.sessions);
      CreatesWellFormed(env, c, W.EstablishIes(est));
      FocusNew(w.shared, w.sessions, c.sess, spare);
      ApplyAllKept(env, c, W.EstablishIes(est), Others(w.sessions, spare));
      IesSettled(env, c, W.EstablishIes(est), Others(w.sessions, spare));
      PutBackSettled(c, d, w.sessions, spare);
      SessionUpdated(w.sessions, spare, d.sess);
      SessionUpdated(w.sessions, key, d.sess);
      MovedMirror(Qers(w.sessions), Settled(d.shared.qer), spare, key, d.sess.qers);
    }
  }

  lemma StartSettled(s: Shared, sessions: map<W.SessKey, SessionRec>, key: W.SessKey, sess: SessionRec)
    requires Mirrored(s, sessions) && key in sessions && sess.qers == sessions[key].qers
    ensures SettledCtx(W.Start(s, sess))
  {
    assert Qers(sessions)[key] == sess.qers;
  }

  lemma ModifyMirrored(env: Env, w: State, addr: string, seid: nat, mod: W.ModifyReq)
    requires Inv(w.shared, w.sessions) && Mirrored(w.shared, w.sessions)
    requires WellFormed(env, w, ModifyMsg(addr, seid, mod))
    ensures var v := W.Modify(env, w, addr, seid, mod).state; Mirrored(v.shared, v.sessions)
  {
    var key := W.SessKey(addr, seid);
    if addr in w.next && key in w.sessions {
      var c := W.Start(w.shared, W.Rehomed(w.sessions[key], mod));
      FocusSession(w.shared, w.sessions, key, c.sess);
      StartSettled(w.shared, w.sessions, key, c.sess);
      ApplyAllKept(env, c, W.ModifyIes(mod), Others(w.sessions, key));
      IesSettled(env, c, W.ModifyIes(mod), Others(w.sessions, key));
      PutBackSettled(c, ApplyAll(env, c, W.ModifyIes(mod)).state, w.sessions, key);
    }
  }

  // ---------------------------------------------------------------- deletion and pruning

  lemma DroppedMirrored(s: Shared, t: Shared, sessions: map<W.SessKey, SessionRec>, key: W.SessKey)
    requires Inv(s, sessions) && Mirrored(s, sessions) && key in sessions
    requires Dropped(s.qer, t.qer, Held(sessions[key].qers), ZERO_QER)
    ensures Mirrored(t, sessions - {key})
  {
    WithoutSession(sessions, key);
    DroppedLeavesForeign(Qers(sessions), s.qer, key, t.qer, ZERO_QER);
    SettledLeaves(s.qer, t.qer, ForeignIds(Qers(sessions), key));
    DroppedKeepsMirror(Qers(sessions), Settled(s.qer), key, Settled(t.qer));
  }

  lemma DeleteMirrored(env: Env, w: State, addr: string, seid: nat)
    requires Inv(w.shared, w.sessions) && Mirrored(w.shared, w.sessions)
    ensures var v := W.Delete(env, w, addr, seid).state; Mirrored(v.shared, v.sessions)
  {
    var key := W.SessKey(addr, seid);
    if addr in w.next && key in w.sessions {
      TeardownDrops(env, w.shared, w.sessions, key);
      var down := W.Teardown(env, w.shared, w.sessions[key]);
      if down.ok { DroppedMirrored(w.shared, down.state.0, w.sessions, key); }
    }
  }

  lemma {:induction false} PruneSessionsMirrored(env: Env, s: Shared, sessions: map<W.SessKey, SessionRec>,
                                                 addr: string, order: seq<nat>, left: map<W.SessKey, SessionRec>)
    requires Inv(s, left) && Mirrored(s, left) && ToPrune(sessions, addr, order, left)
    ensures Mirrored(W.PruneSessions(env, s, sessions, addr, order), left - At(addr, order))
    decreases order
  {
    if order == [] {
      assert left - At(addr, order) == left;
    } else {
      var key := W.SessKey(addr, order[0]);
      ToPruneNext(sessions, addr, order, left);
      PruneSessionDrops(env, s, left, key);
      PruneSessionKeepsInv(env, s, left, key);
      DroppedMirrored(s, W.PruneSession(env, s, left[key]), left, key);
      PruneSessionsMirrored(env, W.PruneSession(env, s, left[key]), sessions, addr, order[1..], left - {key});
    }
  }

  lemma PruneMirrored(env: Env, w: State, addr: string)
    requires Inv(w.shared, w.sessions) && Mirrored(w.shared, w.sessions)
    ensures var v := W.Prune(env, w, addr); Mirrored(v.shared, v.sessions)
  {
    var order := env.order(w.shared.clock, W.SeidsOf(w, addr));
    PrunedAreAt(env, w, addr);
    PruneSessionsMirrored(env, W.Tick(w.shared), w.sessions, addr, order, w.sessions);
  }

  // ---------------------------------------------------------------- the theorem

  lemma StepMirrored(env: Env, w: State, e: Event)
    requires Inv(w.shared, w.sessions) && Mirrored(w.shared, w.sessions) && WellFormed(env, w, e)
    ensures var v := Step(env, w, e); Mirrored(v.shared, v.sessions)
  {
    match e {
      case SetupMsg(addr) =>
      case EstablishMsg(addr, est) => EstablishMirrored(env, w, addr, est);
      case ModifyMsg(addr, seid, mod) => ModifyMirrored(env, w, addr, seid, mod);
      case DeleteMsg(addr, seid) => DeleteMirrored(env, w, addr, seid);
      case PruneEvent(addr) => PruneMirrored(env, w, addr);
      case Traffic(qers, urrs) =>
        assert Settled(Step(env, w, e).shared.qer).slots == Settled(w.shared.qer).slots;
    }
  }

  lemma {:induction false} RunMirrored(env: Env, w: State, run: seq<Event>)
    requires Inv(w.shared, w.sessions) && Mirrored(w.shared, w.sessions) && WellFormedRun(env, w, run)
    ensures var v := Run(env, w, run); Mirrored(v.shared, v.sessions)
    decreases run
  {
    if run == [] {
    } else {
      StepKeepsInv(env, w, run[0]);
      StepMirrored(env, w, run[0]);
      RunMirrored(env, Step(env, w, run[0]), run[1..]);
    }
  }

  /**
   * In every state reached from fresh tables by a well-formed run, with traffic: the slot of every QER a
   * session has holds the rates, gates and QFI the session remembers.
   */
  lemma EveryQerIsEnforced(env: Env, farSize: nat, qerSize: nat, urrSize: nat, teids: TeidPool, ips: IpPool,
                           run: seq<Event>, key: W.SessKey, id: nat)
    requires WellFormedRun(env, Initial(farSize, qerSize, urrSize, teids, ips), run)
    requires var v := Run(env, Initial(farSize, qerSize, urrSize, teids, ips), run);
      key in v.sessions && id in v.sessions[key].qers
    ensures var v := Run(env, Initial(farSize, qerSize, urrSize, teids, ips), run);
      var qer := v.sessions[key].qers[id];
      qer.globalId < |v.shared.qer.slots| && Settings(v.shared.qer.slots[qer.globalId]) == qer.info
  {
    var w := Initial(farSize, qerSize, urrSize, teids, ips);
    InitialInv(farSize, qerSize, urrSize, teids, ips);
    RunMirrored(env, w, run);
    var v := Run(env, w, run);
    assert Qers(v.sessions)[key][id] == v.sessions[key].qers[id];
  }
}
