/** What a deletion gives back, in any state that keeps the invariant, and after any run of other sessions. */
module Deletion {
  import opened Base
  import opened RuleTables
  import opened Resources
  import opened PdrRecords
  import opened Rules
  import opened SessionSpec
  import opened SessionLemmas
  import W = World
  import opened Ownership
  import opened Runs
  import opened Isolation
  import opened Restore

  /** The session's PDR keys are all gone. */
  ghost predicate KeysGone(sess: SessionRec, pdrs: map<PdrKey, PdrRecord>) {
    forall k :: k in Carried(sess) ==> k !in pdrs
  }

  /**
   * From w to u the session at key has been given back: its ids joined the free ones and their slots
   * are clear, no other id or slot changed; the session is gone, no other is; no PDR key but its own
   * changed; and the TEIDs booked for its peer are released if it had any.
   */
  ghost predicate GivenBack(w: State, u: State, key: W.SessKey)
    requires key in w.sessions
  {
    var sess := w.sessions[key];
    && Dropped(w.shared.far, u.shared.far, Held(sess.fars), ZERO_FAR)
    && Dropped(w.shared.qer, u.shared.qer, Held(sess.qers), ZERO_QER)
    && Dropped(w.shared.urr, u.shared.urr, Held(sess.urrs), ZERO_URR)
    && u.sessions == w.sessions - {key}
    && (forall k :: k !in Carried(sess) ==> SameAt(w.shared.pdrs, u.shared.pdrs, k))
    && ((exists id :: id in sess.pdrs && sess.pdrs[id].teid != 0) ==> sess.remoteSeid !in u.shared.teids.busy)
  }

  /** Deleting the PDRs removes all stored keys of the session exactly when no two TEIDs are congruent. */
  lemma KeysGoneIff(env: Env, c: Ctx, order: seq<nat>)
    requires c.cache == map[] && Enumerates(order, c.sess.pdrs.Keys) && W.DeletePdrs(env, c, order).ok
    requires forall k :: k in Carried(c.sess) ==> k in c.shared.pdrs
    ensures KeysGone(c.sess, W.DeletePdrs(env, c, order).state.shared.pdrs) <==> !Congruent(c.sess)
  {
    if Congruent(c.sess) {
      var i, j :| i in c.sess.pdrs && j in c.sess.pdrs && KeyOf(c.sess.pdrs[i]).Uplink? && KeyOf(c.sess.pdrs[j]).Uplink?
        && c.sess.pdrs[i].teid != c.sess.pdrs[j].teid && c.sess.pdrs[i].teid % 256 == c.sess.pdrs[j].teid % 256;
      assert KeyOf(c.sess.pdrs[i]) in Carried(c.sess) && KeyOf(c.sess.pdrs[j]) in Carried(c.sess);
      DeletePdrsLeavesOne(env, c, order, c.sess.pdrs[i].teid, c.sess.pdrs[j].teid);
    } else {
      DeletePdrsRemovesAll(env, c, order);
    }
  }

  lemma PeerIsReleased(env: Env, s: Shared, sess: SessionRec)
    requires W.Teardown(env, s, sess).ok && exists id :: id in sess.pdrs && sess.pdrs[id].teid != 0
    ensures sess.remoteSeid !in W.Teardown(env, s, sess).state.0.teids.busy
  {
    var order := env.order(s.clock, sess.pdrs.Keys);
    TeardownPdrPart(env, s, sess);
    DeletePdrsTeids(env, W.Start(W.Tick(s), sess), order);
    var id :| id in sess.pdrs && sess.pdrs[id].teid != 0;
    assert id in order;
  }

  lemma ReleaseOnlyPools(env: Env, t: Shared, seid: nat)
    ensures var u := W.ReleaseResources(env, t, seid);
      SamePools(u, t) && u.pdrs == t.pdrs && (forall r :: r !in t.teids.busy ==> r !in u.teids.busy)
  {
  }

  /** An accepted deletion gives the session back, whatever ran before it. */
  lemma AcceptedGivesBack(env: Env, w: State, addr: string, seid: nat)
    requires Inv(w.shared, w.sessions) && W.Delete(env, w, addr, seid).response.cause == W.Accepted
    ensures W.SessKey(addr, seid) in w.sessions
    ensures var u := W.Delete(env, w, addr, seid).state; var sess := w.sessions[W.SessKey(addr, seid)];
      && GivenBack(w, u, W.SessKey(addr, seid))
      && ((forall k :: k in Carried(sess) ==> k in w.shared.pdrs)
            ==> (KeysGone(sess, u.shared.pdrs) <==> !Congruent(sess)))
  {
    var key := W.SessKey(addr, seid);
    DeleteAccepted(env, w, addr, seid);
    var sess := w.sessions[key];
    var t := W.Teardown(env, w.shared, sess).state.0;
    var c, order := W.Start(W.Tick(w.shared), sess), env.order(w.shared.clock, sess.pdrs.Keys);
    TeardownDrops(env, w.shared, w.sessions, key);
    TeardownPdrPart(env, w.shared, sess);
    ReleaseOnlyPools(env, t, seid);
    forall k | k !in Carried(sess)
      ensures SameAt(w.shared.pdrs, t.pdrs, k)
    {
      TeardownTouchesCarried(env, w.shared, sess, k);
    }
    if exists id :: id in sess.pdrs && sess.pdrs[id].teid != 0 { PeerIsReleased(env, w.shared, sess); }
    if forall k :: k in Carried(sess) ==> k in w.shared.pdrs { KeysGoneIff(env, c, order); }
  }

  // ---------------------------------------------------------------- after a run of other sessions

  /** No event of the run is about key's session or carries one of its PDR keys. */
  ghost predicate LeavesAlone(env: Env, w: State, run: seq<Event>, key: W.SessKey)
    decreases run
  {
    run == [] || (
      && !Targets(w, run[0], key)
      && (key in w.sessions ==> Carried(w.sessions[key]) !! KeysOf(env, w, run[0]))
      && LeavesAlone(env, Step(env, w, run[0]), run[1..], key))
  }

  lemma StepLeavesAlone(env: Env, w: State, e: Event, key: W.SessKey)
    requires Inv(w.shared, w.sessions) && WellFormed(env, w, e) && key in w.sessions && !Targets(w, e, key)
    requires Carried(w.sessions[key]) !! KeysOf(env, w, e)
    ensures var v := Step(env, w, e);
      && Inv(v.shared, v.sessions) && key in v.sessions && v.sessions[key] == w.sessions[key]
      && (key.addr in w.next ==> key.addr in v.next)
      && forall k :: k in Carried(w.sessions[key]) ==> SameAt(w.shared.pdrs, v.shared.pdrs, k)
  {
    StepKeepsInv(env, w, e);
    if !e.Traffic? { StepIsolates(env, w, e, key); }
    forall k | k in Carried(w.sessions[key]) ensures SameAt(w.shared.pdrs, Step(env, w, e).shared.pdrs, k) {
      StepTouchesOwnKeys(env, w, e, k);
    }
  }

  /** Such a run leaves the session, its association and its keys as they are. */
  lemma {:induction false} RunLeavesAlone(env: Env, w: State, run: seq<Event>, key: W.SessKey)
    requires Inv(w.shared, w.sessions) && WellFormedRun(env, w, run)
    requires key in w.sessions && LeavesAlone(env, w, run, key)
    ensures var u := Run(env, w, run);
      && Inv(u.shared, u.sessions) && key in u.sessions && u.sessions[key] == w.sessions[key]
      && (key.addr in w.next ==> key.addr in u.next)
      && forall k :: k in Carried(w.sessions[key]) ==> SameAt(w.shared.pdrs, u.shared.pdrs, k)
    decreases run
  {
    if run == [] {
    } else {
      StepLeavesAlone(env, w, run[0], key);
      RunLeavesAlone(env, Step(env, w, run[0]), run[1..], key);
    }
  }

  /**
   * After an accepted establishment on fresh names and any run in which only other sessions act, on
   * other keys, and packets flow, the session can be deleted exactly when no two of its PDRs share a
   * downlink key, and then exactly what it took is given back to the state the run has reached; all
   * its keys are gone exactly when no two of its uplink TEIDs differ but share their low byte.
   */
  lemma DeleteAfterRun(env: Env, w: State, addr: string, est: W.EstablishReq, run: seq<Event>)
    requires Inv(w.shared, w.sessions) && Unclaimed(w, addr, est) && FreshNames(W.NewSession(0, 0), W.EstablishIes(est))
    requires W.Establish(env, w, addr, est).response.cause == W.Accepted
    requires var v := W.Establish(env, w, addr, est).state; var key := W.SessKey(addr, W.NextSeid(w.next[addr]));
      && WellFormedRun(env, v, run) && LeavesAlone(env, v, run, key) && AcceptsFrom(env, Run(env, v, run).shared.clock)
    ensures var v := W.Establish(env, w, addr, est).state; var key := W.SessKey(addr, W.NextSeid(w.next[addr]));
      var u, sess := Run(env, v, run), v.sessions[key];
      var deleted := W.Delete(env, u, addr, W.NextSeid(w.next[addr]));
      && key in u.sessions && u.sessions[key] == sess
      && (deleted.response.cause == W.Accepted <==> DistinctDownlinks(sess))
      && (DistinctDownlinks(sess) ==>
            GivenBack(u, deleted.state, key) && (KeysGone(sess, deleted.state.shared.pdrs) <==> !Congruent(sess)))
  {
    var local := W.NextSeid(w.next[addr]);
    var key := W.SessKey(addr, local);
    var v := W.Establish(env, w, addr, est).state;
    var u := Run(env, v, run);
    EstablishGrows(env, w, addr, est);
    EstablishKeepsInv(env, w, addr, est);
    EstablishAccepted(env, w, addr, est);
    RunLeavesAlone(env, v, run, key);
    DeleteAcceptedIff(env, u, addr, local);
    if DistinctDownlinks(v.sessions[key]) { AcceptedGivesBack(env, u, addr, local); }
  }
}
