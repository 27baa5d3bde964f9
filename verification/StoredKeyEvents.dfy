/** Exactly when one establishment, deletion or pruning leaves a stored PDR key that is no session's. */
module StoredKeyEvents {
  import opened Base
  import opened RuleTables
  import opened Resources
  import opened PdrRecords
  import opened Rules
  import opened SessionSpec
  import opened SessionLemmas
  import W = World
  import opened Runs
  import opened Isolation
  import opened Restore
  import opened StoredKeys

  // ---------------------------------------------------------------- establishment

  /** Create IEs whose PDR ids are pairwise different and new to the session. */
  ghost predicate FreshPdrIds(sess: SessionRec, ies: seq<Ie>) {
    && (forall i :: 0 <= i < |ies| ==> Creates(ies[i]))
    && (forall i :: 0 <= i < |ies| && ies[i].CreatePdr? ==> ies[i].pdr.id.GetOr(0) !in sess.pdrs)
    && (forall i, j :: 0 <= i < j < |ies| && ies[i].CreatePdr? && ies[j].CreatePdr? ==>
          ies[i].pdr.id.GetOr(0) != ies[j].pdr.id.GetOr(0))
  }

  lemma CreateKeepsFresh(env: Env, c: Ctx, ies: seq<Ie>)
    requires ies != [] && FreshPdrIds(c.sess, ies) && Apply(env, c, ies[0]).ok
    ensures FreshPdrIds(Apply(env, c, ies[0]).state.sess, ies[1..])
  {
    var d := Apply(env, c, ies[0]).state;
    if ies[0].CreatePdr? {
      CreatedPdrKeys(env, c, ies[0].pdr);
    } else {
      RuleIesKeepPdrs(env, c, ies[0]);
    }
  }

  lemma RuleIesKeepPdrs(env: Env, c: Ctx, ie: Ie)
    requires Creates(ie) && !ie.CreatePdr?
    ensures var d := Apply(env, c, ie).state;
      d.sess.pdrs == c.sess.pdrs && d.created == c.created && d.shared.pdrs == c.shared.pdrs
  {
  }

  /** A Create PDR stores its PDR, and its key exactly when it reports it as created. */
  lemma CreatedPdrKeys(env: Env, c: Ctx, pdr: PdrIE)
    ensures var made := Apply(env, c, CreatePdr(pdr)); var d := made.state;
      && (forall id :: id in d.sess.pdrs ==> id in c.sess.pdrs || id == pdr.id.GetOr(0))
      && (if made.ok then
            |d.created| == |c.created| + 1 && d.created[..|c.created|] == c.created
            && d.shared.pdrs.Keys == c.shared.pdrs.Keys + {KeyOf(d.created[|c.created|])}
          else d.created == c.created && d.shared.pdrs == c.shared.pdrs)
  {
    if pdr.id.Some? && ExtractPdr(env, c, pdr, ZERO_PDR.(pdrId := pdr.id.value)).Ok? {
      ExtractSameRules(env, c, pdr, ZERO_PDR.(pdrId := pdr.id.value));
      ExtractKeepsCreated(env, c, pdr, ZERO_PDR.(pdrId := pdr.id.value));
    }
  }

  lemma ExtractKeepsCreated(env: Env, c: Ctx, pdr: PdrIE, base: SPdr)
    requires ExtractPdr(env, c, pdr, base).Ok?
    ensures ExtractPdr(env, c, pdr, base).value.0.created == c.created
  {
  }

  /** Creating rules and PDRs with fresh ids orphans no key. */
  lemma {:induction false} CreatesAreTidy(env: Env, c: Ctx, ies: seq<Ie>, others: set<PdrKey>)
    requires FreshPdrIds(c.sess, ies)
    ensures Tidy(env, c, ies, others)
    decreases ies
  {
    if ies == [] {
    } else {
      if Apply(env, c, ies[0]).ok {
        CreateKeepsFresh(env, c, ies);
        CreatesAreTidy(env, Apply(env, c, ies[0]).state, ies[1..], others);
      }
    }
  }

  /** The stored keys are those of before and those of the PDRs reported as created. */
  ghost predicate StoredAreCreated(before: set<PdrKey>, d: Ctx) {
    && before <= d.shared.pdrs.Keys
    && (forall i :: 0 <= i < |d.created| ==> KeyOf(d.created[i]) in d.shared.pdrs)
    && forall k :: k in d.shared.pdrs && k !in before ==> exists i :: 0 <= i < |d.created| && KeyOf(d.created[i]) == k
  }

  lemma CreateStores(env: Env, c: Ctx, ie: Ie, before: set<PdrKey>)
    requires StoredAreCreated(before, c) && Creates(ie)
    ensures StoredAreCreated(before, Apply(env, c, ie).state)
  {
    var made := Apply(env, c, ie);
    var d := made.state;
    if ie.CreatePdr? {
      CreatedPdrKeys(env, c, ie.pdr);
      if made.ok {
        forall i | 0 <= i < |d.created| ensures KeyOf(d.created[i]) in d.shared.pdrs {
          if i < |c.created| { assert d.created[i] == d.created[..|c.created|][i]; }
        }
        forall k | k in d.shared.pdrs && k !in before
          ensures exists i :: 0 <= i < |d.created| && KeyOf(d.created[i]) == k
        {
          if k in c.shared.pdrs {
            var i :| 0 <= i < |c.created| && KeyOf(c.created[i]) == k;
            assert d.created[i] == d.created[..|c.created|][i];
          } else {
            assert KeyOf(d.created[|c.created|]) == k;
          }
        }
      }
    } else {
      RuleIesKeepPdrs(env, c, ie);
    }
  }

  lemma {:induction false} CreatesStore(env: Env, c: Ctx, ies: seq<Ie>, before: set<PdrKey>)
    requires StoredAreCreated(before, c) && forall i :: 0 <= i < |ies| ==> Creates(ies[i])
    ensures StoredAreCreated(before, ApplyAll(env, c, ies).state)
    decreases ies
  {
    if ies == [] {
    } else {
      CreateStores(env, c, ies[0], before);
      var first := Apply(env, c, ies[0]);
      if first.ok { CreatesStore(env, first.state, ies[1..], before); }
    }
  }

  /**
   * An establishment with different PDR ids, under a SEID not in use, leaves a key that is no session's
   * exactly when it is rejected after it stored a PDR on a key no other session has.
   */
  lemma EstablishLeavesNoneIff(env: Env, w: State, addr: string, est: W.EstablishReq)
    requires NoOrphans(w.shared, w.sessions) && est.nodeIdOk && est.cpSeid.Some? && addr in w.next
    requires W.SessKey(addr, W.NextSeid(w.next[addr])) !in w.sessions
    requires FreshPdrIds(W.NewSession(0, 0), W.EstablishIes(est))
    ensures var v := W.Establish(env, w, addr, est).state; var run := Established(env, w, addr, est);
      NoOrphans(v.shared, v.sessions)
      <==> run.ok || forall i :: 0 <= i < |run.state.created| ==> KeyOf(run.state.created[i]) in AllCarried(w.sessions)
  {
    var c := W.Start(w.shared, W.NewSession(W.NextSeid(w.next[addr]), est.cpSeid.value));
    var run := Established(env, w, addr, est);
    if run.ok {
      var key := W.SessKey(addr, W.NextSeid(w.next[addr]));
      CreatesAreTidy(env, c, W.EstablishIes(est), AllCarried(w.sessions));
      TidyCovers(env, c, W.EstablishIes(est), AllCarried(w.sessions));
      assert w.sessions - {key} == w.sessions;
      CoveredIff(run.state.shared, w.sessions, key, run.state.sess);
    } else {
      CreatesStore(env, c, W.EstablishIes(est), w.shared.pdrs.Keys);
    }
  }

  // ---------------------------------------------------------------- deletion

  /** An uplink PDR whose TEID has the low byte of t. */
  predicate SharesByte(p: SPdr, t: nat) { KeyOf(p).Uplink? && p.teid % 256 == t % 256 }

  /** The first uplink PDR in the order with the low byte of t has TEID t. */
  predicate ComesFirst(pdrs: map<nat, SPdr>, order: seq<nat>, t: nat)
    requires forall id :: id in order ==> id in pdrs
  {
    exists i :: 0 <= i < |order| && KeyOf(pdrs[order[i]]) == Uplink(t)
                && forall h :: 0 <= h < i ==> !SharesByte(pdrs[order[h]], t)
  }

  lemma ComesFirstUnfolds(pdrs: map<nat, SPdr>, order: seq<nat>, t: nat)
    requires order != [] && forall id :: id in order ==> id in pdrs
    ensures ComesFirst(pdrs, order, t)
       <==> KeyOf(pdrs[order[0]]) == Uplink(t) || (!SharesByte(pdrs[order[0]], t) && ComesFirst(pdrs, order[1..], t))
  {
    if ComesFirst(pdrs, order, t) {
      var i :| 0 <= i < |order| && KeyOf(pdrs[order[i]]) == Uplink(t)
               && forall h :: 0 <= h < i ==> !SharesByte(pdrs[order[h]], t);
      if i > 0 {
        assert KeyOf(pdrs[order[1..][i - 1]]) == Uplink(t);
        forall h | 0 <= h < i - 1 ensures !SharesByte(pdrs[order[1..][h]], t) { assert order[1..][h] == order[h + 1]; }
      }
    }
    if !SharesByte(pdrs[order[0]], t) && ComesFirst(pdrs, order[1..], t) {
      var i :| 0 <= i < |order| - 1 && KeyOf(pdrs[order[1..][i]]) == Uplink(t)
               && forall h :: 0 <= h < i ==> !SharesByte(pdrs[order[1..][h]], t);
      assert KeyOf(pdrs[order[i + 1]]) == Uplink(t);
      forall h | 0 <= h < i + 1 ensures !SharesByte(pdrs[order[h]], t) {
        if h > 0 { assert order[h] == order[1..][h - 1]; }
      }
    }
  }

  /** Once its low byte is cached, an uplink key stays. */
  lemma {:induction false} CachedKeyStays(env: Env, c: Ctx, order: seq<nat>, t: nat)
    requires (forall id :: id in order ==> id in c.sess.pdrs) && t % 256 in c.cache
    ensures Uplink(t) in W.DeletePdrs(env, c, order).state.shared.pdrs <==> Uplink(t) in c.shared.pdrs
    decreases order
  {
    if order == [] {
    } else {
      var first := DeletePdr(env, c, c.sess.pdrs[order[0]]);
      if first.ok { CachedKeyStays(env, first.state, order[1..], t); }
    }
  }

  /** A deletion that runs through removes a stored uplink key exactly when its TEID comes first. */
  lemma {:induction false} UplinkKeyStaysIff(env: Env, c: Ctx, order: seq<nat>, t: nat)
    requires (forall id :: id in order ==> id in c.sess.pdrs) && t % 256 !in c.cache
    requires W.DeletePdrs(env, c, order).ok
    ensures Uplink(t) in W.DeletePdrs(env, c, order).state.shared.pdrs
       <==> Uplink(t) in c.shared.pdrs && !ComesFirst(c.sess.pdrs, order, t)
    decreases order
  {
    if order == [] {
    } else {
      var p := c.sess.pdrs[order[0]];
      var first := DeletePdr(env, c, p).state;
      ComesFirstUnfolds(c.sess.pdrs, order, t);
      if SharesByte(p, t) {
        assert t % 256 in first.cache;
        CachedKeyStays(env, first, order[1..], t);
      } else {
        UplinkKeyStaysIff(env, first, order[1..], t);
      }
    }
  }

  /** It removes every downlink key of the session. */
  lemma {:induction false} DownlinkKeysGo(env: Env, c: Ctx, order: seq<nat>, id: nat)
    requires (forall id :: id in order ==> id in c.sess.pdrs) && W.DeletePdrs(env, c, order).ok
    requires id in c.sess.pdrs && !KeyOf(c.sess.pdrs[id]).Uplink?
    requires id in order || KeyOf(c.sess.pdrs[id]) !in c.shared.pdrs
    ensures KeyOf(c.sess.pdrs[id]) !in W.DeletePdrs(env, c, order).state.shared.pdrs
    decreases order
  {
    if order == [] {
    } else {
      var first := DeletePdr(env, c, c.sess.pdrs[order[0]]).state;
      assert id in order[1..] || KeyOf(c.sess.pdrs[id]) !in first.shared.pdrs;
      DownlinkKeysGo(env, first, order[1..], id);
    }
  }

  /** What the deletion of a session does not delete: an uplink key of its own whose TEID does not come first. */
  ghost predicate Spared(s: Shared, sess: SessionRec, order: seq<nat>, id: nat)
    requires id in sess.pdrs && forall id :: id in order ==> id in sess.pdrs
  {
    var k := KeyOf(sess.pdrs[id]);
    k.Uplink? && k in s.pdrs && !ComesFirst(sess.pdrs, order, sess.pdrs[id].teid)
  }

  lemma OwnKeyStaysIff(env: Env, s: Shared, sess: SessionRec, id: nat)
    requires id in sess.pdrs && W.Teardown(env, s, sess).ok
    ensures KeyOf(sess.pdrs[id]) in W.Teardown(env, s, sess).state.0.pdrs
       <==> Spared(s, sess, env.order(s.clock, sess.pdrs.Keys), id)
  {
    var c, order := W.Start(W.Tick(s), sess), env.order(s.clock, sess.pdrs.Keys);
    TeardownPdrPart(env, s, sess);
    if KeyOf(sess.pdrs[id]).Uplink? {
      UplinkKeyStaysIff(env, c, order, sess.pdrs[id].teid);
    } else {
      DownlinkKeysGo(env, c, order, id);
    }
  }

  /**
   * A deletion leaves a key that is no session's exactly when it is accepted and spares an uplink key no
   * other session has: one whose TEID is not the first with its low byte in the order of the PDRs.
   */
  lemma DeleteLeavesNoneIff(env: Env, w: State, addr: string, seid: nat)
    requires NoOrphans(w.shared, w.sessions) && addr in w.next && W.SessKey(addr, seid) in w.sessions
    ensures var deleted := W.Delete(env, w, addr, seid);
      var sess, rest := w.sessions[W.SessKey(addr, seid)], w.sessions - {W.SessKey(addr, seid)};
      NoOrphans(deleted.state.shared, deleted.state.sessions)
      <==> (deleted.response.cause == W.Accepted ==>
              forall id :: id in sess.pdrs && Spared(w.shared, sess, env.order(w.shared.clock, sess.pdrs.Keys), id) ==>
                KeyOf(sess.pdrs[id]) in AllCarried(rest))
  {
    var key := W.SessKey(addr, seid);
    var sess := w.sessions[key];
    var t := W.Teardown(env, w.shared, sess).state.0;
    AllCarriedHas(w.sessions, key);
    forall k | k !in Carried(sess)
      ensures SameAt(w.shared.pdrs, t.pdrs, k)
    {
      TeardownTouchesCarried(env, w.shared, sess, k);
    }
    if W.Teardown(env, w.shared, sess).ok {
      ReleaseKeepsKeys(env, t, seid);
      AcceptedLeavesNoneIff(env, w, key);
    }
  }

  lemma AcceptedLeavesNoneIff(env: Env, w: State, key: W.SessKey)
    requires key in w.sessions && W.Teardown(env, w.shared, w.sessions[key]).ok && NoOrphans(w.shared, w.sessions)
    ensures var sess, t := w.sessions[key], W.Teardown(env, w.shared, w.sessions[key]).state.0;
      NoOrphans(t, w.sessions - {key})
      <==> forall id :: id in sess.pdrs && Spared(w.shared, sess, env.order(w.shared.clock, sess.pdrs.Keys), id) ==>
             KeyOf(sess.pdrs[id]) in AllCarried(w.sessions - {key})
  {
    var sess, t := w.sessions[key], W.Teardown(env, w.shared, w.sessions[key]).state.0;
    AllCarriedHas(w.sessions, key);
    forall id | id in sess.pdrs
      ensures KeyOf(sess.pdrs[id]) in t.pdrs <==> Spared(w.shared, sess, env.order(w.shared.clock, sess.pdrs.Keys), id)
    {
      OwnKeyStaysIff(env, w.shared, sess, id);
    }
    forall k | k in t.pdrs && k !in Carried(sess) ensures k in AllCarried(w.sessions - {key}) {
      TeardownTouchesCarried(env, w.shared, sess, k);
    }
  }

  // ---------------------------------------------------------------- pruning

  /** Of two congruent TEIDs, pruning leaves one behind, whatever the kernel refuses. */
  lemma {:induction false} PrunePdrsLeaveOne(env: Env, c: Ctx, order: seq<nat>, t: nat, u: nat)
    requires (forall id :: id in order ==> id in c.sess.pdrs) && t != u && t % 256 == u % 256
    requires Uplink(t) in c.shared.pdrs || Uplink(u) in c.shared.pdrs
    requires t % 256 !in c.cache ==> Uplink(t) in c.shared.pdrs && Uplink(u) in c.shared.pdrs
    ensures var d := W.PrunePdrs(env, c, order); Uplink(t) in d.shared.pdrs || Uplink(u) in d.shared.pdrs
    decreases order
  {
    if order == [] {
    } else {
      PrunePdrsLeaveOne(env, DeletePdr(env, c, c.sess.pdrs[order[0]]).state, order[1..], t, u);
    }
  }

  lemma PruneSessionTouchesCarried(env: Env, s: Shared, sess: SessionRec, k: PdrKey)
    requires k !in Carried(sess)
    ensures SameAt(s.pdrs, W.PruneSession(env, s, sess).pdrs, k)
  {
    var rules := W.PruneQers(env, W.PruneFars(env, s, sess), sess);
    PrunePdrsTouchCarried(env, W.Start(W.Tick(rules), sess), env.order(rules.clock, sess.pdrs.Keys), k);
  }

  lemma PruneSessionLeavesOne(env: Env, s: Shared, sess: SessionRec, t: nat, u: nat)
    requires t != u && t % 256 == u % 256 && Uplink(t) in s.pdrs && Uplink(u) in s.pdrs
    ensures var d := W.PruneSession(env, s, sess); Uplink(t) in d.pdrs || Uplink(u) in d.pdrs
  {
    var rules := W.PruneQers(env, W.PruneFars(env, s, sess), sess);
    PrunePdrsLeaveOne(env, W.Start(W.Tick(rules), sess), env.order(rules.clock, sess.pdrs.Keys), t, u);
  }

  /** If only one of the sessions carries them, one is still there after all are pruned. */
  lemma {:induction false} PruneSessionsLeaveOne(env: Env, s: Shared, sessions: map<W.SessKey, SessionRec>,
                                                 addr: string, order: seq<nat>, owner: nat, t: nat, u: nat)
    requires t != u && t % 256 == u % 256 && Uplink(t) in s.pdrs && Uplink(u) in s.pdrs
    requires forall i, j :: 0 <= i < j < |order| ==> order[i] != order[j]
    requires forall seid :: seid in order ==> W.SessKey(addr, seid) in sessions
    requires forall seid :: seid in order && seid != owner ==>
               Uplink(t) !in Carried(sessions[W.SessKey(addr, seid)])
               && Uplink(u) !in Carried(sessions[W.SessKey(addr, seid)])
    ensures var d := W.PruneSessions(env, s, sessions, addr, order); Uplink(t) in d.pdrs || Uplink(u) in d.pdrs
    decreases order
  {
    if order == [] {
    } else {
      var sess := sessions[W.SessKey(addr, order[0])];
      var next := W.PruneSession(env, s, sess);
      if order[0] == owner {
        PruneSessionLeavesOne(env, s, sess, t, u);
        PruneSessionsTouchCarried(env, next, sessions, addr, order[1..], Uplink(t));
        PruneSessionsTouchCarried(env, next, sessions, addr, order[1..], Uplink(u));
      } else {
        PruneSessionTouchesCarried(env, s, sess, Uplink(t));
        PruneSessionTouchesCarried(env, s, sess, Uplink(u));
        PruneSessionsLeaveOne(env, next, sessions, addr, order[1..], owner, t, u);
      }
    }
  }

  /** The session's keys are stored, and no other session has them. */
  ghost predicate HasItsKeys(w: State, key: W.SessKey)
    requires key in w.sessions
  {
    forall k :: k in Carried(w.sessions[key]) ==> k in w.shared.pdrs && k !in AllCarried(w.sessions - {key})
  }

  /**
   * Where the sessions of an association have their keys and the kernel refuses nothing, pruning it
   * leaves a key that is no session's exactly when one of them has congruent TEIDs.
   */
  lemma PruneLeavesNoneIff(env: Env, w: State, addr: string)
    requires NoOrphans(w.shared, w.sessions) && AcceptsFrom(env, w.shared.clock)
    requires forall key :: key in w.sessions && key.addr == addr ==> HasItsKeys(w, key)
    ensures var v := W.Prune(env, w, addr);
      NoOrphans(v.shared, v.sessions)
      <==> forall key :: key in w.sessions && key.addr == addr ==> !Congruent(w.sessions[key])
  {
    if forall key :: key in w.sessions && key.addr == addr ==> !Congruent(w.sessions[key]) {
      PruneLeavesNone(env, w, addr);
    } else {
      var key :| key in w.sessions && key.addr == addr && Congruent(w.sessions[key]);
      CongruentIsLeft(env, w, key);
    }
  }

  lemma CongruentIsLeft(env: Env, w: State, key: W.SessKey)
    requires key in w.sessions && HasItsKeys(w, key) && Congruent(w.sessions[key])
    ensures var v := W.Prune(env, w, key.addr); !NoOrphans(v.shared, v.sessions)
  {
    var sess := w.sessions[key];
    var i, j :| i in sess.pdrs && j in sess.pdrs && KeyOf(sess.pdrs[i]).Uplink? && KeyOf(sess.pdrs[j]).Uplink?
      && sess.pdrs[i].teid != sess.pdrs[j].teid && sess.pdrs[i].teid % 256 == sess.pdrs[j].teid % 256;
    var t, u := sess.pdrs[i].teid, sess.pdrs[j].teid;
    var order := env.order(w.shared.clock, W.SeidsOf(w, key.addr));
    assert Uplink(t) in Carried(sess) && Uplink(u) in Carried(sess);
    PrunedAreAt(env, w, key.addr);
    forall seid | seid in order && seid != key.seid
      ensures Uplink(t) !in Carried(w.sessions[W.SessKey(key.addr, seid)])
      ensures Uplink(u) !in Carried(w.sessions[W.SessKey(key.addr, seid)])
    {
      CarriedByAnother(w.sessions, key, W.SessKey(key.addr, seid));
    }
    PruneSessionsLeaveOne(env, W.Tick(w.shared), w.sessions, key.addr, order, key.seid, t, u);
    LeftAreFewer(w.sessions, key);
  }

  lemma CarriedByAnother(sessions: map<W.SessKey, SessionRec>, key: W.SessKey, other: W.SessKey)
    requires key in sessions && other in sessions && other != key
    ensures Carried(sessions[other]) <= AllCarried(sessions - {key})
  {
    AllCarriedHas(sessions - {key}, other);
  }

  /** The sessions pruning leaves are among those other than key. */
  lemma LeftAreFewer(sessions: map<W.SessKey, SessionRec>, key: W.SessKey)
    ensures AllCarried(map k | k in sessions && k.addr != key.addr :: sessions[k]) <= AllCarried(sessions - {key})
  {
    var left := map k | k in sessions && k.addr != key.addr :: sessions[k];
    forall k | k in AllCarried(left) ensures k in AllCarried(sessions - {key}) {
      var l, id :| l in left && id in left[l].pdrs && KeyOf(left[l].pdrs[id]) == k;
      assert (sessions - {key})[l] == left[l];
    }
  }
}
