/**
 * What every run of the control plane, well formed or not, keeps of the shared tables: booked TEIDs
 * stay distinct, and no stored PDR record comes to name a URR.
 */
module SharedRuns {
  import opened Base
  import opened RuleTables
  import opened Resources
  import opened PdrRecords
  import opened Rules
  import opened SessionSpec
  import W = World
  import opened Runs

  /** No record names a URR. */
  ghost predicate NoUrrIds(pdrs: map<PdrKey, PdrRecord>) {
    forall k :: k in pdrs ==> Charged(pdrs[k]) == (0, 0)
  }

  /** From s to t, distinct TEIDs in 1 .. n stay so, and records that name no URR stay so. */
  ghost predicate Keeps(s: Shared, t: Shared, n: nat) {
    && (Distinct(s.teids, n) ==> Distinct(t.teids, n))
    && (NoUrrIds(s.pdrs) ==> NoUrrIds(t.pdrs))
  }

  ghost predicate SameTables(s: Shared, t: Shared) { s.teids == t.teids && s.pdrs == t.pdrs }

  lemma ReleaseKeeps(env: Env, s: Shared, seid: nat, n: nat)
    ensures Keeps(s, ReleaseSession(env, s, seid), n)
  {
    if Distinct(s.teids, n) && seid in s.teids.busy {
      ReleaseKeepsDistinct(s.teids, seid, env.order(s.clock, Row(s.teids, seid).Keys), n);
    }
  }

  // ---------------------------------------------------------------- one IE

  lemma DropKeyKeeps(env: Env, c: Ctx, p: SPdr, n: nat)
    ensures Keeps(c.shared, DropKey(env, c, p).state.shared, n)
  {
  }

  lemma DeletePdrKeeps(env: Env, c: Ctx, p: SPdr, n: nat)
    ensures Keeps(c.shared, DeletePdr(env, c, p).state.shared, n)
  {
    DropKeyKeeps(env, c, p, n);
    ReleaseKeeps(env, DropKey(env, c, p).state.shared, c.sess.remoteSeid, n);
  }

  lemma ExtractKeeps(env: Env, c: Ctx, pdr: PdrIE, base: SPdr, n: nat)
    requires ExtractPdr(env, c, pdr, base).Ok?
    ensures Keeps(c.shared, ExtractPdr(env, c, pdr, base).value.0.shared, n)
  {
    if Distinct(c.shared.teids, n) && c.shared.teids.free != [] {
      AllocateKeepsDistinct(c.shared.teids, c.sess.remoteSeid, base.pdrId, n);
    }
  }

  /** ToIpEntrypointPdrInfo and CombinePdrWithSdf leave the URR ids zero. */
  lemma StoreKeeps(env: Env, c: Ctx, id: nat, p: SPdr, n: nat)
    ensures Keeps(c.shared, StorePdr(env, c, id, p).state.shared, n)
  {
  }

  lemma ApplyPdrKeeps(env: Env, c: Ctx, ie: Ie, n: nat)
    requires ie.CreatePdr? || ie.UpdatePdr? || ie.RemovePdr?
    ensures Keeps(c.shared, ApplyPdr(env, c, ie).state.shared, n)
  {
    match ie {
      case CreatePdr(pdr) =>
        if pdr.id.Some? {
          var extracted := ExtractPdr(env, c, pdr, ZERO_PDR.(pdrId := pdr.id.value));
          if extracted.Ok? {
            ExtractKeeps(env, c, pdr, ZERO_PDR.(pdrId := pdr.id.value), n);
            StoreKeeps(env, extracted.value.0, pdr.id.value, extracted.value.1, n);
          }
        }
      case UpdatePdr(pdr) =>
        if pdr.id.Some? {
          var base := Lookup(c.sess.pdrs, pdr.id.value, ZERO_PDR);
          var extracted := ExtractPdr(env, c, pdr, base);
          if extracted.Ok? {
            ExtractKeeps(env, c, pdr, base, n);
            StoreKeeps(env, extracted.value.0, pdr.id.value, extracted.value.1, n);
          }
        }
      case RemovePdr(id) =>
        var key := id.GetOr(0);
        if key in c.sess.pdrs {
          DeletePdrKeeps(env, c.(sess := c.sess.(pdrs := c.sess.pdrs - {key})), c.sess.pdrs[key], n);
        }
    }
  }

  /** FAR, QER and URR IEs touch neither TEIDs nor PDR tables. */
  lemma RuleIesTouchPools(c: Ctx, ie: Ie)
    ensures ie.CreateFar? || ie.UpdateFar? || ie.RemoveFar? ==> SameTables(c.shared, ApplyFar(c, ie).state.shared)
    ensures ie.CreateQer? || ie.UpdateQer? || ie.RemoveQer? ==> SameTables(c.shared, ApplyQer(c, ie).state.shared)
    ensures ie.CreateUrr? || ie.UpdateUrr? || ie.RemoveUrr? ==> SameTables(c.shared, ApplyUrr(c, ie).state.shared)
  {
  }

  lemma ApplyKeeps(env: Env, c: Ctx, ie: Ie, n: nat)
    ensures Keeps(c.shared, Apply(env, c, ie).state.shared, n)
  {
    if ie.CreatePdr? || ie.UpdatePdr? || ie.RemovePdr? {
      ApplyPdrKeeps(env, c, ie, n);
    } else {
      RuleIesTouchPools(c, ie);
      assert SameTables(c.shared, Apply(env, c, ie).state.shared);
    }
  }

  lemma {:induction false} ApplyAllKeeps(env: Env, c: Ctx, ies: seq<Ie>, n: nat)
    ensures Keeps(c.shared, ApplyAll(env, c, ies).state.shared, n)
    decreases ies
  {
    if ies != [] {
      ApplyKeeps(env, c, ies[0], n);
      var first := Apply(env, c, ies[0]);
      if first.ok { ApplyAllKeeps(env, first.state, ies[1..], n); }
    }
  }

  // ---------------------------------------------------------------- deletion and pruning

  lemma {:induction false} DeletePdrsKeep(env: Env, c: Ctx, order: seq<nat>, n: nat)
    requires forall k :: k in order ==> k in c.sess.pdrs
    ensures Keeps(c.shared, W.DeletePdrs(env, c, order).state.shared, n)
    decreases order
  {
    if order != [] {
      DeletePdrKeeps(env, c, c.sess.pdrs[order[0]], n);
      var first := DeletePdr(env, c, c.sess.pdrs[order[0]]);
      if first.ok { DeletePdrsKeep(env, first.state, order[1..], n); }
    }
  }

  lemma TeardownRulesSameTables(env: Env, s: Shared, sess: SessionRec)
    ensures SameTables(s, W.TeardownRules(env, s, sess).state.0)
  {
  }

  lemma TeardownKeeps(env: Env, s: Shared, sess: SessionRec, n: nat)
    ensures Keeps(s, W.Teardown(env, s, sess).state.0, n)
  {
    var order := env.order(s.clock, sess.pdrs.Keys);
    DeletePdrsKeep(env, W.Start(W.Tick(s), sess), order, n);
    TeardownRulesSameTables(env, W.DeletePdrs(env, W.Start(W.Tick(s), sess), order).state.shared, sess);
  }

  lemma DeleteKeeps(env: Env, w: State, addr: string, seid: nat, n: nat)
    ensures Keeps(w.shared, W.Delete(env, w, addr, seid).state.shared, n)
  {
    var key := W.SessKey(addr, seid);
    if addr in w.next && key in w.sessions {
      TeardownKeeps(env, w.shared, w.sessions[key], n);
      var down := W.Teardown(env, w.shared, w.sessions[key]);
      if down.ok { ReleaseKeeps(env, down.state.0.(ips := ReleaseIp(down.state.0.ips, seid)), seid, n); }
    }
  }

  lemma {:induction false} PrunePdrsKeep(env: Env, c: Ctx, order: seq<nat>, n: nat)
    requires forall k :: k in order ==> k in c.sess.pdrs
    ensures Keeps(c.shared, W.PrunePdrs(env, c, order).shared, n)
    decreases order
  {
    if order != [] {
      DeletePdrKeeps(env, c, c.sess.pdrs[order[0]], n);
      PrunePdrsKeep(env, DeletePdr(env, c, c.sess.pdrs[order[0]]).state, order[1..], n);
    }
  }

  lemma PruneSessionKeeps(env: Env, s: Shared, sess: SessionRec, n: nat)
    ensures Keeps(s, W.PruneSession(env, s, sess), n)
  {
    var rules := W.PruneQers(env, W.PruneFars(env, s, sess), sess);
    PrunePdrsKeep(env, W.Start(W.Tick(rules), sess), env.order(rules.clock, sess.pdrs.Keys), n);
  }

  lemma {:induction false} PruneSessionsKeep(env: Env, s: Shared, sessions: map<W.SessKey, SessionRec>, addr: string,
                                             order: seq<nat>, n: nat)
    requires forall seid :: seid in order ==> W.SessKey(addr, seid) in sessions
    ensures Keeps(s, W.PruneSessions(env, s, sessions, addr, order), n)
    decreases order
  {
    if order != [] {
      var sess := sessions[W.SessKey(addr, order[0])];
      PruneSessionKeeps(env, s, sess, n);
      PruneSessionsKeep(env, W.PruneSession(env, s, sess), sessions, addr, order[1..], n);
    }
  }

  // ---------------------------------------------------------------- every step

  lemma StepKeeps(env: Env, w: State, e: Event, n: nat)
    ensures Keeps(w.shared, Step(env, w, e).shared, n)
  {
    match e {
      case SetupMsg(addr) =>
      case Traffic(_, _) =>
      case EstablishMsg(addr, est) =>
        if est.cpSeid.Some? && addr in w.next {
          ApplyAllKeeps(env, W.Start(w.shared, W.NewSession(W.NextSeid(w.next[addr]), est.cpSeid.value)),
                        W.EstablishIes(est), n);
        }
      case ModifyMsg(addr, seid, mod) =>
        if W.SessKey(addr, seid) in w.sessions {
          ApplyAllKeeps(env, W.Start(w.shared, W.Rehomed(w.sessions[W.SessKey(addr, seid)], mod)), W.ModifyIes(mod), n);
        }
      case DeleteMsg(addr, seid) => DeleteKeeps(env, w, addr, seid, n);
      case PruneEvent(addr) =>
        var order := env.order(w.shared.clock, W.SeidsOf(w, addr));
        forall seid | seid in order ensures W.SessKey(addr, seid) in w.sessions { assert seid in W.SeidsOf(w, addr); }
        PruneSessionsKeep(env, W.Tick(w.shared), w.sessions, addr, order, n);
    }
  }

  lemma {:induction false} RunKeeps(env: Env, w: State, run: seq<Event>, n: nat)
    ensures Keeps(w.shared, Run(env, w, run).shared, n)
    decreases run
  {
    if run != [] {
      StepKeeps(env, w, run[0], n);
      RunKeeps(env, Step(env, w, run[0]), run[1..], n);
    }
  }

  /**
   * In every state reached from fresh tables with the TEIDs 1 .. n, by any run, well formed or not:
   * free and booked TEIDs are pairwise distinct and in 1 .. n, so none is booked for two (peer, PDR)
   * pairs at once; and no stored record names a URR, whatever URRs its PDR names.
   */
  lemma ReachableTables(env: Env, farSize: nat, qerSize: nat, urrSize: nat, n: nat, ips: IpPool, run: seq<Event>)
    ensures var s := Run(env, Initial(farSize, qerSize, urrSize, TeidPool(seq(n, i => i + 1), map[]), ips), run).shared;
      Distinct(s.teids, n) && NoUrrIds(s.pdrs)
  {
    var w := Initial(farSize, qerSize, urrSize, TeidPool(seq(n, i => i + 1), map[]), ips);
    RunKeeps(env, w, run, n);
  }
}
