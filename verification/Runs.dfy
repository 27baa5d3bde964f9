/** Runs of the control plane, and the invariant every well-formed run keeps. */
module Runs {
  import opened Base
  import opened RuleTables
  import opened Resources
  import opened PdrRecords
  import opened Rules
  import opened SessionSpec
  import opened SessionLemmas
  import W = World
  import opened Ownership

  type State = W.State

  /** Traffic is what packets may do to the tables between two messages. */
  datatype Event =
    | SetupMsg(addr: string)
    | EstablishMsg(addr: string, est: W.EstablishReq)
    | ModifyMsg(addr: string, seid: nat, mod: W.ModifyReq)
    | DeleteMsg(addr: string, seid: nat)
    | PruneEvent(addr: string)
    | Traffic(qers: seq<QerInfo>, urrs: seq<UrrInfo>)

  /** The data plane moves limiter windows of QERs that have a rate, and adds up URR volumes. */
  ghost predicate TrafficOk(s: Shared, qers: seq<QerInfo>, urrs: seq<UrrInfo>) {
    && |qers| == |s.qer.slots| && |urrs| == |s.urr.slots|
    && (forall g :: 0 <= g < |qers| ==>
          && qers[g] == s.qer.slots[g].(startUL := qers[g].startUL, startDL := qers[g].startDL)
          && (qers[g].maxBitrateUL == 0 ==> qers[g].startUL == s.qer.slots[g].startUL)
          && (qers[g].maxBitrateDL == 0 ==> qers[g].startDL == s.qer.slots[g].startDL))
  }

  ghost function Step(env: Env, w: State, e: Event): State {
    match e
    case SetupMsg(addr) => W.Associate(w, addr)
    case EstablishMsg(addr, est) => W.Establish(env, w, addr, est).state
    case ModifyMsg(addr, seid, mod) => W.Modify(env, w, addr, seid, mod).state
    case DeleteMsg(addr, seid) => W.Delete(env, w, addr, seid).state
    case PruneEvent(addr) => W.Prune(env, w, addr)
    case Traffic(qers, urrs) =>
      w.(shared := w.shared.(qer := w.shared.qer.(slots := qers), urr := w.shared.urr.(slots := urrs)))
  }

  /** A modification names only rules its session has; an association is pruned while it exists. */
  ghost predicate WellFormed(env: Env, w: State, e: Event) {
    match e
    case ModifyMsg(addr, seid, mod) =>
      W.SessKey(addr, seid) in w.sessions ==>
        WellFormedIes(env, W.Start(w.shared, W.Rehomed(w.sessions[W.SessKey(addr, seid)], mod)), W.ModifyIes(mod))
    case PruneEvent(addr) => addr in w.next
    case Traffic(qers, urrs) => TrafficOk(w.shared, qers, urrs)
    case _ => true
  }

  ghost predicate WellFormedRun(env: Env, w: State, run: seq<Event>)
    decreases run
  {
    run == [] || (WellFormed(env, w, run[0]) && WellFormedRun(env, Step(env, w, run[0]), run[1..]))
  }

  ghost function Run(env: Env, w: State, run: seq<Event>): State
    decreases run
  {
    if run == [] then w else Run(env, Step(env, w, run[0]), run[1..])
  }

  // ---------------------------------------------------------------- the invariant

  function Fars(sessions: map<W.SessKey, SessionRec>): RuleMaps<FarInfo> {
    map k | k in sessions :: sessions[k].fars
  }

  function Qers(sessions: map<W.SessKey, SessionRec>): RuleMaps<QerInfo> {
    map k | k in sessions :: sessions[k].qers
  }

  function Urrs(sessions: map<W.SessKey, SessionRec>): RuleMaps<UrrInfo> {
    map k | k in sessions :: sessions[k].urrs
  }

  /**
   * No global id has two owners or is free while owned; free FAR and QER slots are clear; every
   * FAR slot in use holds what its session remembers.
   */
  ghost predicate Inv(s: Shared, sessions: map<W.SessKey, SessionRec>) {
    && OwnedOnce(Fars(sessions), s.far) && OwnedOnce(Qers(sessions), s.qer) && OwnedOnce(Urrs(sessions), s.urr)
    && Clean(s.far, ZERO_FAR) && Clean(s.qer, ZERO_QER)
    && AllMirror(Fars(sessions), s.far)
  }

  ghost function Others(sessions: map<W.SessKey, SessionRec>, key: W.SessKey): Foreign {
    Foreign(ForeignIds(Fars(sessions), key), ForeignIds(Qers(sessions), key), ForeignIds(Urrs(sessions), key))
  }

  ghost predicate SamePools(s: Shared, t: Shared) {
    s.far == t.far && s.qer == t.qer && s.urr == t.urr
  }

  /** Fresh tables and no sessions. */
  ghost function Initial(farSize: nat, qerSize: nat, urrSize: nat, teids: TeidPool, ips: IpPool): State {
    W.State(Shared(Pool(UpTo(farSize), seq(farSize, _ => ZERO_FAR)), Pool(UpTo(qerSize), seq(qerSize, _ => ZERO_QER)),
                   Pool(UpTo(urrSize), seq(urrSize, _ => ZERO_URR)), map[], teids, ips, 0), map[], map[])
  }

  lemma InitialInv(farSize: nat, qerSize: nat, urrSize: nat, teids: TeidPool, ips: IpPool)
    ensures var w := Initial(farSize, qerSize, urrSize, teids, ips); Inv(w.shared, w.sessions)
  {
  }

  // ---------------------------------------------------------------- messages for one session

  lemma FocusSession(s: Shared, sessions: map<W.SessKey, SessionRec>, key: W.SessKey, sess: SessionRec)
    requires Inv(s, sessions) && key in sessions
    requires sess.fars == sessions[key].fars && sess.qers == sessions[key].qers && sess.urrs == sessions[key].urrs
    ensures SoundCtx(W.Start(s, sess), Others(sessions, key)) && Mirrors(FarBank(W.Start(s, sess)))
  {
    Focus(Fars(sessions), s.far, key);
    Focus(Qers(sessions), s.qer, key);
    Focus(Urrs(sessions), s.urr, key);
  }

  /** A session that did not exist before starts without ids. */
  lemma FocusNew(s: Shared, sessions: map<W.SessKey, SessionRec>, sess: SessionRec, key: W.SessKey)
    requires Inv(s, sessions) && key !in sessions
    requires sess.fars == map[] && sess.qers == map[] && sess.urrs == map[]
    ensures SoundCtx(W.Start(s, sess), Others(sessions, key)) && Mirrors(FarBank(W.Start(s, sess)))
  {
    Focus(Fars(sessions), s.far, key);
    Focus(Qers(sessions), s.qer, key);
    Focus(Urrs(sessions), s.urr, key);
  }

  lemma PutBackKind<T>(m: RuleMaps<T>, p: Pool<T>, key: W.SessKey, b: Bank<T>)
    requires OwnedOnce(m, p) && Sound(b, ForeignIds(m, key)) && LeavesForeign(p, b.pool, ForeignIds(m, key))
    ensures OwnedOnce(m[key := b.rules], b.pool)
    ensures key !in m ==> OwnedOnce(m, b.pool)
    ensures AllMirror(m, p) && Mirrors(b) ==> AllMirror(m[key := b.rules], b.pool)
    ensures key !in m && AllMirror(m, p) && Mirrors(b) ==> AllMirror(m, b.pool)
  {
    Unfocus(m, p, key, b);
    if AllMirror(m, p) && Mirrors(b) { UnfocusMirror(m, p, key, b); }
    if key !in m {
      ForgetSession(m[key := b.rules], b.pool, key);
      assert m[key := b.rules] - {key} == m && m - {key} == m;
    }
  }

  lemma MapUpdated<T>(before: RuleMaps<T>, after: RuleMaps<T>, key: W.SessKey, rules: map<nat, Rule<T>>)
    requires after.Keys == before.Keys + {key} && after[key] == rules
    requires forall k :: k in before && k != key ==> after[k] == before[k]
    ensures after == before[key := rules]
  {
  }

  lemma SessionUpdated(sessions: map<W.SessKey, SessionRec>, key: W.SessKey, sess: SessionRec)
    ensures Fars(sessions[key := sess]) == Fars(sessions)[key := sess.fars]
    ensures Qers(sessions[key := sess]) == Qers(sessions)[key := sess.qers]
    ensures Urrs(sessions[key := sess]) == Urrs(sessions)[key := sess.urrs]
  {
    var after := sessions[key := sess];
    MapUpdated(Fars(sessions), Fars(after), key, sess.fars);
    MapUpdated(Qers(sessions), Qers(after), key, sess.qers);
    MapUpdated(Urrs(sessions), Urrs(after), key, sess.urrs);
  }

  /** Putting a session back after its IEs were processed; or not, if it was new. */
  lemma PutBack(c: Ctx, d: Ctx, sessions: map<W.SessKey, SessionRec>, key: W.SessKey)
    requires Inv(c.shared, sessions) && Kept(c, d, Others(sessions, key)) && Mirrors(FarBank(c))
    ensures Inv(d.shared, sessions[key := d.sess])
    ensures key !in sessions ==> Inv(d.shared, sessions)
  {
    SessionUpdated(sessions, key, d.sess);
    PutBackKind(Fars(sessions), c.shared.far, key, FarBank(d));
    PutBackKind(Qers(sessions), c.shared.qer, key, QerBank(d));
    PutBackKind(Urrs(sessions), c.shared.urr, key, UrrBank(d));
  }

  /** Create IEs are always well formed. */
  lemma {:induction false} CreatesWellFormed(env: Env, c: Ctx, ies: seq<Ie>)
    requires forall i :: 0 <= i < |ies| ==>
               ies[i].CreateFar? || ies[i].CreateQer? || ies[i].CreateUrr? || ies[i].CreatePdr?
    ensures WellFormedIes(env, c, ies)
    decreases ies
  {
    if ies != [] && Apply(env, c, ies[0]).ok {
      CreatesWellFormed(env, Apply(env, c, ies[0]).state, ies[1..]);
    }
  }

  /** Some key no session uses: an address longer than all others. */
  lemma UnusedKey(sessions: map<W.SessKey, SessionRec>) returns (key: W.SessKey)
    ensures key !in sessions
  {
    var seids := set k | k in sessions :: k.seid;
    var n := 0;
    while n in seids
      invariant forall i: nat :: i < n ==> i in seids
      decreases seids - UpTo(n)
    {
      assert n in seids - UpTo(n) && n !in seids - UpTo(n + 1);
      n := n + 1;
    }
    key := W.SessKey("", n);
  }

  lemma EstablishKeepsInv(env: Env, w: State, addr: string, est: W.EstablishReq)
    requires Inv(w.shared, w.sessions)
    ensures var v := W.Establish(env, w, addr, est).state; Inv(v.shared, v.sessions)
  {
    if est.nodeIdOk && est.cpSeid.Some? && addr in w.next {
      var local := W.NextSeid(w.next[addr]);
      var key := W.SessKey(addr, local);
      var c := W.Start(w.shared, W.NewSession(local, est.cpSeid.value));
      var d := ApplyAll(env, c, W.EstablishIes(est)).state;
      CreatesWellFormed(env, c, W.EstablishIes(est));
      var spare := UnusedKey(w.sessions);
      FocusNew(w.shared, w.sessions, c.sess, spare);
      ApplyAllKept(env, c, W.EstablishIes(est), Others(w.sessions, spare));
      PutBack(c, d, w.sessions, spare);
      if ApplyAll(env, c, W.EstablishIes(est)).ok {
        Overwrite(d, w.sessions, spare, key);
      }
    }
  }

  /** A stored session replaces whatever its key held; the replaced ids are lost, not shared. */
  lemma Overwrite(d: Ctx, sessions: map<W.SessKey, SessionRec>, spare: W.SessKey, key: W.SessKey)
    requires spare !in sessions && Inv(d.shared, sessions[spare := d.sess])
    ensures Inv(d.shared, sessions[key := d.sess])
  {
    var at := sessions[spare := d.sess];
    var to := sessions[key := d.sess];
    SessionUpdated(sessions, spare, d.sess);
    SessionUpdated(sessions, key, d.sess);
    Moved(Fars(sessions), d.shared.far, spare, key, d.sess.fars);
    Moved(Qers(sessions), d.shared.qer, spare, key, d.sess.qers);
    Moved(Urrs(sessions), d.shared.urr, spare, key, d.sess.urrs);
    MovedMirror(Fars(sessions), d.shared.far, spare, key, d.sess.fars);
  }

  lemma Moved<T>(m: RuleMaps<T>, p: Pool<T>, spare: W.SessKey, to: W.SessKey, rules: map<nat, Rule<T>>)
    requires spare !in m && OwnedOnce(m[spare := rules], p)
    ensures OwnedOnce(m[to := rules], p)
  {
    var at: RuleMaps<T>, n: RuleMaps<T> := m[spare := rules], m[to := rules];
    forall k: W.SessKey, i: nat, l: W.SessKey, j: nat
      | k in n && i in n[k] && l in n && j in n[l] && n[k][i].globalId == n[l][j].globalId
      ensures k == l && i == j
    {
      var k', l' := if k == to then spare else k, if l == to then spare else l;
      assert at[k'][i].globalId == at[l'][j].globalId;
    }
    forall k: W.SessKey, i: nat | k in n && i in n[k]
      ensures n[k][i].globalId < |p.slots| && n[k][i].globalId !in p.free
    {
      assert at[if k == to then spare else k][i] == n[k][i];
    }
  }

  lemma MovedMirror<T>(m: RuleMaps<T>, p: Pool<T>, spare: W.SessKey, to: W.SessKey, rules: map<nat, Rule<T>>)
    requires spare !in m && AllMirror(m[spare := rules], p)
    ensures AllMirror(m[to := rules], p)
  {
    var at: RuleMaps<T>, n: RuleMaps<T> := m[spare := rules], m[to := rules];
    forall k: W.SessKey, i: nat | k in n && i in n[k]
      ensures n[k][i].globalId < |p.slots| && p.slots[n[k][i].globalId] == n[k][i].info
    {
      assert at[if k == to then spare else k][i] == n[k][i];
    }
  }

  lemma ModifyKeepsInv(env: Env, w: State, addr: string, seid: nat, mod: W.ModifyReq)
    requires Inv(w.shared, w.sessions) && WellFormed(env, w, ModifyMsg(addr, seid, mod))
    ensures var v := W.Modify(env, w, addr, seid, mod).state; Inv(v.shared, v.sessions)
  {
    var key := W.SessKey(addr, seid);
    if addr in w.next && key in w.sessions {
      var c := W.Start(w.shared, W.Rehomed(w.sessions[key], mod));
      FocusSession(w.shared, w.sessions, key, c.sess);
      ApplyAllKept(env, c, W.ModifyIes(mod), Others(w.sessions, key));
      PutBack(c, ApplyAll(env, c, W.ModifyIes(mod)).state, w.sessions, key);
    }
  }

  // ---------------------------------------------------------------- deletion

  lemma {:induction false} DeletePdrsSameRules(env: Env, c: Ctx, order: seq<nat>)
    requires forall k :: k in order ==> k in c.sess.pdrs
    ensures SamePools(c.shared, W.DeletePdrs(env, c, order).state.shared)
    decreases order
  {
    if order != [] {
      var first := DeletePdr(env, c, c.sess.pdrs[order[0]]);
      if first.ok { DeletePdrsSameRules(env, first.state, order[1..]); }
    }
  }

  lemma WithoutSession(sessions: map<W.SessKey, SessionRec>, key: W.SessKey)
    ensures Fars(sessions - {key}) == Fars(sessions) - {key}
    ensures Qers(sessions - {key}) == Qers(sessions) - {key}
    ensures Urrs(sessions - {key}) == Urrs(sessions) - {key}
  {
  }

  /** Clearing a session's slots and forgetting the session. */
  lemma DropKeepsInv(s: Shared, t: Shared, sessions: map<W.SessKey, SessionRec>, key: W.SessKey)
    requires Inv(s, sessions) && key in sessions
    requires Dropped(s.far, t.far, Held(sessions[key].fars), ZERO_FAR)
    requires Dropped(s.qer, t.qer, Held(sessions[key].qers), ZERO_QER)
    requires s.urr == t.urr || Dropped(s.urr, t.urr, Held(sessions[key].urrs), ZERO_URR)
    ensures Inv(t, sessions - {key})
  {
    WithoutSession(sessions, key);
    DroppedKeepsOwned(Fars(sessions), s.far, key, t.far, ZERO_FAR);
    DroppedKeepsOwned(Qers(sessions), s.qer, key, t.qer, ZERO_QER);
    if s.urr == t.urr {
      ForgetSession(Urrs(sessions), s.urr, key);
    } else {
      DroppedKeepsOwned(Urrs(sessions), s.urr, key, t.urr, ZERO_URR);
    }
    DroppedLeavesForeign(Fars(sessions), s.far, key, t.far, ZERO_FAR);
    DroppedKeepsMirror(Fars(sessions), s.far, key, t.far);
  }

  lemma DroppedKeepsMirror<T>(m: RuleMaps<T>, p: Pool<T>, key: W.SessKey, q: Pool<T>)
    requires AllMirror(m, p) && LeavesForeign(p, q, ForeignIds(m, key))
    ensures AllMirror(m - {key}, q)
  {
    forall k, i | k in m && k != key && i in m[k]
      ensures m[k][i].globalId < |q.slots| && q.slots[m[k][i].globalId] == m[k][i].info
    {
      assert m[k][i].globalId in ForeignIds(m, key);
    }
  }

  /** The rule loops of the deletion handler never fail on a session that owns its ids. */
  lemma TeardownDrops(env: Env, s: Shared, sessions: map<W.SessKey, SessionRec>, key: W.SessKey)
    requires Inv(s, sessions) && key in sessions
    ensures var sess := sessions[key];
      var down := W.Teardown(env, s, sess);
      if W.DeletePdrs(env, W.Start(W.Tick(s), sess), env.order(s.clock, sess.pdrs.Keys)).ok then
        && down.ok
        && Dropped(s.far, down.state.0.far, Held(sess.fars), ZERO_FAR)
        && Dropped(s.qer, down.state.0.qer, Held(sess.qers), ZERO_QER)
        && Dropped(s.urr, down.state.0.urr, Held(sess.urrs), ZERO_URR)
      else !down.ok && SamePools(s, down.state.0)
  {
    var sess := sessions[key];
    var c := W.Start(W.Tick(s), sess);
    DeletePdrsSameRules(env, c, env.order(s.clock, sess.pdrs.Keys));
    var s1 := W.DeletePdrs(env, c, env.order(s.clock, sess.pdrs.Keys)).state.shared;
    DropSessionDrops(Fars(sessions), s.far, key, env.order(s1.clock, sess.fars.Keys), ZERO_FAR);
    var s2 := W.DropFars(env, s1, sess).state;
    DropSessionDrops(Qers(sessions), s.qer, key, env.order(s2.clock, sess.qers.Keys), ZERO_QER);
    var s3 := W.DropQers(env, s2, sess).state;
    DropSessionDrops(Urrs(sessions), s.urr, key, env.order(s3.clock, sess.urrs.Keys), ZERO_URR);
  }

  lemma DeleteKeepsInv(env: Env, w: State, addr: string, seid: nat)
    requires Inv(w.shared, w.sessions)
    ensures var v := W.Delete(env, w, addr, seid).state; Inv(v.shared, v.sessions)
  {
    var key := W.SessKey(addr, seid);
    if addr in w.next && key in w.sessions {
      TeardownDrops(env, w.shared, w.sessions, key);
      var down := W.Teardown(env, w.shared, w.sessions[key]);
      if down.ok {
        DropKeepsInv(w.shared, down.state.0, w.sessions, key);
      }
    }
  }

  // ---------------------------------------------------------------- pruning

  lemma {:induction false} PrunePdrsSameRules(env: Env, c: Ctx, order: seq<nat>)
    requires forall k :: k in order ==> k in c.sess.pdrs
    ensures SamePools(c.shared, W.PrunePdrs(env, c, order).shared)
    decreases order
  {
    if order != [] {
      PrunePdrsSameRules(env, DeletePdr(env, c, c.sess.pdrs[order[0]]).state, order[1..]);
    }
  }

  lemma PruneSessionDrops(env: Env, s: Shared, sessions: map<W.SessKey, SessionRec>, key: W.SessKey)
    requires Inv(s, sessions) && key in sessions
    ensures var t := W.PruneSession(env, s, sessions[key]);
      && Dropped(s.far, t.far, Held(sessions[key].fars), ZERO_FAR)
      && Dropped(s.qer, t.qer, Held(sessions[key].qers), ZERO_QER)
      && t.urr == s.urr
  {
    var sess := sessions[key];
    DropSessionDrops(Fars(sessions), s.far, key, env.order(s.clock, sess.fars.Keys), ZERO_FAR);
    var s1 := W.PruneFars(env, s, sess);
    DropSessionDrops(Qers(sessions), s.qer, key, env.order(s1.clock, sess.qers.Keys), ZERO_QER);
    var s2 := W.PruneQers(env, s1, sess);
    PrunePdrsSameRules(env, W.Start(W.Tick(s2), sess), env.order(s2.clock, sess.pdrs.Keys));
  }

  lemma PruneSessionKeepsInv(env: Env, s: Shared, sessions: map<W.SessKey, SessionRec>, key: W.SessKey)
    requires Inv(s, sessions) && key in sessions
    ensures Inv(W.PruneSession(env, s, sessions[key]), sessions - {key})
  {
    PruneSessionDrops(env, s, sessions, key);
    DropKeepsInv(s, W.PruneSession(env, s, sessions[key]), sessions, key);
  }

  /** The sessions at addr whose ids are in order. */
  ghost function At(addr: string, order: seq<nat>): set<W.SessKey> {
    set seid | seid in order :: W.SessKey(addr, seid)
  }

  /** left are the sessions not pruned yet; those at addr whose ids are in order come next. */
  ghost predicate ToPrune(sessions: map<W.SessKey, SessionRec>, addr: string, order: seq<nat>,
                          left: map<W.SessKey, SessionRec>)
  {
    && (forall i, j :: 0 <= i < j < |order| ==> order[i] != order[j])
    && (forall seid :: seid in order ==>
          && W.SessKey(addr, seid) in sessions && W.SessKey(addr, seid) in left
          && sessions[W.SessKey(addr, seid)] == left[W.SessKey(addr, seid)])
  }

  lemma ToPruneNext(sessions: map<W.SessKey, SessionRec>, addr: string, order: seq<nat>,
                    left: map<W.SessKey, SessionRec>)
    requires order != [] && ToPrune(sessions, addr, order, left)
    ensures var key := W.SessKey(addr, order[0]);
      && key in left && key in sessions && sessions[key] == left[key]
      && ToPrune(sessions, addr, order[1..], left - {key})
      && left - {key} - At(addr, order[1..]) == left - At(addr, order)
  {
    var key := W.SessKey(addr, order[0]);
    assert order[0] in order;
    AtHead(addr, order);
    forall seid | seid in order[1..] ensures seid in order && W.SessKey(addr, seid) != key {
    }
  }

  lemma {:induction false} PruneSessionsKeepInv(env: Env, s: Shared, sessions: map<W.SessKey, SessionRec>, addr: string,
                                                order: seq<nat>, left: map<W.SessKey, SessionRec>)
    requires Inv(s, left) && ToPrune(sessions, addr, order, left)
    ensures Inv(W.PruneSessions(env, s, sessions, addr, order), left - At(addr, order))
    decreases order
  {
    if order == [] {
      assert left - At(addr, order) == left;
    } else {
      var key := W.SessKey(addr, order[0]);
      ToPruneNext(sessions, addr, order, left);
      PruneSessionKeepsInv(env, s, left, key);
      PruneSessionsKeepInv(env, W.PruneSession(env, s, left[key]), sessions, addr, order[1..], left - {key});
    }
  }

  lemma AtHead(addr: string, order: seq<nat>)
    requires order != [] && forall i, j :: 0 <= i < j < |order| ==> order[i] != order[j]
    ensures At(addr, order) == {W.SessKey(addr, order[0])} + At(addr, order[1..])
    ensures W.SessKey(addr, order[0]) !in At(addr, order[1..])
  {
    forall k | k in At(addr, order) ensures k in {W.SessKey(addr, order[0])} + At(addr, order[1..]) {
      if k.seid != order[0] { assert k.seid in order[1..]; }
    }
  }

  /** The sessions in the iteration order are those of the association, and they are the ones that go. */
  lemma PrunedAreAt(env: Env, w: State, addr: string)
    ensures var order := env.order(w.shared.clock, W.SeidsOf(w, addr));
      && ToPrune(w.sessions, addr, order, w.sessions)
      && w.sessions - At(addr, order) == W.Prune(env, w, addr).sessions
  {
    var order := env.order(w.shared.clock, W.SeidsOf(w, addr));
    forall seid | seid in order ensures W.SessKey(addr, seid) in w.sessions { assert seid in W.SeidsOf(w, addr); }
    forall k | k in w.sessions ensures k in At(addr, order) <==> k.addr == addr {
      if k.addr == addr { assert k.seid in W.SeidsOf(w, addr) && k == W.SessKey(addr, k.seid); }
    }
  }

  lemma PruneKeepsInv(env: Env, w: State, addr: string)
    requires Inv(w.shared, w.sessions)
    ensures var v := W.Prune(env, w, addr); Inv(v.shared, v.sessions)
  {
    PrunedAreAt(env, w, addr);
    PruneSessionsKeepInv(env, W.Tick(w.shared), w.sessions, addr, env.order(w.shared.clock, W.SeidsOf(w, addr)),
                         w.sessions);
  }

  // ---------------------------------------------------------------- the theorem

  lemma StepKeepsInv(env: Env, w: State, e: Event)
    requires Inv(w.shared, w.sessions) && WellFormed(env, w, e)
    ensures var v := Step(env, w, e); Inv(v.shared, v.sessions)
  {
    match e {
      case SetupMsg(addr) =>
      case EstablishMsg(addr, est) => EstablishKeepsInv(env, w, addr, est);
      case ModifyMsg(addr, seid, mod) => ModifyKeepsInv(env, w, addr, seid, mod);
      case DeleteMsg(addr, seid) => DeleteKeepsInv(env, w, addr, seid);
      case PruneEvent(addr) => PruneKeepsInv(env, w, addr);
      case Traffic(qers, urrs) =>
    }
  }

  /**
   * Over every well-formed run from fresh tables -- whatever hash-table writes fail, in whatever
   * order maps are iterated, wherever requests are rejected part way -- each global id has at
   * most one owner and no owned id is free.
   */
  lemma {:induction false} RunKeepsInv(env: Env, w: State, run: seq<Event>)
    requires Inv(w.shared, w.sessions) && WellFormedRun(env, w, run)
    ensures var v := Run(env, w, run); Inv(v.shared, v.sessions)
    decreases run
  {
    if run != [] {
      StepKeepsInv(env, w, run[0]);
      RunKeepsInv(env, Step(env, w, run[0]), run[1..]);
    }
  }

  lemma EveryIdHasOneOwner(env: Env, farSize: nat, qerSize: nat, urrSize: nat, teids: TeidPool, ips: IpPool,
                           run: seq<Event>)
    requires WellFormedRun(env, Initial(farSize, qerSize, urrSize, teids, ips), run)
    ensures var v := Run(env, Initial(farSize, qerSize, urrSize, teids, ips), run);
      && OwnedOnce(Fars(v.sessions), v.shared.far)
      && OwnedOnce(Qers(v.sessions), v.shared.qer)
      && OwnedOnce(Urrs(v.sessions), v.shared.urr)
      && AllMirror(Fars(v.sessions), v.shared.far)
  {
    InitialInv(farSize, qerSize, urrSize, teids, ips);
    RunKeepsInv(env, Initial(farSize, qerSize, urrSize, teids, ips), run);
  }
}
