/** Where the control plane gives back TEIDs, and whose. */
module TeidRelease {
  import opened Base
  import opened RuleTables
  import opened Resources
  import opened PdrRecords
  import opened Rules
  import opened SessionSpec
  import opened SessionLemmas
  import W = World
  import opened Runs
  import opened Restore
  import Ownership

  /** Every TEID booked under one SEID joins the queue. */
  lemma ReleaseFreesRow(env: Env, s: Shared, seid: nat)
    ensures var t := ReleaseSession(env, s, seid).teids;
      && seid !in t.busy
      && (forall k :: k in Row(s.teids, seid) ==> Row(s.teids, seid)[k] in t.free)
      && (forall r :: r != seid ==> Row(t, r) == Row(s.teids, r))
  {
    var row := Row(s.teids, seid);
    var order := env.order(s.clock, row.Keys);
    forall k | k in row ensures row[k] in ReleaseTeids(s.teids, seid, order).free {
      assert k in row.Keys && k in order;
      var i :| 0 <= i < |order| && order[i] == k;
      var released := InOrder(row, order);
      assert released[i] == row[k] && row[k] in released;
      assert ReleaseTeids(s.teids, seid, order).free == s.teids.free + released;
    }
  }

  /**
   * Removing one PDR that has a TEID frees every TEID booked for the session's peer, including
   * those its remaining PDRs still use.
   */
  lemma RemovePdrFreesAll(env: Env, c: Ctx, id: nat)
    requires id in c.sess.pdrs && c.sess.pdrs[id].teid != 0 && Apply(env, c, RemovePdr(Some(id))).ok
    ensures var d := Apply(env, c, RemovePdr(Some(id))).state;
      && c.sess.remoteSeid !in d.shared.teids.busy
      && forall k :: k in Row(c.shared.teids, c.sess.remoteSeid) ==>
           Row(c.shared.teids, c.sess.remoteSeid)[k] in d.shared.teids.free
  {
    var p := c.sess.pdrs[id];
    var dropped := DropKey(env, c.(sess := c.sess.(pdrs := c.sess.pdrs - {id})), p).state;
    ReleaseFreesRow(env, dropped.shared, c.sess.remoteSeid);
  }

  /**
   * Removing a PDR keeps the TEIDs booked for the session's peer exactly when the PDR has none
   * itself: with one, every TEID of the peer joins the queue, those of the remaining PDRs included,
   * and can be handed out again while they still use it.
   */
  lemma RemovePdrKeepsTeidsIff(env: Env, c: Ctx, id: nat, k: nat, n: nat)
    requires Distinct(c.shared.teids, n)
    requires id in c.sess.pdrs && Apply(env, c, RemovePdr(Some(id))).ok && k in Row(c.shared.teids, c.sess.remoteSeid)
    ensures var d := Apply(env, c, RemovePdr(Some(id))).state;
      && (k in Row(d.shared.teids, c.sess.remoteSeid) <==> c.sess.pdrs[id].teid == 0)
      && (Row(c.shared.teids, c.sess.remoteSeid)[k] in d.shared.teids.free <==> c.sess.pdrs[id].teid != 0)
      && d.sess == c.sess.(pdrs := c.sess.pdrs - {id})
  {
    if c.sess.pdrs[id].teid != 0 { RemovePdrFreesAll(env, c, id); }
  }

  lemma {:induction false} DeletePdrsKeepRows(env: Env, c: Ctx, order: seq<nat>, r: nat)
    requires (forall k :: k in order ==> k in c.sess.pdrs) && r != c.sess.remoteSeid
    ensures Row(W.DeletePdrs(env, c, order).state.shared.teids, r) == Row(c.shared.teids, r)
    decreases order
  {
    if order != [] {
      var p := c.sess.pdrs[order[0]];
      var first := DeletePdr(env, c, p);
      ReleaseFreesRow(env, DropKey(env, c, p).state.shared, c.sess.remoteSeid);
      if first.ok { DeletePdrsKeepRows(env, first.state, order[1..], r); }
    }
  }

  /**
   * TEIDs are booked under the peer's SEID, but an accepted deletion also releases what is booked
   * under the local SEID of the request.  So the TEIDs of another peer SEID survive the deletion
   * exactly when that SEID is not, as a number, the local SEID deleted.
   */
  lemma OtherPeersTeidsKeptIff(env: Env, w: State, addr: string, seid: nat, r: nat)
    requires W.Delete(env, w, addr, seid).response.cause == W.Accepted
    requires r != w.sessions[W.SessKey(addr, seid)].remoteSeid && Row(w.shared.teids, r) != map[]
    ensures Row(W.Delete(env, w, addr, seid).state.shared.teids, r) == Row(w.shared.teids, r) <==> r != seid
  {
    var sess := w.sessions[W.SessKey(addr, seid)];
    var c := W.Start(W.Tick(w.shared), sess);
    DeletePdrsKeepRows(env, c, env.order(w.shared.clock, sess.pdrs.Keys), r);
    var t := W.Teardown(env, w.shared, sess).state.0;
    TeardownPdrPart(env, w.shared, sess);
    ReleaseFreesRow(env, t.(ips := ReleaseIp(t.ips, seid)), seid);
  }

  // ---------------------------------------------------------------- a session that changes its peer SEID

  lemma ExtractKeepsRow(env: Env, c: Ctx, pdr: PdrIE, base: SPdr, r: nat)
    requires ExtractPdr(env, c, pdr, base).Ok? && r != c.sess.remoteSeid
    ensures Row(ExtractPdr(env, c, pdr, base).value.0.shared.teids, r) == Row(c.shared.teids, r)
  {
  }

  /** From c to d the TEIDs booked under r, and the session's peer SEID, stay as they are. */
  ghost predicate KeepsRow(c: Ctx, d: Ctx, r: nat) {
    Row(d.shared.teids, r) == Row(c.shared.teids, r) && d.sess.remoteSeid == c.sess.remoteSeid
  }

  lemma InstallKeepsRow(env: Env, c: Ctx, pdr: PdrIE, base: SPdr, id: nat, r: nat)
    requires ExtractPdr(env, c, pdr, base).Ok? && r != c.sess.remoteSeid
    ensures var (e, p) := ExtractPdr(env, c, pdr, base).value; KeepsRow(c, StorePdr(env, e, id, p).state, r)
  {
    ExtractKeepsRow(env, c, pdr, base, r);
    ExtractSameRules(env, c, pdr, base);
  }

  lemma RemoveKeepsRow(env: Env, c: Ctx, id: Option<nat>, r: nat)
    requires r != c.sess.remoteSeid
    ensures KeepsRow(c, Apply(env, c, RemovePdr(id)).state, r)
  {
    var key := id.GetOr(0);
    if key in c.sess.pdrs {
      var less := c.(sess := c.sess.(pdrs := c.sess.pdrs - {key}));
      ReleaseFreesRow(env, DropKey(env, less, c.sess.pdrs[key]).state.shared, c.sess.remoteSeid);
    }
  }

  lemma RuleIesKeepRow(env: Env, c: Ctx, ie: Ie, r: nat)
    requires !ie.CreatePdr? && !ie.UpdatePdr? && !ie.RemovePdr?
    ensures KeepsRow(c, Apply(env, c, ie).state, r)
  {
  }

  lemma CreatePdrKeepsRow(env: Env, c: Ctx, pdr: PdrIE, r: nat)
    requires r != c.sess.remoteSeid
    ensures KeepsRow(c, Apply(env, c, CreatePdr(pdr)).state, r)
  {
    if pdr.id.Some? && ExtractPdr(env, c, pdr, ZERO_PDR.(pdrId := pdr.id.value)).Ok? {
      InstallKeepsRow(env, c, pdr, ZERO_PDR.(pdrId := pdr.id.value), pdr.id.value, r);
    }
  }

  lemma UpdatePdrKeepsRow(env: Env, c: Ctx, pdr: PdrIE, r: nat)
    requires r != c.sess.remoteSeid
    ensures KeepsRow(c, Apply(env, c, UpdatePdr(pdr)).state, r)
  {
    if pdr.id.Some? && ExtractPdr(env, c, pdr, Lookup(c.sess.pdrs, pdr.id.value, ZERO_PDR)).Ok? {
      InstallKeepsRow(env, c, pdr, Lookup(c.sess.pdrs, pdr.id.value, ZERO_PDR), pdr.id.value, r);
    }
  }

  /** An IE books and releases TEIDs under the session's present peer SEID only. */
  lemma ApplyKeepsRow(env: Env, c: Ctx, ie: Ie, r: nat)
    requires r != c.sess.remoteSeid
    ensures KeepsRow(c, Apply(env, c, ie).state, r)
  {
    match ie {
      case CreatePdr(pdr) => CreatePdrKeepsRow(env, c, pdr, r);
      case UpdatePdr(pdr) => UpdatePdrKeepsRow(env, c, pdr, r);
      case RemovePdr(id) => RemoveKeepsRow(env, c, id, r);
      case _ => RuleIesKeepRow(env, c, ie, r);
    }
  }

  lemma {:induction false} ApplyAllKeepsRow(env: Env, c: Ctx, ies: seq<Ie>, r: nat)
    requires r != c.sess.remoteSeid
    ensures KeepsRow(c, ApplyAll(env, c, ies).state, r)
    decreases ies
  {
    if ies == [] {
    } else {
      ApplyKeepsRow(env, c, ies[0], r);
      var first := Apply(env, c, ies[0]);
      if first.ok { ApplyAllKeepsRow(env, first.state, ies[1..], r); }
    }
  }

  /**
   * A modification that moves the session to another peer SEID leaves its TEIDs booked under the old
   * one.  The session's deletion then leaves them there, lost to the pool, exactly when the old SEID is
   * not, as a number, the session's local SEID.
   */
  lemma MovedSessionLosesTeidsIff(env: Env, w: State, addr: string, seid: nat, mod: W.ModifyReq)
    requires addr in w.next && W.SessKey(addr, seid) in w.sessions
    requires var peer := w.sessions[W.SessKey(addr, seid)].remoteSeid;
      mod.cpSeid.Some? && mod.cpSeid.value != peer && Row(w.shared.teids, peer) != map[]
    requires W.Delete(env, W.Modify(env, w, addr, seid, mod).state, addr, seid).response.cause == W.Accepted
    ensures var peer := w.sessions[W.SessKey(addr, seid)].remoteSeid;
      var v := W.Modify(env, w, addr, seid, mod).state;
      && Row(v.shared.teids, peer) == Row(w.shared.teids, peer)
      && (Row(W.Delete(env, v, addr, seid).state.shared.teids, peer) == Row(w.shared.teids, peer) <==> peer != seid)
  {
    var sess := w.sessions[W.SessKey(addr, seid)];
    var c := W.Start(w.shared, W.Rehomed(sess, mod));
    ApplyAllKeepsRow(env, c, W.ModifyIes(mod), sess.remoteSeid);
    OtherPeersTeidsKeptIff(env, W.Modify(env, w, addr, seid, mod).state, addr, seid, sess.remoteSeid);
  }

  // ---------------------------------------------------------------- unknown rule ids

  lemma RemoveUnknownFarFreesZero(env: Env, w: State, addr: string, seid: nat, id: nat, mod: W.ModifyReq)
    requires addr in w.next && w.shared.far.slots != []
    requires W.SessKey(addr, seid) in w.sessions && id !in w.sessions[W.SessKey(addr, seid)].fars
    requires mod.cpSeid == None && W.ModifyIes(mod) == [RemoveFar(Some(id))]
    ensures var v := W.Modify(env, w, addr, seid, mod).state;
      Fars(v.sessions) == Fars(w.sessions) && v.shared.far.free == w.shared.far.free + {0}
      && |v.shared.far.slots| == |w.shared.far.slots|
  {
    var key := W.SessKey(addr, seid);
    var c := W.Start(w.shared, w.sessions[key]);
    ApplyOne(env, c, RemoveFar(Some(id)));
    UnknownFarRemoved(env, c, id);
    var d := Apply(env, c, RemoveFar(Some(id))).state;
    SameFars(w.sessions, key, d.sess);
  }

  lemma SameFars(sessions: map<W.SessKey, SessionRec>, key: W.SessKey, sess: SessionRec)
    requires key in sessions && sess.fars == sessions[key].fars
    ensures Fars(sessions[key := sess]) == Fars(sessions)
  {
    SessionUpdated(sessions, key, sess);
    assert Fars(sessions)[key := sess.fars] == Fars(sessions);
  }

  lemma UnknownFarRemoved(env: Env, c: Ctx, id: nat)
    requires id !in c.sess.fars && c.shared.far.slots != []
    ensures var d := Apply(env, c, RemoveFar(Some(id))).state;
      && d.sess.fars == c.sess.fars && d.shared.far.free == c.shared.far.free + {0}
      && |d.shared.far.slots| == |c.shared.far.slots|
  {
    assert c.sess.fars - {id} == c.sess.fars;
  }

  lemma ApplyOne(env: Env, c: Ctx, ie: Ie)
    ensures ApplyAll(env, c, [ie]).state == Apply(env, c, ie).state
  {
    assert [ie][1..] == [];
  }

  /**
   * A modification that removes a FAR the session does not have frees global id 0.  The one-owner
   * property survives it exactly when no session holds id 0.
   */
  lemma RemoveUnknownFarIff(env: Env, w: State, addr: string, seid: nat, id: nat, mod: W.ModifyReq)
    requires Inv(w.shared, w.sessions) && addr in w.next && w.shared.far.slots != []
    requires W.SessKey(addr, seid) in w.sessions && id !in w.sessions[W.SessKey(addr, seid)].fars
    requires mod.cpSeid == None && W.ModifyIes(mod) == [RemoveFar(Some(id))]
    ensures var v := W.Modify(env, w, addr, seid, mod).state;
      Ownership.OwnedOnce(Fars(v.sessions), v.shared.far)
      <==> forall k, i :: k in w.sessions && i in w.sessions[k].fars ==> w.sessions[k].fars[i].globalId != 0
  {
    var v := W.Modify(env, w, addr, seid, mod).state;
    RemoveUnknownFarFreesZero(env, w, addr, seid, id, mod);
    if k, i :| k in w.sessions && i in w.sessions[k].fars && w.sessions[k].fars[i].globalId == 0 {
      assert Fars(v.sessions)[k][i].globalId in v.shared.far.free;
    } else {
      forall k, i | k in Fars(v.sessions) && i in Fars(v.sessions)[k]
        ensures Fars(v.sessions)[k][i].globalId !in v.shared.far.free
      {
        assert Fars(w.sessions)[k][i].globalId !in w.shared.far.free;
      }
    }
  }
}
