/**
 * Undoing an establishment: deleting the session again gives back everything it took, under
 * conditions on the request and the pools; for the PDR tables, exactly under one of them.
 */
module Restore {
  import opened Base
  import opened RuleTables
  import opened Resources
  import opened PdrRecords
  import opened Rules
  import opened SessionSpec
  import opened SessionLemmas
  import W = World
  import opened Ownership
  import opened Runs
  import opened Isolation

  // ---------------------------------------------------------------- names of the rules a request creates

  datatype Name = FarName(id: nat) | QerName(id: nat) | UrrName(id: nat) | PdrName(id: nat)

  predicate Creates(ie: Ie) { ie.CreateFar? || ie.CreateQer? || ie.CreateUrr? || ie.CreatePdr? }

  function NameOf(ie: Ie): Name
    requires Creates(ie)
  {
    match ie
    case CreateFar(far) => FarName(far.id.GetOr(0))
    case CreateQer(qer) => QerName(qer.id.GetOr(0))
    case CreateUrr(urr) => UrrName(urr.id.GetOr(0))
    case CreatePdr(pdr) => PdrName(pdr.id.GetOr(0))
  }

  ghost predicate Has(sess: SessionRec, n: Name) {
    match n
    case FarName(id) => id in sess.fars
    case QerName(id) => id in sess.qers
    case UrrName(id) => id in sess.urrs
    case PdrName(id) => id in sess.pdrs
  }

  /** Create IEs with pairwise different ids, none of them in use in the session. */
  ghost predicate FreshNames(sess: SessionRec, ies: seq<Ie>) {
    && (forall i :: 0 <= i < |ies| ==> Creates(ies[i]) && !Has(sess, NameOf(ies[i])))
    && (forall i, j :: 0 <= i < j < |ies| ==> NameOf(ies[i]) != NameOf(ies[j]))
  }

  // ---------------------------------------------------------------- what creation leaves reversible

  /** The session's ids came out of the free set; only their slots changed. */
  ghost predicate Grown<T>(p: Pool<T>, b: Bank<T>) {
    && p.free == b.pool.free + Held(b.rules)
    && |b.pool.slots| == |p.slots|
    && (forall g :: 0 <= g < |p.slots| && g !in Held(b.rules) ==> b.pool.slots[g] == p.slots[g])
  }

  lemma CreateGrows<T>(p: Pool<T>, b: Bank<T>, id: nat, info: T)
    requires Grown(p, b) && id !in b.rules && CreateRule(b, id, info).ok
    ensures Grown(p, CreateRule(b, id, info).state)
  {
    var c := CreateRule(b, id, info).state;
    var g := c.rules[id].globalId;
    assert Held(c.rules) == Held(b.rules) + {g} by {
      forall i | i in b.rules ensures b.rules[i].globalId in Held(c.rules) { assert c.rules[i] == b.rules[i]; }
      assert c.rules[id].globalId in Held(c.rules);
    }
  }

  /** q is p with the slots of ids cleared. */
  ghost predicate Cleared<T>(p: Pool<T>, q: Pool<T>, ids: set<nat>, zero: T) {
    && q.free == p.free && |q.slots| == |p.slots|
    && forall g :: 0 <= g < |p.slots| ==> q.slots[g] == if g in ids then zero else p.slots[g]
  }

  /** The slots of ids were clear. */
  ghost predicate WereClear<T>(p: Pool<T>, ids: set<nat>, zero: T) {
    forall g :: g in ids && g < |p.slots| ==> p.slots[g] == zero
  }

  /**
   * Dropping all of a grown session's slots gives the free ids back and clears those slots, so the
   * pool is the original one exactly when they had been clear.
   */
  lemma DropRestoresIff<T>(p: Pool<T>, b: Bank<T>, q: Pool<T>, zero: T)
    requires Grown(p, b) && Dropped(b.pool, q, Held(b.rules), zero)
    ensures Cleared(p, q, Held(b.rules), zero)
    ensures q == p <==> WereClear(p, Held(b.rules), zero)
  {
    if WereClear(p, Held(b.rules), zero) { assert q.slots == p.slots; }
  }

  lemma FreeWereClear<T>(p: Pool<T>, b: Bank<T>, zero: T)
    requires Grown(p, b) && Clean(p, zero)
    ensures WereClear(p, Held(b.rules), zero)
  {
  }

  /** PDR keys: those the session carries are stored, all others are as before. */
  ghost predicate PdrsGrown(m: map<PdrKey, PdrRecord>, c: Ctx) {
    && (forall k :: k in Carried(c.sess) ==> k in c.shared.pdrs)
    && (forall k :: k !in Carried(c.sess) ==> SameAt(m, c.shared.pdrs, k))
  }

  /** TEIDs: a prefix of the queue moved into the peer's row, in the order of keys. */
  ghost predicate TeidsMoved(p: TeidPool, q: TeidPool, remote: nat, keys: seq<nat>) {
    && Enumerates(keys, Row(q, remote).Keys)
    && p.free == InOrder(Row(q, remote), keys) + q.free
    && q.busy == if keys == [] then p.busy else p.busy[remote := Row(q, remote)]
  }

  /** Each TEID of the row stands in the session's PDR it was allocated for. */
  ghost predicate RowInSession(row: map<nat, nat>, pdrs: map<nat, SPdr>) {
    forall k :: k in row ==> k in pdrs && pdrs[k].teid == row[k]
  }

  ghost predicate TeidsGrown(p: TeidPool, c: Ctx) {
    && (exists keys :: TeidsMoved(p, c.shared.teids, c.sess.remoteSeid, keys))
    && RowInSession(Row(c.shared.teids, c.sess.remoteSeid), c.sess.pdrs)
  }

  ghost predicate AllGrown(s: Shared, c: Ctx) {
    && Grown(s.far, FarBank(c)) && Grown(s.qer, QerBank(c)) && Grown(s.urr, UrrBank(c))
    && PdrsGrown(s.pdrs, c)
    && TeidsGrown(s.teids, c)
  }

  lemma {:induction false} InOrderExtends(row: map<nat, nat>, more: map<nat, nat>, order: seq<nat>)
    requires forall k :: k in order ==> k in row && k in more && more[k] == row[k]
    ensures InOrder(more, order) == InOrder(row, order)
  {
    if order != [] { InOrderExtends(row, more, order[1..]); }
  }

  lemma InOrderConcat(row: map<nat, nat>, a: seq<nat>, b: seq<nat>)
    requires forall k :: k in a + b ==> k in row
    requires forall k :: k in a ==> k in row
    requires forall k :: k in b ==> k in row
    ensures InOrder(row, a + b) == InOrder(row, a) + InOrder(row, b)
  {
    var all, both := InOrder(row, a + b), InOrder(row, a) + InOrder(row, b);
    assert |all| == |both| == |a| + |b|;
    forall i | 0 <= i < |all| ensures all[i] == both[i] {
      assert all[i] == row[(a + b)[i]];
    }
  }

  lemma EnumerateOneMore(keys: seq<nat>, s: set<nat>, id: nat)
    requires Enumerates(keys, s) && id !in s
    ensures Enumerates(keys + [id], s + {id})
  {
    forall i, j | 0 <= i < j < |keys + [id]| ensures (keys + [id])[i] != (keys + [id])[j] {
      if j == |keys| { assert keys[i] in keys; }
    }
  }

  lemma RowGrows(row: map<nat, nat>, keys: seq<nat>, id: nat, teid: nat)
    requires Enumerates(keys, row.Keys) && id !in row
    ensures Enumerates(keys + [id], row[id := teid].Keys)
    ensures InOrder(row[id := teid], keys + [id]) == InOrder(row, keys) + [teid]
  {
    var more := row[id := teid];
    EnumerateOneMore(keys, row.Keys, id);
    assert more.Keys == row.Keys + {id};
    InOrderExtends(row, more, keys);
    InOrderConcat(more, keys, [id]);
    assert InOrder(more, [id]) == [teid];
  }

  /** Handing out the head of the queue. */
  lemma AllocateMoves(p: TeidPool, q: TeidPool, remote: nat, keys: seq<nat>, id: nat)
    requires TeidsMoved(p, q, remote, keys) && q.free != [] && id !in Row(q, remote)
    ensures TeidsMoved(p, AllocateTeid(q, remote, id).value.0, remote, keys + [id])
  {
    var row := Row(q, remote);
    var r := AllocateTeid(q, remote, id).value.0;
    var more := Row(r, remote);
    assert more == row[id := q.free[0]];
    RowGrows(row, keys, id, q.free[0]);
    assert p.free == InOrder(more, keys + [id]) + r.free by {
      HeadMoves(InOrder(row, keys), q.free);
    }
    assert r.busy == p.busy[remote := more] by {
      SetTwice(p.busy, remote, row, more);
    }
  }

  lemma SetTwice(m: map<nat, map<nat, nat>>, k: nat, v: map<nat, nat>, w: map<nat, nat>)
    ensures m[k := v][k := w] == m[k := w]
  {
  }

  lemma HeadMoves(a: seq<nat>, b: seq<nat>)
    requires b != []
    ensures a + b == (a + [b[0]]) + b[1..]
  {
  }

  /** Extracting a fresh PDR either leaves the TEID pool alone or takes the head of its queue. */
  lemma ExtractTeids(env: Env, c: Ctx, pdr: PdrIE, id: nat)
    requires ExtractPdr(env, c, pdr, ZERO_PDR.(pdrId := id)).Ok?
    ensures var (d, p) := ExtractPdr(env, c, pdr, ZERO_PDR.(pdrId := id)).value;
      || d.shared.teids == c.shared.teids
      || (c.shared.teids.free != [] && p.teid == c.shared.teids.free[0]
          && d.shared.teids == AllocateTeid(c.shared.teids, c.sess.remoteSeid, id).value.0)
  {
  }

  lemma StorePdrCarries(sess: SessionRec, id: nat, p: SPdr)
    requires id !in sess.pdrs
    ensures Carried(sess.(pdrs := sess.pdrs[id := p])) == Carried(sess) + {KeyOf(p)}
  {
    var after := sess.(pdrs := sess.pdrs[id := p]);
    forall i | i in sess.pdrs ensures KeyOf(sess.pdrs[i]) in Carried(after) { assert after.pdrs[i] == sess.pdrs[i]; }
    assert after.pdrs[id] == p;
  }

  lemma StoreGrowsPdrs(env: Env, m: map<PdrKey, PdrRecord>, c: Ctx, id: nat, p: SPdr)
    requires PdrsGrown(m, c) && id !in c.sess.pdrs && StorePdr(env, c, id, p).ok
    ensures PdrsGrown(m, StorePdr(env, c, id, p).state)
  {
    StorePdrCarries(c.sess, id, p);
  }

  /** The TEID a created PDR took, if any, is now in its row. */
  lemma CreateGrowsTeids(pool: TeidPool, teids: TeidPool, sess: SessionRec, id: nat, p: SPdr, after: TeidPool)
    requires (exists keys :: TeidsMoved(pool, teids, sess.remoteSeid, keys)) && id !in sess.pdrs
    requires RowInSession(Row(teids, sess.remoteSeid), sess.pdrs)
    requires after == teids || (teids.free != [] && p.teid == teids.free[0]
                                && after == AllocateTeid(teids, sess.remoteSeid, id).value.0)
    ensures exists keys :: TeidsMoved(pool, after, sess.remoteSeid, keys)
    ensures RowInSession(Row(after, sess.remoteSeid), sess.pdrs[id := p])
  {
    var keys :| TeidsMoved(pool, teids, sess.remoteSeid, keys);
    if after != teids {
      AllocateMoves(pool, teids, sess.remoteSeid, keys, id);
    }
  }

  lemma CreatePdrGrown(env: Env, s: Shared, c: Ctx, pdr: PdrIE)
    requires AllGrown(s, c) && pdr.id.GetOr(0) !in c.sess.pdrs && Apply(env, c, CreatePdr(pdr)).ok
    ensures AllGrown(s, Apply(env, c, CreatePdr(pdr)).state)
  {
    var id := pdr.id.value;
    var (e, p) := ExtractPdr(env, c, pdr, ZERO_PDR.(pdrId := id)).value;
    ApplyPdrSameRules(env, c, CreatePdr(pdr));
    ExtractSameRules(env, c, pdr, ZERO_PDR.(pdrId := id));
    assert PdrsGrown(s.pdrs, e);
    StoreGrowsPdrs(env, s.pdrs, e, id, p);
    ExtractTeids(env, c, pdr, id);
    CreateGrowsTeids(s.teids, c.shared.teids, c.sess, id, p, e.shared.teids);
  }

  lemma CreateGrown(env: Env, s: Shared, c: Ctx, ie: Ie)
    requires AllGrown(s, c) && Creates(ie) && !Has(c.sess, NameOf(ie)) && Apply(env, c, ie).ok
    ensures var d := Apply(env, c, ie).state;
      && AllGrown(s, d) && d.sess.remoteSeid == c.sess.remoteSeid
      && (forall n :: Has(d.sess, n) ==> Has(c.sess, n) || n == NameOf(ie))
  {
    match ie {
      case CreateFar(far) => CreateGrows(s.far, FarBank(c), far.id.GetOr(0), ComposeFarInfo(far, ZERO_FAR).value);
      case CreateQer(qer) => CreateGrows(s.qer, QerBank(c), qer.id.value, UpdateQerInfo(ZERO_QER, qer));
      case CreateUrr(urr) => CreateGrows(s.urr, UrrBank(c), urr.id.value, UpdateUrrInfo(ZERO_URR, urr));
      case CreatePdr(pdr) =>
        CreatePdrGrown(env, s, c, pdr);
        ApplyPdrSameRules(env, c, ie);
        ExtractSameRules(env, c, pdr, ZERO_PDR.(pdrId := pdr.id.value));
    }
  }

  lemma {:induction false} CreatesGrown(env: Env, s: Shared, c: Ctx, ies: seq<Ie>)
    requires AllGrown(s, c) && FreshNames(c.sess, ies) && ApplyAll(env, c, ies).ok
    ensures var d := ApplyAll(env, c, ies).state; AllGrown(s, d) && d.sess.remoteSeid == c.sess.remoteSeid
    decreases ies
  {
    if ies != [] {
      CreateGrown(env, s, c, ies[0]);
      CreatesGrown(env, s, Apply(env, c, ies[0]).state, ies[1..]);
    }
  }

  // ---------------------------------------------------------------- deleting the PDRs

  /** Two of the session's uplink PDRs have different TEIDs with the same low byte. */
  ghost predicate Congruent(sess: SessionRec) {
    exists i, j :: i in sess.pdrs && j in sess.pdrs && KeyOf(sess.pdrs[i]).Uplink? && KeyOf(sess.pdrs[j]).Uplink?
      && sess.pdrs[i].teid != sess.pdrs[j].teid && sess.pdrs[i].teid % 256 == sess.pdrs[j].teid % 256
  }

  /** A cached low byte means every uplink key with it is gone. */
  ghost predicate CachedAreGone(c: Ctx) {
    forall i :: i in c.sess.pdrs && KeyOf(c.sess.pdrs[i]).Uplink? && c.sess.pdrs[i].teid % 256 in c.cache ==>
      KeyOf(c.sess.pdrs[i]) !in c.shared.pdrs
  }

  /** Without congruent TEIDs, deletion removes the key of every PDR it visits. */
  lemma {:induction false} DeletePdrsRemoves(env: Env, c: Ctx, order: seq<nat>, k: nat)
    requires (forall id :: id in order ==> id in c.sess.pdrs) && !Congruent(c.sess) && CachedAreGone(c)
    requires W.DeletePdrs(env, c, order).ok && k in c.sess.pdrs
    requires k in order || KeyOf(c.sess.pdrs[k]) !in c.shared.pdrs
    ensures KeyOf(c.sess.pdrs[k]) !in W.DeletePdrs(env, c, order).state.shared.pdrs
    decreases order
  {
    if order != [] {
      var first := DeletePdr(env, c, c.sess.pdrs[order[0]]).state;
      assert first.sess == c.sess;
      assert CachedAreGone(first) by {
        forall i | i in c.sess.pdrs && KeyOf(c.sess.pdrs[i]).Uplink? && c.sess.pdrs[i].teid % 256 in first.cache
          ensures KeyOf(c.sess.pdrs[i]) !in first.shared.pdrs
        {
          if c.sess.pdrs[i].teid % 256 !in c.cache {
            assert c.sess.pdrs[i].teid == c.sess.pdrs[order[0]].teid;
          }
        }
      }
      assert k in order[1..] || KeyOf(c.sess.pdrs[k]) !in first.shared.pdrs;
      DeletePdrsRemoves(env, first, order[1..], k);
    }
  }

  /** So it removes every key the session carries. */
  lemma DeletePdrsRemovesAll(env: Env, c: Ctx, order: seq<nat>)
    requires c.cache == map[] && Enumerates(order, c.sess.pdrs.Keys)
    requires !Congruent(c.sess) && W.DeletePdrs(env, c, order).ok
    ensures forall k :: k in Carried(c.sess) ==> k !in W.DeletePdrs(env, c, order).state.shared.pdrs
  {
    forall k | k in Carried(c.sess) ensures k !in W.DeletePdrs(env, c, order).state.shared.pdrs {
      var id :| id in c.sess.pdrs && KeyOf(c.sess.pdrs[id]) == k;
      DeletePdrsRemoves(env, c, order, id);
    }
  }

  /** Of two congruent TEIDs, deletion leaves one behind. */
  lemma {:induction false} DeletePdrsLeavesOne(env: Env, c: Ctx, order: seq<nat>, t: nat, u: nat)
    requires (forall id :: id in order ==> id in c.sess.pdrs) && t != u && t % 256 == u % 256
    requires Uplink(t) in c.shared.pdrs || Uplink(u) in c.shared.pdrs
    requires t % 256 !in c.cache ==> Uplink(t) in c.shared.pdrs && Uplink(u) in c.shared.pdrs
    ensures var d := W.DeletePdrs(env, c, order).state; Uplink(t) in d.shared.pdrs || Uplink(u) in d.shared.pdrs
    decreases order
  {
    if order != [] {
      var first := DeletePdr(env, c, c.sess.pdrs[order[0]]);
      if first.ok { DeletePdrsLeavesOne(env, first.state, order[1..], t, u); }
    }
  }

  // ---------------------------------------------------------------- TEIDs during deletion

  lemma ReleaseAbsent(p: TeidPool, seid: nat, order: seq<nat>)
    requires seid !in p.busy && Enumerates(order, Row(p, seid).Keys)
    ensures ReleaseTeids(p, seid, order) == p
  {
  }

  /** Deletion either leaves the TEID pool alone or releases the peer's row once. */
  lemma {:induction false} DeletePdrsTeids(env: Env, c: Ctx, order: seq<nat>)
    requires forall id :: id in order ==> id in c.sess.pdrs
    ensures var p, q := c.shared.teids, W.DeletePdrs(env, c, order).state.shared.teids;
      && (q == p
          || exists o :: Enumerates(o, Row(p, c.sess.remoteSeid).Keys) && q == ReleaseTeids(p, c.sess.remoteSeid, o))
      && (W.DeletePdrs(env, c, order).ok && (exists id :: id in order && c.sess.pdrs[id].teid != 0) ==>
            c.sess.remoteSeid !in q.busy)
    decreases order
  {
    if order != [] {
      var remote := c.sess.remoteSeid;
      var pdr := c.sess.pdrs[order[0]];
      var first := DeletePdr(env, c, pdr);
      if first.ok {
        DeletePdrsTeids(env, first.state, order[1..]);
        if pdr.teid != 0 {
          assert remote !in first.state.shared.teids.busy;
          var q := W.DeletePdrs(env, first.state, order[1..]).state.shared.teids;
          assert q == first.state.shared.teids;
        } else {
          forall id | id in order && c.sess.pdrs[id].teid != 0 ensures id in order[1..] { assert id != order[0]; }
        }
      }
    }
  }

  lemma WithoutIndex(s: seq<nat>, i: nat)
    requires i < |s|
    ensures multiset(s) == multiset(s[..i] + s[i + 1..]) + multiset{s[i]}
  {
    assert s == s[..i] + [s[i]] + s[i + 1..];
  }

  lemma InOrderWithout(row: map<nat, nat>, b: seq<nat>, i: nat)
    requires i < |b| && (forall k :: k in b ==> k in row) && (forall k :: k in b[..i] + b[i + 1..] ==> k in row)
    ensures InOrder(row, b[..i] + b[i + 1..]) == InOrder(row, b)[..i] + InOrder(row, b)[i + 1..]
  {
  }

  /** Leaving one key out of the order leaves out its TEID. */
  lemma InOrderDrop(row: map<nat, nat>, b: seq<nat>, i: nat)
    requires i < |b| && (forall k :: k in b ==> k in row) && (forall k :: k in b[..i] + b[i + 1..] ==> k in row)
    ensures multiset(InOrder(row, b)) == multiset(InOrder(row, b[..i] + b[i + 1..])) + multiset{row[b[i]]}
  {
    InOrderWithout(row, b, i);
    WithoutIndex(InOrder(row, b), i);
  }

  /** In whatever order the row is visited, the same TEIDs come back. */
  lemma {:induction false} SameRowSameMultiset(row: map<nat, nat>, a: seq<nat>, b: seq<nat>)
    requires Enumerates(a, row.Keys) && Enumerates(b, row.Keys)
    ensures multiset(InOrder(row, a)) == multiset(InOrder(row, b))
    decreases |a|
  {
    if a == [] {
      assert b == [] by { if b != [] { NothingListed(b, row.Keys, a); } }
    } else {
      var i := Find(b, row.Keys, a[0]);
      var less := row - {a[0]};
      var c := b[..i] + b[i + 1..];
      DropHead(a, row.Keys);
      DropIndex(b, row.Keys, i);
      assert less.Keys == row.Keys - {a[0]};
      SameRowSameMultiset(less, a[1..], c);
      InOrderExtends(less, row, a[1..]);
      InOrderExtends(less, row, c);
      InOrderDrop(row, b, i);
      InOrderHead(row, a);
    }
  }

  lemma InOrderHead(row: map<nat, nat>, a: seq<nat>)
    requires a != [] && (forall k :: k in a ==> k in row) && (forall k :: k in a[1..] ==> k in row)
    ensures multiset(InOrder(row, a)) == multiset(InOrder(row, a[1..])) + multiset{row[a[0]]}
  {
    assert InOrder(row, a) == [row[a[0]]] + InOrder(row, a[1..]);
  }

  lemma NothingListed(b: seq<nat>, s: set<nat>, a: seq<nat>)
    requires b != [] && Enumerates(b, s) && Enumerates(a, s)
    ensures a != []
  {
    assert b[0] in a;
  }

  lemma Find(b: seq<nat>, s: set<nat>, k: nat) returns (i: nat)
    requires Enumerates(b, s) && k in s
    ensures i < |b| && b[i] == k
  {
    i :| 0 <= i < |b| && b[i] == k;
  }

  lemma DropIndex(b: seq<nat>, s: set<nat>, i: nat)
    requires Enumerates(b, s) && i < |b|
    ensures Enumerates(b[..i] + b[i + 1..], s - {b[i]})
  {
    var c := b[..i] + b[i + 1..];
    forall k | k in s - {b[i]} ensures k in c {
      assert k in b;
      var j :| 0 <= j < |b| && b[j] == k;
      assert c[if j < i then j else j - 1] == k;
    }
  }

  lemma DropHead(a: seq<nat>, s: set<nat>)
    requires Enumerates(a, s) && a != []
    ensures Enumerates(a[1..], s - {a[0]})
  {
    DropIndex(a, s, 0);
    assert a[..0] + a[1..] == a[1..];
  }

  // ---------------------------------------------------------------- the round trip

  /** The pools are in order, and no TEID is 0. */
  ghost predicate Ready(w: State) {
    && Inv(w.shared, w.sessions)
    && forall t :: t in w.shared.teids.free ==> t != 0
  }

  /** The peer's SEID and the new local SEID hold no TEIDs, and the local SEID is unused. */
  ghost predicate Unclaimed(w: State, addr: string, est: W.EstablishReq) {
    && addr in w.next && est.cpSeid.Some?
    && est.cpSeid.value !in w.shared.teids.busy && W.NextSeid(w.next[addr]) !in w.shared.teids.busy
    && W.SessKey(addr, W.NextSeid(w.next[addr])) !in w.sessions
  }

  lemma StartGrown(s: Shared, sess: SessionRec)
    requires sess.fars == map[] && sess.qers == map[] && sess.urrs == map[] && sess.pdrs == map[]
    requires sess.remoteSeid !in s.teids.busy
    ensures AllGrown(s, W.Start(s, sess))
  {
    assert TeidsMoved(s.teids, s.teids, sess.remoteSeid, []);
  }

  /** The session an accepted establishment stores, and the tables it leaves, can be undone. */
  lemma EstablishGrows(env: Env, w: State, addr: string, est: W.EstablishReq)
    requires W.Establish(env, w, addr, est).response.cause == W.Accepted
    requires Unclaimed(w, addr, est) && FreshNames(W.NewSession(0, 0), W.EstablishIes(est))
    ensures var v := W.Establish(env, w, addr, est).state;
      AllGrown(w.shared, W.Start(v.shared, v.sessions[W.SessKey(addr, W.NextSeid(w.next[addr]))]))
      && v.sessions[W.SessKey(addr, W.NextSeid(w.next[addr]))].remoteSeid == est.cpSeid.value
  {
    var sess := W.NewSession(W.NextSeid(w.next[addr]), est.cpSeid.value);
    var c := W.Start(w.shared, sess);
    StartGrown(w.shared, sess);
    assert FreshNames(sess, W.EstablishIes(est));
    CreatesGrown(env, w.shared, c, W.EstablishIes(est));
    var d := ApplyAll(env, c, W.EstablishIes(est)).state;
    assert TeidsGrown(w.shared.teids, W.Start(d.shared, d.sess));
  }

  /**
   * What the tear-down gives back: FARs and QERs as in w; of the URRs the free ids, and
   * every slot the session did not hold.  Its own URR slots come back cleared, which is how they were
   * exactly when no volume had been left in them.
   */
  ghost predicate PoolsBack(w: Shared, s: Shared, sess: SessionRec) {
    && s.far == w.far && s.qer == w.qer
    && Cleared(w.urr, s.urr, Held(sess.urrs), ZERO_URR)
    && (s.urr == w.urr <==> WereClear(w.urr, Held(sess.urrs), ZERO_URR))
  }

  lemma PoolsRestored(env: Env, w: State, s: Shared, sessions: map<W.SessKey, SessionRec>, key: W.SessKey)
    requires Ready(w) && Inv(s, sessions) && key in sessions
    requires AllGrown(w.shared, W.Start(s, sessions[key]))
    requires W.Teardown(env, s, sessions[key]).ok
    ensures PoolsBack(w.shared, W.Teardown(env, s, sessions[key]).state.0, sessions[key])
  {
    var c := W.Start(s, sessions[key]);
    var t := W.Teardown(env, s, sessions[key]).state.0;
    TeardownDrops(env, s, sessions, key);
    FreeWereClear(w.shared.far, FarBank(c), ZERO_FAR);
    FreeWereClear(w.shared.qer, QerBank(c), ZERO_QER);
    DropRestoresIff(w.shared.far, FarBank(c), t.far, ZERO_FAR);
    DropRestoresIff(w.shared.qer, QerBank(c), t.qer, ZERO_QER);
    DropRestoresIff(w.shared.urr, UrrBank(c), t.urr, ZERO_URR);
  }

  lemma CongruentLeavesOne(env: Env, m: map<PdrKey, PdrRecord>, c: Ctx, order: seq<nat>)
    requires PdrsGrown(m, c) && c.cache == map[] && (forall k :: k in Carried(c.sess) ==> k !in m)
    requires Enumerates(order, c.sess.pdrs.Keys) && Congruent(c.sess)
    ensures W.DeletePdrs(env, c, order).state.shared.pdrs != m
  {
    var i, j :| i in c.sess.pdrs && j in c.sess.pdrs && KeyOf(c.sess.pdrs[i]).Uplink? && KeyOf(c.sess.pdrs[j]).Uplink?
      && c.sess.pdrs[i].teid != c.sess.pdrs[j].teid && c.sess.pdrs[i].teid % 256 == c.sess.pdrs[j].teid % 256;
    assert KeyOf(c.sess.pdrs[i]) in Carried(c.sess) && KeyOf(c.sess.pdrs[j]) in Carried(c.sess);
    DeletePdrsLeavesOne(env, c, order, c.sess.pdrs[i].teid, c.sess.pdrs[j].teid);
  }

  lemma SameEverywhere(m: map<PdrKey, PdrRecord>, d: map<PdrKey, PdrRecord>)
    requires forall k :: SameAt(m, d, k)
    ensures d == m
  {
    forall k | k in d ensures k in m && d[k] == m[k] { assert SameAt(m, d, k); }
    forall k | k in m ensures k in d { assert SameAt(m, d, k); }
  }

  /** Deleting the PDRs brings the PDR tables back exactly when no two TEIDs are congruent. */
  lemma PdrTablesRestoredIff(env: Env, m: map<PdrKey, PdrRecord>, c: Ctx, order: seq<nat>)
    requires PdrsGrown(m, c) && c.cache == map[] && (forall k :: k in Carried(c.sess) ==> k !in m)
    requires Enumerates(order, c.sess.pdrs.Keys) && W.DeletePdrs(env, c, order).ok
    ensures W.DeletePdrs(env, c, order).state.shared.pdrs == m <==> !Congruent(c.sess)
  {
    var d := W.DeletePdrs(env, c, order).state.shared.pdrs;
    if Congruent(c.sess) {
      CongruentLeavesOne(env, m, c, order);
    } else {
      forall k ensures SameAt(m, d, k) {
        if k in Carried(c.sess) {
          var id :| id in c.sess.pdrs && KeyOf(c.sess.pdrs[id]) == k;
          DeletePdrsRemoves(env, c, order, id);
        } else {
          DeletePdrsTouchCarried(env, c, order, k);
        }
      }
      SameEverywhere(m, d);
    }
  }

  /** Releasing the row puts the prefix of the queue back behind the rest. */
  lemma ReleaseGivesBack(p: TeidPool, now: TeidPool, remote: nat, keys: seq<nat>, o: seq<nat>)
    requires TeidsMoved(p, now, remote, keys) && keys != [] && remote !in p.busy
    requires Enumerates(o, Row(now, remote).Keys)
    ensures var q := ReleaseTeids(now, remote, o); q.busy == p.busy && multiset(q.free) == multiset(p.free)
  {
    var row := Row(now, remote);
    SameRowSameMultiset(row, keys, o);
    assert multiset(InOrder(row, keys) + now.free) == multiset(now.free + InOrder(row, o));
    assert p.busy[remote := row] - {remote} == p.busy;
  }

  /** The PDR that got the first TEID carries it, so its deletion releases the row. */
  lemma FirstTeidIsCarried(p: TeidPool, c: Ctx, keys: seq<nat>, order: seq<nat>)
    requires TeidsMoved(p, c.shared.teids, c.sess.remoteSeid, keys) && keys != []
    requires RowInSession(Row(c.shared.teids, c.sess.remoteSeid), c.sess.pdrs)
    requires (forall t :: t in p.free ==> t != 0) && Enumerates(order, c.sess.pdrs.Keys)
    ensures keys[0] in order && c.sess.pdrs[keys[0]].teid != 0 && c.sess.remoteSeid in c.shared.teids.busy
  {
    var row := Row(c.shared.teids, c.sess.remoteSeid);
    assert keys[0] in keys;
    assert p.free[0] == InOrder(row, keys)[0] == row[keys[0]];
    assert p.free[0] in p.free;
  }

  /** All TEIDs of the session are back in the queue, in some order behind those that waited. */
  lemma TeidsRestored(env: Env, p: TeidPool, c: Ctx, order: seq<nat>)
    requires TeidsGrown(p, c) && c.sess.remoteSeid !in p.busy && (forall t :: t in p.free ==> t != 0)
    requires Enumerates(order, c.sess.pdrs.Keys) && W.DeletePdrs(env, c, order).ok
    ensures var q := W.DeletePdrs(env, c, order).state.shared.teids;
      q.busy == p.busy && multiset(q.free) == multiset(p.free)
  {
    var remote := c.sess.remoteSeid;
    var now, q := c.shared.teids, W.DeletePdrs(env, c, order).state.shared.teids;
    var keys :| TeidsMoved(p, now, remote, keys);
    DeletePdrsTeids(env, c, order);
    if keys == [] {
      forall o | Enumerates(o, Row(now, remote).Keys) ensures ReleaseTeids(now, remote, o) == now {
        ReleaseAbsent(now, remote, o);
      }
      assert q == now;
      assert InOrder(Row(now, remote), []) + now.free == now.free;
    } else {
      FirstTeidIsCarried(p, c, keys, order);
      var o :| Enumerates(o, Row(now, remote).Keys) && q == ReleaseTeids(now, remote, o);
      ReleaseGivesBack(p, now, remote, keys, o);
    }
  }

  /** Releasing the resources of a SEID that has none changes no pool and no table. */
  lemma ReleaseIdle(env: Env, t: Shared, seid: nat)
    requires seid !in t.teids.busy
    ensures var u := W.ReleaseResources(env, t, seid); SamePools(u, t) && u.pdrs == t.pdrs && u.teids == t.teids
  {
    ReleaseAbsent(t.teids, seid, env.order(t.clock, Row(t.teids, seid).Keys));
  }

  /** The tear-down loops after the PDR loop touch neither the PDR tables nor the TEIDs. */
  lemma TeardownPdrPart(env: Env, s: Shared, sess: SessionRec)
    requires W.Teardown(env, s, sess).ok
    ensures var pdrs := W.DeletePdrs(env, W.Start(W.Tick(s), sess), env.order(s.clock, sess.pdrs.Keys));
      && pdrs.ok
      && W.Teardown(env, s, sess).state.0.pdrs == pdrs.state.shared.pdrs
      && W.Teardown(env, s, sess).state.0.teids == pdrs.state.shared.teids
  {
  }

  /** Tearing down a session that has grown from w brings w's pools, TEIDs and tables back. */
  lemma TeardownRestores(env: Env, w: State, s: Shared, sessions: map<W.SessKey, SessionRec>, key: W.SessKey)
    requires Ready(w) && Inv(s, sessions) && key in sessions
    requires AllGrown(w.shared, W.Start(s, sessions[key])) && sessions[key].remoteSeid !in w.shared.teids.busy
    requires forall k :: k in Carried(sessions[key]) ==> k !in w.shared.pdrs
    requires W.Teardown(env, s, sessions[key]).ok
    ensures var t := W.Teardown(env, s, sessions[key]).state.0;
      && PoolsBack(w.shared, t, sessions[key])
      && t.teids.busy == w.shared.teids.busy && multiset(t.teids.free) == multiset(w.shared.teids.free)
      && (t.pdrs == w.shared.pdrs <==> !Congruent(sessions[key]))
  {
    var sess := sessions[key];
    var c := W.Start(W.Tick(s), sess);
    var order := env.order(s.clock, sess.pdrs.Keys);
    PoolsRestored(env, w, s, sessions, key);
    TeardownPdrPart(env, s, sess);
    assert TeidsGrown(w.shared.teids, c) && PdrsGrown(w.shared.pdrs, c);
    PdrTablesRestoredIff(env, w.shared.pdrs, c, order);
    TeidsRestored(env, w.shared.teids, c, order);
  }

  /** What an accepted deletion does: the teardown, then the release under the local SEID. */
  lemma DeleteAccepted(env: Env, v: State, addr: string, seid: nat)
    requires W.Delete(env, v, addr, seid).response.cause == W.Accepted
    ensures var key := W.SessKey(addr, seid);
      && key in v.sessions && W.Teardown(env, v.shared, v.sessions[key]).ok
      && W.Delete(env, v, addr, seid).state.sessions == v.sessions - {key}
      && W.Delete(env, v, addr, seid).state.shared
         == W.ReleaseResources(env, W.Teardown(env, v.shared, v.sessions[key]).state.0, seid)
  {
  }

  /** What an accepted establishment does to the sessions. */
  lemma EstablishAccepted(env: Env, w: State, addr: string, est: W.EstablishReq)
    requires W.Establish(env, w, addr, est).response.cause == W.Accepted && addr in w.next
    ensures var v := W.Establish(env, w, addr, est).state; var key := W.SessKey(addr, W.NextSeid(w.next[addr]));
      key in v.sessions && addr in v.next && (key !in w.sessions ==> v.sessions - {key} == w.sessions)
  {
  }

  // ---------------------------------------------------------------- when a deletion is accepted

  /** No two of the session's PDRs have the same UE address as their key. */
  ghost predicate DistinctDownlinks(sess: SessionRec) {
    forall i, j ::
      i in sess.pdrs && j in sess.pdrs && KeyOf(sess.pdrs[i]) == KeyOf(sess.pdrs[j]) && i != j ==>
        KeyOf(sess.pdrs[i]).Uplink?
  }

  /** The kernel refuses no hash-table write from the n-th on. */
  ghost predicate AcceptsFrom(env: Env, n: nat) {
    forall k :: k >= n ==> env.accepts(k)
  }

  /** A downlink key that is gone stops the loop over PDRs. */
  lemma {:induction false} AbsentKeyStops(env: Env, c: Ctx, order: seq<nat>, id: nat)
    requires (forall k :: k in order ==> k in c.sess.pdrs) && id in order
    requires !KeyOf(c.sess.pdrs[id]).Uplink? && KeyOf(c.sess.pdrs[id]) !in c.shared.pdrs
    ensures !W.DeletePdrs(env, c, order).ok
    decreases order
  {
    var first := DeletePdr(env, c, c.sess.pdrs[order[0]]);
    if first.ok {
      assert id != order[0];
      AbsentKeyStops(env, first.state, order[1..], id);
    }
  }

  /** So two PDRs on one downlink key stop it, whatever the tables hold. */
  lemma {:induction false} SharedKeyStops(env: Env, c: Ctx, order: seq<nat>, i: nat, j: nat)
    requires (forall k :: k in order ==> k in c.sess.pdrs) && i in order && j in order && i != j
    requires KeyOf(c.sess.pdrs[i]) == KeyOf(c.sess.pdrs[j]) && !KeyOf(c.sess.pdrs[i]).Uplink?
    ensures !W.DeletePdrs(env, c, order).ok
    decreases order
  {
    var first := DeletePdr(env, c, c.sess.pdrs[order[0]]);
    if first.ok {
      if i == order[0] {
        AbsentKeyStops(env, first.state, order[1..], j);
      } else if j == order[0] {
        AbsentKeyStops(env, first.state, order[1..], i);
      } else {
        SharedKeyStops(env, first.state, order[1..], i, j);
      }
    }
  }

  /** What the loop needs: each key stored, or an uplink key skipped through the cache. */
  ghost predicate Deletable(c: Ctx, order: seq<nat>) {
    forall id :: id in order ==>
      && id in c.sess.pdrs
      && (KeyOf(c.sess.pdrs[id]) in c.shared.pdrs
          || (KeyOf(c.sess.pdrs[id]).Uplink? && c.sess.pdrs[id].teid % 256 in c.cache))
  }

  lemma {:induction false} DistinctKeysPass(env: Env, c: Ctx, order: seq<nat>)
    requires Deletable(c, order) && DistinctDownlinks(c.sess) && AcceptsFrom(env, c.shared.clock)
    requires forall i, j :: 0 <= i < j < |order| ==> order[i] != order[j]
    ensures W.DeletePdrs(env, c, order).ok
    decreases order
  {
    if order != [] {
      assert order[0] in order;
      var first := DeletePdr(env, c, c.sess.pdrs[order[0]]);
      assert first.ok;
      FirstLeavesDeletable(env, c, order);
      DistinctKeysPass(env, first.state, order[1..]);
    }
  }

  lemma FirstLeavesDeletable(env: Env, c: Ctx, order: seq<nat>)
    requires order != [] && Deletable(c, order) && DistinctDownlinks(c.sess)
    requires forall i, j :: 0 <= i < j < |order| ==> order[i] != order[j]
    requires DeletePdr(env, c, c.sess.pdrs[order[0]]).ok
    ensures Deletable(DeletePdr(env, c, c.sess.pdrs[order[0]]).state, order[1..])
  {
    forall id | id in order[1..] ensures id in order && id != order[0] {
      var i :| 0 <= i < |order[1..]| && order[1..][i] == id;
      assert order[i + 1] == id;
    }
  }

  /**
   * With every key stored and a kernel that refuses nothing, a session can be deleted exactly when
   * no two of its PDRs share a downlink key.
   */
  lemma DeleteAcceptedIff(env: Env, w: State, addr: string, seid: nat)
    requires Inv(w.shared, w.sessions) && addr in w.next && W.SessKey(addr, seid) in w.sessions
    requires AcceptsFrom(env, w.shared.clock)
    requires forall k :: k in Carried(w.sessions[W.SessKey(addr, seid)]) ==> k in w.shared.pdrs
    ensures W.Delete(env, w, addr, seid).response.cause == W.Accepted
         <==> DistinctDownlinks(w.sessions[W.SessKey(addr, seid)])
  {
    var sess := w.sessions[W.SessKey(addr, seid)];
    var c := W.Start(W.Tick(w.shared), sess);
    var order := env.order(w.shared.clock, sess.pdrs.Keys);
    TeardownDrops(env, w.shared, w.sessions, W.SessKey(addr, seid));
    if DistinctDownlinks(sess) {
      forall id | id in order
        ensures KeyOf(sess.pdrs[id]) in w.shared.pdrs
      {
        assert KeyOf(sess.pdrs[id]) in Carried(sess);
      }
      DistinctKeysPass(env, c, order);
    } else {
      SharedDownlinkIsRefused(env, w, addr, seid);
    }
  }

  /**
   * A session with two PDRs on one UE address is never deleted: whatever the tables and the kernel
   * do, the request is refused and leaves the session and the rule pools as they are, so its ids
   * stay taken and the next attempt fails too.
   */
  lemma SharedDownlinkIsRefused(env: Env, w: State, addr: string, seid: nat)
    requires Inv(w.shared, w.sessions) && addr in w.next && W.SessKey(addr, seid) in w.sessions
    requires !DistinctDownlinks(w.sessions[W.SessKey(addr, seid)])
    ensures var u := W.Delete(env, w, addr, seid);
      u.response.cause == W.RuleFailure && u.state.sessions == w.sessions && SamePools(u.state.shared, w.shared)
  {
    var sess := w.sessions[W.SessKey(addr, seid)];
    var i, j :| i in sess.pdrs && j in sess.pdrs && KeyOf(sess.pdrs[i]) == KeyOf(sess.pdrs[j])
      && !KeyOf(sess.pdrs[i]).Uplink? && i != j;
    SharedKeyStops(env, W.Start(W.Tick(w.shared), sess), env.order(w.shared.clock, sess.pdrs.Keys), i, j);
    TeardownDrops(env, w.shared, w.sessions, W.SessKey(addr, seid));
  }

  /** The session an accepted establishment stores, and the tables it leaves, put back by its deletion. */
  ghost predicate Undone(w: State, u: State, sess: SessionRec) {
    && PoolsBack(w.shared, u.shared, sess)
    && u.shared.teids.busy == w.shared.teids.busy && multiset(u.shared.teids.free) == multiset(w.shared.teids.free)
    && u.sessions == w.sessions
    && (u.shared.pdrs == w.shared.pdrs <==> !Congruent(sess))
  }

  /**
   * After an accepted establishment on new PDR keys, and with a kernel that refuses no write, the
   * session can be deleted exactly when no two of its PDRs share a downlink key.  The deletion then
   * restores the free ids of all three rule kinds, the FAR and QER slots, the TEID pool up to the
   * order of its queue, and the sessions; the URR slots exactly when those the session took held no
   * volume before; and the PDR tables exactly when no two of the session's uplink TEIDs differ but
   * share their low byte.
   */
  lemma DeleteUndoesEstablish(env: Env, w: State, addr: string, est: W.EstablishReq)
    requires Ready(w) && Unclaimed(w, addr, est) && FreshNames(W.NewSession(0, 0), W.EstablishIes(est))
    requires W.Establish(env, w, addr, est).response.cause == W.Accepted
    requires var v := W.Establish(env, w, addr, est).state;
      && AcceptsFrom(env, v.shared.clock)
      && forall k :: k in Carried(v.sessions[W.SessKey(addr, W.NextSeid(w.next[addr]))]) ==> k !in w.shared.pdrs
    ensures var v := W.Establish(env, w, addr, est).state;
      var sess := v.sessions[W.SessKey(addr, W.NextSeid(w.next[addr]))];
      var deleted := W.Delete(env, v, addr, W.NextSeid(w.next[addr]));
      && (deleted.response.cause == W.Accepted <==> DistinctDownlinks(sess))
      && (DistinctDownlinks(sess) ==> Undone(w, deleted.state, sess))
  {
    var local := W.NextSeid(w.next[addr]);
    var key := W.SessKey(addr, local);
    var v := W.Establish(env, w, addr, est).state;
    EstablishGrows(env, w, addr, est);
    EstablishKeepsInv(env, w, addr, est);
    EstablishAccepted(env, w, addr, est);
    DeleteAcceptedIff(env, v, addr, local);
    if DistinctDownlinks(v.sessions[key]) {
      DeleteAccepted(env, v, addr, local);
      TeardownRestores(env, w, v.shared, v.sessions, key);
      ReleaseIdle(env, W.Teardown(env, v.shared, v.sessions[key]).state.0, local);
    }
  }
}
