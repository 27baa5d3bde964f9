/**
 * What an accepted establishment installs: a created PDR leads, through its key and the FAR id
 * stored there, to exactly the forwarding record composed from the Create FAR it names.
 */
module Resolution {
  import opened Base
  import opened RuleTables
  import opened Resources
  import opened PdrRecords
  import opened Rules
  import opened SessionSpec
  import opened SessionLemmas
  import W = World
  import opened Ownership
  import opened Runs
  import opened Isolation

  /** The FAR id that applies to a PDR's packets in the record stored for its key. */
  function FarIdFor(r: PdrRecord, p: SPdr): nat {
    if p.info.sdf.None? then r.default.farId else r.filtered.farId
  }

  /** Key, FAR id and FAR slot lead to info. */
  ghost predicate LeadsTo(s: Shared, p: SPdr, info: FarInfo) {
    && KeyOf(p) in s.pdrs
    && FarIdFor(s.pdrs[KeyOf(p)], p) < |s.far.slots|
    && s.far.slots[FarIdFor(s.pdrs[KeyOf(p)], p)] == info
  }

  function FarId(far: FarIE): nat { far.id.GetOr(0) }

  ghost predicate DistinctFarIds(fars: seq<FarIE>) {
    forall i, j :: 0 <= i < j < |fars| ==> FarId(fars[i]) != FarId(fars[j])
  }

  // ---------------------------------------------------------------- the FAR loop

  function FarList(fars: seq<FarIE>): seq<Ie> { W.Wrap(x => CreateFar(x), fars) }

  /** A FAR list leaves the FARs it does not name as they are. */
  lemma {:induction false} FarsKeepOthers(env: Env, c: Ctx, fars: seq<FarIE>, id: nat)
    requires ApplyAll(env, c, FarList(fars)).ok && id in c.sess.fars
    requires forall i :: 0 <= i < |fars| ==> FarId(fars[i]) != id
    ensures var d := ApplyAll(env, c, FarList(fars)).state; id in d.sess.fars && d.sess.fars[id] == c.sess.fars[id]
    decreases |fars|
  {
    if fars != [] {
      assert FarList(fars)[0] == CreateFar(fars[0]) && FarList(fars)[1..] == FarList(fars[1..]);
      assert FarId(fars[0]) != id;
      FarsKeepOthers(env, Apply(env, c, CreateFar(fars[0])).state, fars[1..], id);
    }
  }

  lemma FarStored(env: Env, c: Ctx, far: FarIE)
    requires Apply(env, c, CreateFar(far)).ok
    ensures var d := Apply(env, c, CreateFar(far)).state;
      FarId(far) in d.sess.fars && ComposeFarInfo(far, ZERO_FAR) == Ok(d.sess.fars[FarId(far)].info)
  {
  }

  lemma {:induction false} FarsStored(env: Env, c: Ctx, fars: seq<FarIE>)
    requires DistinctFarIds(fars) && ApplyAll(env, c, FarList(fars)).ok
    ensures var d := ApplyAll(env, c, FarList(fars)).state;
      forall i :: 0 <= i < |fars| ==>
        && FarId(fars[i]) in d.sess.fars
        && ComposeFarInfo(fars[i], ZERO_FAR) == Ok(d.sess.fars[FarId(fars[i])].info)
    decreases |fars|
  {
    if fars != [] {
      var rest := fars[1..];
      assert FarList(fars)[0] == CreateFar(fars[0]) && FarList(fars)[1..] == FarList(rest);
      var first := Apply(env, c, CreateFar(fars[0])).state;
      FarStored(env, c, fars[0]);
      FarsKeepOthers(env, first, rest, FarId(fars[0]));
      FarsStored(env, first, rest);
      var d := ApplyAll(env, c, FarList(fars)).state;
      forall i | 0 <= i < |fars|
        ensures FarId(fars[i]) in d.sess.fars
        ensures ComposeFarInfo(fars[i], ZERO_FAR) == Ok(d.sess.fars[FarId(fars[i])].info)
      {
        if i > 0 { assert fars[i] == rest[i - 1]; }
      }
    }
  }

  /** No FAR and no PDR IE among them: QER and URR creation. */
  lemma {:induction false} OthersKeepFars(env: Env, c: Ctx, ies: seq<Ie>)
    requires forall i :: 0 <= i < |ies| ==> ies[i].CreateQer? || ies[i].CreateUrr?
    ensures var d := ApplyAll(env, c, ies).state;
      && d.shared.far == c.shared.far && d.shared.pdrs == c.shared.pdrs
      && d.sess.fars == c.sess.fars && d.sess.pdrs == c.sess.pdrs && d.created == c.created
    decreases ies
  {
    if ies != [] {
      var first := Apply(env, c, ies[0]);
      if first.ok { OthersKeepFars(env, first.state, ies[1..]); }
    }
  }

  // ---------------------------------------------------------------- the QER loop

  function QerId(qer: QerIE): nat { qer.id.GetOr(0) }

  ghost predicate DistinctQerIds(qers: seq<QerIE>) {
    forall i, j :: 0 <= i < j < |qers| ==> QerId(qers[i]) != QerId(qers[j])
  }

  function QerList(qers: seq<QerIE>): seq<Ie> { W.Wrap(x => CreateQer(x), qers) }

  lemma {:induction false} QersKeepOthers(env: Env, c: Ctx, qers: seq<QerIE>, id: nat)
    requires ApplyAll(env, c, QerList(qers)).ok && id in c.sess.qers
    requires forall i :: 0 <= i < |qers| ==> QerId(qers[i]) != id
    ensures var d := ApplyAll(env, c, QerList(qers)).state; id in d.sess.qers && d.sess.qers[id] == c.sess.qers[id]
    decreases |qers|
  {
    if qers != [] {
      assert QerList(qers)[0] == CreateQer(qers[0]) && QerList(qers)[1..] == QerList(qers[1..]);
      assert QerId(qers[0]) != id;
      QersKeepOthers(env, Apply(env, c, CreateQer(qers[0])).state, qers[1..], id);
    }
  }

  lemma QerStored(env: Env, c: Ctx, qer: QerIE)
    requires Apply(env, c, CreateQer(qer)).ok
    ensures var d := Apply(env, c, CreateQer(qer)).state;
      QerId(qer) in d.sess.qers && d.sess.qers[QerId(qer)].info == UpdateQerInfo(ZERO_QER, qer)
  {
  }

  lemma {:induction false} QersStored(env: Env, c: Ctx, qers: seq<QerIE>)
    requires DistinctQerIds(qers) && ApplyAll(env, c, QerList(qers)).ok
    ensures var d := ApplyAll(env, c, QerList(qers)).state;
      forall i :: 0 <= i < |qers| ==>
        QerId(qers[i]) in d.sess.qers && d.sess.qers[QerId(qers[i])].info == UpdateQerInfo(ZERO_QER, qers[i])
    decreases |qers|
  {
    if qers != [] {
      var rest := qers[1..];
      assert QerList(qers)[0] == CreateQer(qers[0]) && QerList(qers)[1..] == QerList(rest);
      var first := Apply(env, c, CreateQer(qers[0])).state;
      QerStored(env, c, qers[0]);
      QersKeepOthers(env, first, rest, QerId(qers[0]));
      QersStored(env, first, rest);
      var d := ApplyAll(env, c, QerList(qers)).state;
      forall i | 0 <= i < |qers|
        ensures QerId(qers[i]) in d.sess.qers && d.sess.qers[QerId(qers[i])].info == UpdateQerInfo(ZERO_QER, qers[i])
      {
        if i > 0 { assert qers[i] == rest[i - 1]; }
      }
    }
  }

  lemma {:induction false} UrrsKeepQers(env: Env, c: Ctx, ies: seq<Ie>)
    requires forall i :: 0 <= i < |ies| ==> ies[i].CreateUrr?
    ensures ApplyAll(env, c, ies).state.sess.qers == c.sess.qers
    decreases ies
  {
    if ies != [] {
      var first := Apply(env, c, ies[0]);
      if first.ok { UrrsKeepQers(env, first.state, ies[1..]); }
    }
  }

  // ---------------------------------------------------------------- the PDR loop

  /** From position n on, no created PDR has the key k. */
  ghost predicate NoneWithKey(created: seq<SPdr>, n: nat, k: PdrKey) {
    forall l :: n <= l < |created| ==> KeyOf(created[l]) != k
  }

  function PdrList(pdrs: seq<PdrIE>): seq<Ie> { W.Wrap(x => CreatePdr(x), pdrs) }

  /** The record a key holds when info was the last put on it. */
  ghost predicate StoredFor(r: PdrRecord, info: PdrInfo) {
    if info.sdf.None? then r == PlainRecord(info)
    else r.filter == ToKernelFilter(info.sdf.value) && r.filtered == Selects(info) && (r.mode == 1 || r.mode == 2)
  }

  /** The PDR asks for packets to the given UE address, which is not to be allocated here. */
  ghost predicate ForAddress(env: Env, pdr: PdrIE, address: Ip4) {
    && pdr.pdi.Some? && pdr.pdi.value.fteid.None? && pdr.pdi.value.ueIp.Some? && pdr.pdi.value.ueIp.value.UeIp?
    && pdr.pdi.value.ueIp.value.ip4 == Some(address) && !(env.ueIpFeature && pdr.pdi.value.ueIp.value.chooseV4)
  }

  /** The session's PDR is what the IE says, with the ids the session's rules were given. */
  ghost predicate DescribedBy(env: Env, sess: SessionRec, pdr: PdrIE, p: SPdr) {
    && ResolveFlow(pdr.flow, ResolveIds(sess, pdr, ZERO_PDR_INFO)) == Ok(p.info)
    && (forall address :: ForAddress(env, pdr, address) ==> KeyOf(p) == Downlink4(address))
    && Identified(pdr, p)
  }

  /** The PDR id of the IE; with an F-TEID the key is a TEID, the IE's own unless the user plane is to choose it. */
  ghost predicate Identified(pdr: PdrIE, p: SPdr) {
    && pdr.id == Some(p.pdrId)
    && (pdr.pdi.Some? && pdr.pdi.value.fteid.Some? ==>
          && pdr.pdi.value.fteid.value.Fteid?
          && p.ip4.None? && p.ip6.None? && p.chosen == pdr.pdi.value.fteid.value.choose
          && (p.chosen || p.teid == pdr.pdi.value.fteid.value.teid))
  }

  /** One successful Create PDR appends one PDR and touches only its key. */
  lemma PdrPlaced(env: Env, c: Ctx, pdr: PdrIE)
    requires Apply(env, c, CreatePdr(pdr)).ok
    ensures var d := Apply(env, c, CreatePdr(pdr)).state;
      && SameRules(c, d)
      && |d.created| == |c.created| + 1 && d.created[..|c.created|] == c.created
      && (forall k :: k != KeyOf(d.created[|c.created|]) ==> SameAt(c.shared.pdrs, d.shared.pdrs, k))
  {
    ApplyPdrSameRules(env, c, CreatePdr(pdr));
    var base := ZERO_PDR.(pdrId := pdr.id.value);
    ExtractSameRules(env, c, pdr, base);
    ExtractDescribed(env, c, pdr, base);
    var (e, p) := ExtractPdr(env, c, pdr, base).value;
    StoreStores(env, e, pdr.id.value, p);
  }

  /** What one successful Create PDR leaves behind. */
  lemma PdrStored(env: Env, c: Ctx, pdr: PdrIE)
    requires Apply(env, c, CreatePdr(pdr)).ok
    ensures var d := Apply(env, c, CreatePdr(pdr)).state;
      && |d.created| == |c.created| + 1
      && var p := d.created[|c.created|];
         KeyOf(p) in d.shared.pdrs && StoredFor(d.shared.pdrs[KeyOf(p)], p.info) && DescribedBy(env, c.sess, pdr, p)
  {
    var base := ZERO_PDR.(pdrId := pdr.id.value);
    ExtractDescribed(env, c, pdr, base);
    var (e, p) := ExtractPdr(env, c, pdr, base).value;
    StoreStores(env, e, pdr.id.value, p);
  }

  lemma ExtractDescribed(env: Env, c: Ctx, pdr: PdrIE, base: SPdr)
    requires ExtractPdr(env, c, pdr, base).Ok? && pdr.id.Some? && base == ZERO_PDR.(pdrId := pdr.id.value)
    ensures var (d, p) := ExtractPdr(env, c, pdr, base).value;
      DescribedBy(env, c.sess, pdr, p) && d.created == c.created
  {
  }

  lemma StoreStores(env: Env, c: Ctx, id: nat, p: SPdr)
    requires StorePdr(env, c, id, p).ok
    ensures var d := StorePdr(env, c, id, p).state;
      && KeyOf(p) in d.shared.pdrs && StoredFor(d.shared.pdrs[KeyOf(p)], p.info)
      && (forall k :: k != KeyOf(p) ==> SameAt(c.shared.pdrs, d.shared.pdrs, k))
  {
  }

  lemma PrefixOfPrefix(a: seq<SPdr>, b: seq<SPdr>, d: seq<SPdr>)
    requires |a| < |b| <= |d| && b[..|a|] == a && d[..|b|] == b
    ensures d[..|a|] == a && d[|a|] == b[|a|]
  {
    assert d[..|a|] == d[..|b|][..|a|];
    assert d[|a|] == d[..|b|][|a|];
  }

  /** The created PDRs are those there were before and one for each IE. */
  lemma {:induction false} PdrsCreated(env: Env, c: Ctx, pdrs: seq<PdrIE>)
    requires ApplyAll(env, c, PdrList(pdrs)).ok
    ensures var d := ApplyAll(env, c, PdrList(pdrs)).state;
      SameRules(c, d) && |d.created| == |c.created| + |pdrs| && d.created[..|c.created|] == c.created
    decreases |pdrs|
  {
    if pdrs == [] {
      assert c.created[..|c.created|] == c.created;
    } else {
      var rest := pdrs[1..];
      assert PdrList(pdrs)[0] == CreatePdr(pdrs[0]) && PdrList(pdrs)[1..] == PdrList(rest);
      var first := Apply(env, c, CreatePdr(pdrs[0])).state;
      PdrPlaced(env, c, pdrs[0]);
      PdrsCreated(env, first, rest);
      PrefixOfPrefix(c.created, first.created, ApplyAll(env, first, PdrList(rest)).state.created);
    }
  }

  lemma NoneWithKeyNext(before: seq<SPdr>, first: seq<SPdr>, end: seq<SPdr>, k: PdrKey)
    requires |first| == |before| + 1 && |first| <= |end| && first[..|before|] == before && end[..|first|] == first
    requires NoneWithKey(end, |before|, k)
    ensures KeyOf(first[|before|]) != k && NoneWithKey(end, |first|, k)
  {
    PrefixOfPrefix(before, first, end);
  }

  ghost predicate Reaches(env: Env, c: Ctx, pdrs: seq<PdrIE>, d: Ctx) {
    ApplyAll(env, c, PdrList(pdrs)) == Outcome(d, true)
  }

  /** The first of several PDRs, none of which has key k. */
  lemma FirstLeavesKey(env: Env, c: Ctx, pdr: PdrIE, rest: seq<PdrIE>, first: Ctx, end: Ctx, k: PdrKey)
    requires Apply(env, c, CreatePdr(pdr)) == Outcome(first, true) && Reaches(env, first, rest, end)
    requires NoneWithKey(end.created, |c.created|, k)
    ensures NoneWithKey(end.created, |first.created|, k) && SameAt(c.shared.pdrs, first.shared.pdrs, k)
  {
    PdrPlaced(env, c, pdr);
    PdrsCreated(env, first, rest);
    NoneWithKeyNext(c.created, first.created, end.created, k);
  }

  /** PDRs with other keys leave a key alone. */
  lemma {:induction false} PdrsLeaveKey(env: Env, c: Ctx, pdrs: seq<PdrIE>, k: PdrKey)
    requires ApplyAll(env, c, PdrList(pdrs)).ok
    requires NoneWithKey(ApplyAll(env, c, PdrList(pdrs)).state.created, |c.created|, k)
    ensures SameAt(c.shared.pdrs, ApplyAll(env, c, PdrList(pdrs)).state.shared.pdrs, k)
    decreases |pdrs|
  {
    if pdrs != [] {
      var rest := pdrs[1..];
      assert PdrList(pdrs)[0] == CreatePdr(pdrs[0]) && PdrList(pdrs)[1..] == PdrList(rest);
      var first := Apply(env, c, CreatePdr(pdrs[0])).state;
      FirstLeavesKey(env, c, pdrs[0], rest, first, ApplyAll(env, first, PdrList(rest)).state, k);
      PdrsLeaveKey(env, first, rest, k);
    }
  }

  /** before and after the j-th of the Create PDRs; end is where the last one leaves off. */
  ghost predicate AroundPdr(env: Env, c: Ctx, pdrs: seq<PdrIE>, j: nat, before: Ctx, after: Ctx, end: Ctx)
    requires j < |pdrs|
  {
    && SameRules(c, before)
    && |before.created| == |c.created| + j
    && Apply(env, before, CreatePdr(pdrs[j])) == Outcome(after, true)
    && Reaches(env, after, pdrs[j + 1..], end)
  }

  lemma FindPdr(env: Env, c: Ctx, pdrs: seq<PdrIE>, j: nat) returns (before: Ctx, after: Ctx)
    requires ApplyAll(env, c, PdrList(pdrs)).ok && j < |pdrs|
    ensures Reaches(env, c, pdrs[..j], before)
    ensures AroundPdr(env, c, pdrs, j, before, after, ApplyAll(env, c, PdrList(pdrs)).state)
  {
    SplitAt(env, c, pdrs, j);
    before := ApplyAll(env, c, PdrList(pdrs[..j])).state;
    after := Apply(env, before, CreatePdr(pdrs[j])).state;
    PdrsCreated(env, c, pdrs[..j]);
  }

  lemma AroundCreated(env: Env, c: Ctx, pdrs: seq<PdrIE>, j: nat, before: Ctx, after: Ctx, end: Ctx)
    requires j < |pdrs| && AroundPdr(env, c, pdrs, j, before, after, end)
    ensures |after.created| == |c.created| + j + 1 && |end.created| == |c.created| + |pdrs|
    ensures end.created[|c.created| + j] == after.created[|before.created|]
  {
    var rest := pdrs[j + 1..];
    assert |rest| == |pdrs| - j - 1;
    OneCreated(env, before, pdrs[j], after);
    RestCreated(env, after, rest, end);
    CreatedPosition(|c.created|, j, |pdrs|, before.created, after.created, end.created);
  }

  lemma CreatedPosition(start: nat, j: nat, n: nat, before: seq<SPdr>, after: seq<SPdr>, end: seq<SPdr>)
    requires j < n && |before| == start + j && |after| == |before| + 1 && |end| == |after| + (n - j - 1)
    requires after[..|before|] == before && end[..|after|] == after
    ensures |after| == start + j + 1 && |end| == start + n && end[start + j] == after[|before|]
  {
    PrefixOfPrefix(before, after, end);
  }

  lemma OneCreated(env: Env, before: Ctx, pdr: PdrIE, after: Ctx)
    requires Apply(env, before, CreatePdr(pdr)) == Outcome(after, true)
    ensures |after.created| == |before.created| + 1 && after.created[..|before.created|] == before.created
  {
    PdrPlaced(env, before, pdr);
  }

  lemma RestCreated(env: Env, after: Ctx, rest: seq<PdrIE>, end: Ctx)
    requires Reaches(env, after, rest, end)
    ensures |end.created| == |after.created| + |rest| && end.created[..|after.created|] == after.created
  {
    PdrsCreated(env, after, rest);
  }

  /** The j-th created PDR is what its IE describes. */
  lemma PdrsDescribed(env: Env, c: Ctx, pdrs: seq<PdrIE>, j: nat)
    requires ApplyAll(env, c, PdrList(pdrs)).ok && j < |pdrs|
    ensures var d := ApplyAll(env, c, PdrList(pdrs)).state;
      && |d.created| == |c.created| + |pdrs|
      && DescribedBy(env, c.sess, pdrs[j], d.created[|c.created| + j])
  {
    var before, after := FindPdr(env, c, pdrs, j);
    AroundCreated(env, c, pdrs, j, before, after, ApplyAll(env, c, PdrList(pdrs)).state);
    PdrStored(env, before, pdrs[j]);
    SameDescription(env, c.sess, before.sess, pdrs[j], after.created[|before.created|]);
  }

  /** PDRs of the session do not matter for what an IE describes. */
  lemma SameDescription(env: Env, sess: SessionRec, other: SessionRec, pdr: PdrIE, p: SPdr)
    requires other == sess.(pdrs := other.pdrs) && DescribedBy(env, other, pdr, p)
    ensures DescribedBy(env, sess, pdr, p)
  {
    assert ResolveIds(sess, pdr, ZERO_PDR_INFO) == ResolveIds(other, pdr, ZERO_PDR_INFO);
  }

  /** The j-th created PDR, if no later one uses its key, is what its key holds. */
  lemma PdrsStored(env: Env, c: Ctx, pdrs: seq<PdrIE>, j: nat)
    requires ApplyAll(env, c, PdrList(pdrs)).ok && j < |pdrs|
    ensures var d := ApplyAll(env, c, PdrList(pdrs)).state;
      && |d.created| == |c.created| + |pdrs|
      && var p := d.created[|c.created| + j];
         NoneWithKey(d.created, |c.created| + j + 1, KeyOf(p)) ==>
           KeyOf(p) in d.shared.pdrs && StoredFor(d.shared.pdrs[KeyOf(p)], p.info)
  {
    var before, after := FindPdr(env, c, pdrs, j);
    var d := ApplyAll(env, c, PdrList(pdrs)).state;
    AroundCreated(env, c, pdrs, j, before, after, d);
    var k := KeyOf(d.created[|c.created| + j]);
    if NoneWithKey(d.created, |c.created| + j + 1, k) {
      PdrStored(env, before, pdrs[j]);
      PdrsLeaveKey(env, after, pdrs[j + 1..], k);
    }
  }

  /** With a filter, on a key that no PDR put before, the record has no default. */
  lemma PdrFirstOnKey(env: Env, c: Ctx, pdr: PdrIE)
    requires Apply(env, c, CreatePdr(pdr)).ok
    ensures var d := Apply(env, c, CreatePdr(pdr)).state;
      && |d.created| == |c.created| + 1
      && var p := d.created[|c.created|];
         KeyOf(p) !in c.shared.pdrs && p.info.sdf.Some? ==>
           KeyOf(p) in d.shared.pdrs && d.shared.pdrs[KeyOf(p)].mode == 1
  {
    var base := ZERO_PDR.(pdrId := pdr.id.value);
    ExtractSameRules(env, c, pdr, base);
    ExtractDescribed(env, c, pdr, base);
  }

  lemma PdrsFirstOnKey(env: Env, c: Ctx, pdrs: seq<PdrIE>, j: nat, p: SPdr)
    requires ApplyAll(env, c, PdrList(pdrs)).ok && j < |pdrs|
    requires var created := ApplyAll(env, c, PdrList(pdrs)).state.created;
      && |created| == |c.created| + |pdrs| && created[|c.created| + j] == p
      && forall l :: |c.created| <= l < |created| && l != |c.created| + j ==> KeyOf(created[l]) != KeyOf(p)
    requires KeyOf(p) !in c.shared.pdrs && p.info.sdf.Some?
    ensures var d := ApplyAll(env, c, PdrList(pdrs)).state;
      KeyOf(p) in d.shared.pdrs && d.shared.pdrs[KeyOf(p)].mode == 1
  {
    var before, after := FindPdr(env, c, pdrs, j);
    var d := ApplyAll(env, c, PdrList(pdrs)).state;
    AroundCreated(env, c, pdrs, j, before, after, d);
    BeforeLeavesKey(env, c, pdrs[..j], pdrs[j], pdrs[j + 1..], before, after, d, KeyOf(p));
    PdrFirstOnKey(env, before, pdrs[j]);
    PdrsLeaveKey(env, after, pdrs[j + 1..], KeyOf(p));
  }

  lemma BeforeLeavesKey(env: Env, c: Ctx, first: seq<PdrIE>, pdr: PdrIE, rest: seq<PdrIE>,
                        before: Ctx, after: Ctx, end: Ctx, k: PdrKey)
    requires Reaches(env, c, first, before)
    requires Apply(env, before, CreatePdr(pdr)) == Outcome(after, true)
    requires Reaches(env, after, rest, end)
    requires |c.created| + |first| <= |end.created|
    requires forall l :: |c.created| <= l < |c.created| + |first| ==> KeyOf(end.created[l]) != k
    ensures SameAt(c.shared.pdrs, before.shared.pdrs, k)
  {
    PdrsCreated(env, c, first);
    OneCreated(env, before, pdr, after);
    RestCreated(env, after, rest, end);
    PrefixOfPrefix(before.created, after.created, end.created);
    forall l | |c.created| <= l < |before.created| ensures KeyOf(before.created[l]) != k {
      assert before.created[l] == end.created[..|before.created|][l];
    }
    PdrsLeaveKey(env, c, first, k);
  }

  lemma SplitAt(env: Env, c: Ctx, pdrs: seq<PdrIE>, j: nat)
    requires ApplyAll(env, c, PdrList(pdrs)).ok && j < |pdrs|
    ensures var c1 := ApplyAll(env, c, PdrList(pdrs[..j]));
      && c1.ok && Apply(env, c1.state, CreatePdr(pdrs[j])).ok
      && ApplyAll(env, Apply(env, c1.state, CreatePdr(pdrs[j])).state, PdrList(pdrs[j + 1..]))
         == ApplyAll(env, c, PdrList(pdrs))
  {
    var tail := PdrList(pdrs)[j..];
    assert PdrList(pdrs) == PdrList(pdrs[..j]) + tail;
    ApplyAllConcat(env, c, PdrList(pdrs[..j]), tail);
    assert tail[0] == CreatePdr(pdrs[j]) && tail[1..] == PdrList(pdrs[j + 1..]);
  }

  // ---------------------------------------------------------------- the whole establishment

  /** The context after each of the handler's loops. */
  lemma EstablishSplits(env: Env, c: Ctx, est: W.EstablishReq)
    requires ApplyAll(env, c, W.EstablishIes(est)).ok
    ensures var rules := W.Wrap(x => CreateQer(x), est.createQers) + W.Wrap(x => CreateUrr(x), est.createUrrs);
      var fars := ApplyAll(env, c, FarList(est.createFars));
      && fars.ok && ApplyAll(env, fars.state, rules).ok
      && ApplyAll(env, ApplyAll(env, fars.state, rules).state, PdrList(est.createPdrs))
         == ApplyAll(env, c, W.EstablishIes(est))
  {
    var a, q, u, p := FarList(est.createFars), W.Wrap(x => CreateQer(x), est.createQers),
                      W.Wrap(x => CreateUrr(x), est.createUrrs), PdrList(est.createPdrs);
    assert W.EstablishIes(est) == a + ((q + u) + p);
    ApplyAllConcat(env, c, a, (q + u) + p);
    ApplyAllConcat(env, ApplyAll(env, c, a).state, q + u, p);
  }

  /** The PDRs an accepted establishment created, in the order of the request. */
  ghost function CreatedBy(env: Env, w: State, addr: string, est: W.EstablishReq): seq<SPdr>
    requires est.cpSeid.Some? && addr in w.next
  {
    ApplyAll(env, W.Start(w.shared, W.NewSession(W.NextSeid(w.next[addr]), est.cpSeid.value)),
             W.EstablishIes(est)).state.created
  }

  lemma {:induction false} CreatedOnlyByPdrs(env: Env, c: Ctx, fars: seq<FarIE>)
    ensures var d := ApplyAll(env, c, FarList(fars)).state; d.created == c.created && d.shared.pdrs == c.shared.pdrs
    decreases |fars|
  {
    if fars != [] {
      assert FarList(fars)[0] == CreateFar(fars[0]) && FarList(fars)[1..] == FarList(fars[1..]);
      var first := Apply(env, c, CreateFar(fars[0]));
      if first.ok { CreatedOnlyByPdrs(env, first.state, fars[1..]); }
    }
  }

  /** The session an accepted establishment stores. */
  ghost function NewlyStored(env: Env, w: State, addr: string, est: W.EstablishReq): SessionRec
    requires W.Establish(env, w, addr, est).response.cause == W.Accepted
  {
    W.Establish(env, w, addr, est).state.sessions[W.SessKey(addr, W.NextSeid(w.next[addr]))]
  }

  /** The j-th created PDR is what its IE describes, and what its key holds unless a later one replaced it. */
  lemma EstablishedPdr(env: Env, w: State, addr: string, est: W.EstablishReq, j: nat)
    requires W.Establish(env, w, addr, est).response.cause == W.Accepted && j < |est.createPdrs|
    ensures var v := W.Establish(env, w, addr, est).state;
      var created := CreatedBy(env, w, addr, est);
      && |created| == |est.createPdrs|
      && DescribedBy(env, NewlyStored(env, w, addr, est), est.createPdrs[j], created[j])
      && (NoneWithKey(created, j + 1, KeyOf(created[j])) ==>
            KeyOf(created[j]) in v.shared.pdrs && StoredFor(v.shared.pdrs[KeyOf(created[j])], created[j].info))
  {
    var c := W.Start(w.shared, W.NewSession(W.NextSeid(w.next[addr]), est.cpSeid.value));
    var rules := QerList(est.createQers) + W.Wrap(x => CreateUrr(x), est.createUrrs);
    EstablishSplits(env, c, est);
    var c1 := ApplyAll(env, c, FarList(est.createFars)).state;
    OthersKeepFars(env, c1, rules);
    var c2 := ApplyAll(env, c1, rules).state;
    CreatedOnlyByPdrs(env, c, est.createFars);
    PdrsDescribed(env, c2, est.createPdrs, j);
    PdrsStored(env, c2, est.createPdrs, j);
    PdrsCreated(env, c2, est.createPdrs);
    var d := ApplyAll(env, c2, PdrList(est.createPdrs)).state;
    SameDescription(env, d.sess, c2.sess, est.createPdrs[j], d.created[j]);
  }

  /**
   * The response to an accepted establishment reports a TEID for PDR j exactly when its F-TEID asks
   * the user plane to choose one; and the TEID reported is the key its packets are found by.
   */
  lemma ChosenTeidIsReportedIff(env: Env, w: State, addr: string, est: W.EstablishReq, j: nat)
    requires W.Establish(env, w, addr, est).response.cause == W.Accepted && j < |est.createPdrs|
    requires est.createPdrs[j].pdi.Some? && est.createPdrs[j].pdi.value.fteid.Some?
    requires forall i, k :: 0 <= i < k < |est.createPdrs| ==> est.createPdrs[i].id != est.createPdrs[k].id
    ensures |CreatedBy(env, w, addr, est)| == |est.createPdrs| && est.createPdrs[j].pdi.value.fteid.value.Fteid?
    ensures var p := CreatedBy(env, w, addr, est)[j];
      && KeyOf(p) == Uplink(p.teid) && est.createPdrs[j].id == Some(p.pdrId)
      && (est.createPdrs[j].pdi.value.fteid.value.choose
          <==> exists teid :: W.CreatedFteid(p.pdrId, teid) in W.Establish(env, w, addr, est).response.created)
      && (forall teid :: W.CreatedFteid(p.pdrId, teid) in W.Establish(env, w, addr, est).response.created ==>
            teid == p.teid)
  {
    EstablishedPdr(env, w, addr, est, j);
    var created := CreatedBy(env, w, addr, est);
    var p := created[j];
    W.CreatedIesReport(created, W.CreatedFteid(p.pdrId, p.teid));
    if p.chosen { assert W.Reports(created[j], W.CreatedFteid(p.pdrId, p.teid)); }
    forall teid | W.CreatedFteid(p.pdrId, teid) in W.CreatedIes(created) ensures p.chosen && teid == p.teid {
      W.CreatedIesReport(created, W.CreatedFteid(p.pdrId, teid));
      var i :| 0 <= i < |created| && W.Reports(created[i], W.CreatedFteid(p.pdrId, teid));
      EstablishedPdr(env, w, addr, est, i);
      assert est.createPdrs[i].id == est.createPdrs[j].id;
    }
  }

  /** A created PDR with a filter, alone on its key, leaves a record without default. */
  lemma EstablishedAlone(env: Env, w: State, addr: string, est: W.EstablishReq, j: nat)
    requires W.Establish(env, w, addr, est).response.cause == W.Accepted && j < |est.createPdrs|
    requires var created := CreatedBy(env, w, addr, est);
      && |created| == |est.createPdrs| && created[j].info.sdf.Some? && KeyOf(created[j]) !in w.shared.pdrs
      && forall l :: 0 <= l < |created| && l != j ==> KeyOf(created[l]) != KeyOf(created[j])
    ensures var s := W.Establish(env, w, addr, est).state.shared;
      var k := KeyOf(CreatedBy(env, w, addr, est)[j]);
      k in s.pdrs && s.pdrs[k].mode == 1
  {
    var c := W.Start(w.shared, W.NewSession(W.NextSeid(w.next[addr]), est.cpSeid.value));
    var rules := QerList(est.createQers) + W.Wrap(x => CreateUrr(x), est.createUrrs);
    EstablishSplits(env, c, est);
    var c1 := ApplyAll(env, c, FarList(est.createFars)).state;
    OthersKeepFars(env, c1, rules);
    CreatedOnlyByPdrs(env, c, est.createFars);
    PdrsFirstOnKey(env, ApplyAll(env, c1, rules).state, est.createPdrs, j, CreatedBy(env, w, addr, est)[j]);
  }

  lemma EstablishedFar(env: Env, w: State, addr: string, est: W.EstablishReq, i: nat)
    requires W.Establish(env, w, addr, est).response.cause == W.Accepted
    requires DistinctFarIds(est.createFars) && i < |est.createFars|
    ensures var sess := NewlyStored(env, w, addr, est);
      && FarId(est.createFars[i]) in sess.fars
      && ComposeFarInfo(est.createFars[i], ZERO_FAR) == Ok(sess.fars[FarId(est.createFars[i])].info)
  {
    var c := W.Start(w.shared, W.NewSession(W.NextSeid(w.next[addr]), est.cpSeid.value));
    var rules := QerList(est.createQers) + W.Wrap(x => CreateUrr(x), est.createUrrs);
    EstablishSplits(env, c, est);
    FarsStored(env, c, est.createFars);
    var c1 := ApplyAll(env, c, FarList(est.createFars)).state;
    OthersKeepFars(env, c1, rules);
    PdrsCreated(env, ApplyAll(env, c1, rules).state, est.createPdrs);
  }

  lemma EstablishedQer(env: Env, w: State, addr: string, est: W.EstablishReq, i: nat)
    requires W.Establish(env, w, addr, est).response.cause == W.Accepted
    requires DistinctQerIds(est.createQers) && i < |est.createQers|
    ensures var sess := NewlyStored(env, w, addr, est);
      && QerId(est.createQers[i]) in sess.qers
      && sess.qers[QerId(est.createQers[i])].info == UpdateQerInfo(ZERO_QER, est.createQers[i])
  {
    var c := W.Start(w.shared, W.NewSession(W.NextSeid(w.next[addr]), est.cpSeid.value));
    var qers, urrs := QerList(est.createQers), W.Wrap(x => CreateUrr(x), est.createUrrs);
    EstablishSplits(env, c, est);
    var c1 := ApplyAll(env, c, FarList(est.createFars)).state;
    ApplyAllConcat(env, c1, qers, urrs);
    QersStored(env, c1, est.createQers);
    UrrsKeepQers(env, ApplyAll(env, c1, qers).state, urrs);
    PdrsCreated(env, ApplyAll(env, c1, qers + urrs).state, est.createPdrs);
  }

  /** The QER slots of the new session hold what its QERs were created with. */
  lemma EstablishedQersMirrored(env: Env, w: State, addr: string, est: W.EstablishReq)
    requires Inv(w.shared, w.sessions)
    requires W.Establish(env, w, addr, est).response.cause == W.Accepted
    ensures var v := W.Establish(env, w, addr, est).state;
      Mirrors(Bank(v.shared.qer, NewlyStored(env, w, addr, est).qers))
  {
    var c := W.Start(w.shared, W.NewSession(W.NextSeid(w.next[addr]), est.cpSeid.value));
    CreatesWellFormed(env, c, W.EstablishIes(est));
    var spare := UnusedKey(w.sessions);
    FocusNew(w.shared, w.sessions, c.sess, spare);
    ApplyAllKept(env, c, W.EstablishIes(est), Others(w.sessions, spare));
  }

  /** The FAR id in the record is one the new session owns. */
  lemma OwnsItsFar(env: Env, w: State, addr: string, est: W.EstablishReq, i: nat, j: nat)
    requires W.Establish(env, w, addr, est).response.cause == W.Accepted
    requires DistinctFarIds(est.createFars) && i < |est.createFars| && j < |est.createPdrs|
    requires est.createPdrs[j].farId == Some(FarId(est.createFars[i]))
    ensures var v := W.Establish(env, w, addr, est).state;
      var created := CreatedBy(env, w, addr, est);
      var sess := NewlyStored(env, w, addr, est);
      && |created| == |est.createPdrs| && FarId(est.createFars[i]) in sess.fars
      && ComposeFarInfo(est.createFars[i], ZERO_FAR) == Ok(sess.fars[FarId(est.createFars[i])].info)
      && (NoneWithKey(created, j + 1, KeyOf(created[j])) ==>
            KeyOf(created[j]) in v.shared.pdrs
            && FarIdFor(v.shared.pdrs[KeyOf(created[j])], created[j]) == sess.fars[FarId(est.createFars[i])].globalId)
  {
    EstablishedPdr(env, w, addr, est, j);
    EstablishedFar(env, w, addr, est, i);
  }

  /**
   * The i-th Create FAR and the j-th Create PDR of an accepted establishment: if the PDR names
   * the FAR and no later PDR has its key, packets of the PDR find the record composed for the FAR.
   */
  lemma EstablishedPdrResolves(env: Env, w: State, addr: string, est: W.EstablishReq, i: nat, j: nat)
    requires Inv(w.shared, w.sessions)
    requires W.Establish(env, w, addr, est).response.cause == W.Accepted
    requires DistinctFarIds(est.createFars) && i < |est.createFars| && j < |est.createPdrs|
    requires est.createPdrs[j].farId == Some(FarId(est.createFars[i]))
    ensures var v := W.Establish(env, w, addr, est).state;
      var created := CreatedBy(env, w, addr, est);
      && |created| == |est.createPdrs|
      && ComposeFarInfo(est.createFars[i], ZERO_FAR).Ok?
      && (NoneWithKey(created, j + 1, KeyOf(created[j])) ==>
            LeadsTo(v.shared, created[j], ComposeFarInfo(est.createFars[i], ZERO_FAR).value))
  {
    OwnsItsFar(env, w, addr, est, i, j);
    EstablishKeepsInv(env, w, addr, est);
    var v := W.Establish(env, w, addr, est).state;
    var key := W.SessKey(addr, W.NextSeid(w.next[addr]));
    assert Fars(v.sessions)[key][FarId(est.createFars[i])].info == ComposeFarInfo(est.createFars[i], ZERO_FAR).value;
  }

  /** It stays so over any run in which other sessions act and use other keys, traffic included. */
  lemma ResolutionPersists(env: Env, w: State, addr: string, est: W.EstablishReq, i: nat, j: nat, run: seq<Event>)
    requires Inv(w.shared, w.sessions)
    requires W.Establish(env, w, addr, est).response.cause == W.Accepted
    requires DistinctFarIds(est.createFars) && i < |est.createFars| && j < |est.createPdrs|
    requires est.createPdrs[j].farId == Some(FarId(est.createFars[i]))
    requires var created := CreatedBy(env, w, addr, est);
      j < |created| && NoneWithKey(created, j + 1, KeyOf(created[j]))
    requires var v := W.Establish(env, w, addr, est).state;
      && WellFormedRun(env, v, run)
      && OthersOnly(env, v, run, W.SessKey(addr, W.NextSeid(w.next[addr])), KeyOf(CreatedBy(env, w, addr, est)[j]))
    ensures ComposeFarInfo(est.createFars[i], ZERO_FAR).Ok?
    ensures LeadsTo(Run(env, W.Establish(env, w, addr, est).state, run).shared, CreatedBy(env, w, addr, est)[j],
                    ComposeFarInfo(est.createFars[i], ZERO_FAR).value)
  {
    var v := W.Establish(env, w, addr, est).state;
    var key := W.SessKey(addr, W.NextSeid(w.next[addr]));
    var p := CreatedBy(env, w, addr, est)[j];
    EstablishedPdrResolves(env, w, addr, est, i, j);
    EstablishKeepsInv(env, w, addr, est);
    RunOfOthers(env, v, run, key, KeyOf(p));
    OwnsItsFar(env, w, addr, est, i, j);
  }
}
