/** What every IE, and hence every list of IEs, keeps. */
module SessionLemmas {
  import opened Base
  import opened RuleTables
  import opened Resources
  import opened PdrRecords
  import opened Rules
  import opened SessionSpec

  /** The global ids all other sessions hold, per rule kind. */
  datatype Foreign = Foreign(far: set<nat>, qer: set<nat>, urr: set<nat>)

  ghost predicate SoundCtx(c: Ctx, f: Foreign) {
    Sound(FarBank(c), f.far) && Sound(QerBank(c), f.qer) && Sound(UrrBank(c), f.urr)
  }

  /** Update and Remove IEs name a rule the session has when they are processed. */
  ghost predicate WellFormedIe(c: Ctx, ie: Ie) {
    match ie
    case UpdateFar(far) => far.id.Some? ==> far.id.value in c.sess.fars
    case RemoveFar(id) => id.GetOr(0) in c.sess.fars
    case UpdateQer(qer) => qer.id.Some? ==> qer.id.value in c.sess.qers
    case RemoveQer(id) => id.Some? ==> id.value in c.sess.qers
    case UpdateUrr(urr) => urr.id.Some? ==> urr.id.value in c.sess.urrs
    case RemoveUrr(id) => id.Some? ==> id.value in c.sess.urrs
    case _ => true
  }

  ghost predicate WellFormedIes(env: Env, c: Ctx, ies: seq<Ie>)
    decreases ies
  {
    ies == [] || (
      && WellFormedIe(c, ies[0])
      && (Apply(env, c, ies[0]).ok ==> WellFormedIes(env, Apply(env, c, ies[0]).state, ies[1..])))
  }

  /** The PDR keys a session's PDRs carry. */
  ghost function Carried(sess: SessionRec): set<PdrKey> {
    set id | id in sess.pdrs :: KeyOf(sess.pdrs[id])
  }

  ghost predicate SameAt(m: map<PdrKey, PdrRecord>, n: map<PdrKey, PdrRecord>, k: PdrKey) {
    (k in m <==> k in n) && (k in m ==> m[k] == n[k])
  }

  /** All keys the session's PDRs carry at some point while the list is processed. */
  ghost function Footprint(env: Env, c: Ctx, ies: seq<Ie>): set<PdrKey>
    decreases ies
  {
    if ies == [] then Carried(c.sess)
    else
      var first := Apply(env, c, ies[0]);
      Carried(c.sess) + if first.ok then Footprint(env, first.state, ies[1..]) else Carried(first.state.sess)
  }

  /** Ownership holds afterwards and nothing foreign was touched. */
  ghost predicate Kept(c: Ctx, d: Ctx, f: Foreign) {
    && SoundCtx(d, f)
    && LeavesForeign(c.shared.far, d.shared.far, f.far)
    && LeavesForeign(c.shared.qer, d.shared.qer, f.qer)
    && LeavesForeign(c.shared.urr, d.shared.urr, f.urr)
    && (Clean(c.shared.far, ZERO_FAR) ==> Clean(d.shared.far, ZERO_FAR))
    && (Clean(c.shared.qer, ZERO_QER) ==> Clean(d.shared.qer, ZERO_QER))
    && (Clean(c.shared.urr, ZERO_URR) ==> Clean(d.shared.urr, ZERO_URR))
    && (Mirrors(FarBank(c)) ==> Mirrors(FarBank(d)))
    && (Mirrors(QerBank(c)) ==> Mirrors(QerBank(d)))
    && d.sess.localSeid == c.sess.localSeid && d.sess.remoteSeid == c.sess.remoteSeid
  }

  lemma ApplyFarKept(c: Ctx, ie: Ie, f: Foreign)
    requires SoundCtx(c, f) && WellFormedIe(c, ie) && (ie.CreateFar? || ie.UpdateFar? || ie.RemoveFar?)
    ensures Kept(c, ApplyFar(c, ie).state, f)
  {
    var b := FarBank(c);
    match ie {
      case CreateFar(far) =>
        match ComposeFarInfo(far, ZERO_FAR) {
          case Ok(info) => CreateKeepsSound(b, far.id.GetOr(0), info, f.far);
          case Err =>
        }
      case UpdateFar(far) =>
        if far.id.Some? {
          match ComposeFarInfo(far, b.rules[far.id.value].info) {
            case Ok(info) => UpdateKeepsSound(b, far.id.value, info, ZERO_FAR, f.far);
            case Err =>
          }
        }
      case RemoveFar(id) => RemoveKeepsSound(b, id.GetOr(0), ZERO_FAR, f.far);
    }
  }

  lemma ApplyQerKept(c: Ctx, ie: Ie, f: Foreign)
    requires SoundCtx(c, f) && WellFormedIe(c, ie) && (ie.CreateQer? || ie.UpdateQer? || ie.RemoveQer?)
    ensures Kept(c, ApplyQer(c, ie).state, f)
  {
    var b := QerBank(c);
    match ie {
      case CreateQer(qer) =>
        if qer.id.Some? { CreateKeepsSound(b, qer.id.value, UpdateQerInfo(ZERO_QER, qer), f.qer); }
      case UpdateQer(qer) =>
        if qer.id.Some? {
          UpdateKeepsSound(b, qer.id.value, UpdateQerInfo(b.rules[qer.id.value].info, qer), ZERO_QER, f.qer);
        }
      case RemoveQer(id) =>
        if id.Some? { RemoveKeepsSound(b, id.value, ZERO_QER, f.qer); }
    }
  }

  lemma ApplyUrrKept(c: Ctx, ie: Ie, f: Foreign)
    requires SoundCtx(c, f) && WellFormedIe(c, ie) && (ie.CreateUrr? || ie.UpdateUrr? || ie.RemoveUrr?)
    ensures Kept(c, ApplyUrr(c, ie).state, f)
  {
    var b := UrrBank(c);
    match ie {
      case CreateUrr(urr) =>
        if urr.id.Some? { CreateKeepsSound(b, urr.id.value, UpdateUrrInfo(ZERO_URR, urr), f.urr); }
      case UpdateUrr(urr) =>
        if urr.id.Some? {
          UpdateKeepsSound(b, urr.id.value, UpdateUrrInfo(b.rules[urr.id.value].info, urr), ZERO_URR, f.urr);
        }
      case RemoveUrr(id) =>
        if id.Some? { RemoveKeepsSound(b, id.value, ZERO_URR, f.urr); }
    }
  }

  /** PDR IEs leave the rule pools and the session's rules alone. */
  ghost predicate SameRules(c: Ctx, d: Ctx) {
    && d.shared.far == c.shared.far && d.shared.qer == c.shared.qer && d.shared.urr == c.shared.urr
    && d.sess == c.sess.(pdrs := d.sess.pdrs)
  }

  lemma ExtractSameRules(env: Env, c: Ctx, pdr: PdrIE, base: SPdr)
    requires ExtractPdr(env, c, pdr, base).Ok?
    ensures var d := ExtractPdr(env, c, pdr, base).value.0;
      SameRules(c, d) && d.sess == c.sess && d.shared.pdrs == c.shared.pdrs && d.shared.clock == c.shared.clock
  {
  }

  lemma ApplyPdrSameRules(env: Env, c: Ctx, ie: Ie)
    requires ie.CreatePdr? || ie.UpdatePdr? || ie.RemovePdr?
    ensures SameRules(c, ApplyPdr(env, c, ie).state)
  {
    match ie {
      case CreatePdr(pdr) =>
        if pdr.id.Some? && ExtractPdr(env, c, pdr, ZERO_PDR.(pdrId := pdr.id.value)).Ok? {
          ExtractSameRules(env, c, pdr, ZERO_PDR.(pdrId := pdr.id.value));
        }
      case UpdatePdr(pdr) =>
        if pdr.id.Some? && ExtractPdr(env, c, pdr, Lookup(c.sess.pdrs, pdr.id.value, ZERO_PDR)).Ok? {
          ExtractSameRules(env, c, pdr, Lookup(c.sess.pdrs, pdr.id.value, ZERO_PDR));
        }
      case RemovePdr(id) =>
    }
  }

  /** One IE keeps ownership, whether it succeeds or fails. */
  lemma ApplyKept(env: Env, c: Ctx, ie: Ie, f: Foreign)
    requires SoundCtx(c, f) && WellFormedIe(c, ie)
    ensures Kept(c, Apply(env, c, ie).state, f)
  {
    if ie.CreateFar? || ie.UpdateFar? || ie.RemoveFar? {
      ApplyFarKept(c, ie, f);
    } else if ie.CreateQer? || ie.UpdateQer? || ie.RemoveQer? {
      ApplyQerKept(c, ie, f);
    } else if ie.CreateUrr? || ie.UpdateUrr? || ie.RemoveUrr? {
      ApplyUrrKept(c, ie, f);
    } else {
      ApplyPdrSameRules(env, c, ie);
    }
  }

  /** So does a list of IEs, wherever it stops. */
  lemma {:induction false} ApplyAllKept(env: Env, c: Ctx, ies: seq<Ie>, f: Foreign)
    requires SoundCtx(c, f) && WellFormedIes(env, c, ies)
    ensures Kept(c, ApplyAll(env, c, ies).state, f)
    decreases ies
  {
    if ies != [] {
      ApplyKept(env, c, ies[0], f);
      var first := Apply(env, c, ies[0]);
      if first.ok { ApplyAllKept(env, first.state, ies[1..], f); }
    }
  }

  // ---------------------------------------------------------------- PDR tables

  lemma StoreTouchesItsKey(env: Env, c: Ctx, id: nat, p: SPdr, k: PdrKey)
    requires k !in Carried(StorePdr(env, c, id, p).state.sess)
    ensures SameAt(c.shared.pdrs, StorePdr(env, c, id, p).state.shared.pdrs, k)
  {
    var d := StorePdr(env, c, id, p).state;
    assert d.sess.pdrs[id] == p;
  }

  lemma RemoveTouchesItsKey(env: Env, c: Ctx, id: Option<nat>, k: PdrKey)
    requires k !in Carried(c.sess)
    ensures SameAt(c.shared.pdrs, ApplyPdr(env, c, RemovePdr(id)).state.shared.pdrs, k)
  {
    if id.GetOr(0) in c.sess.pdrs {
      assert KeyOf(c.sess.pdrs[id.GetOr(0)]) in Carried(c.sess);
    }
  }

  lemma InstallTouchesItsKey(env: Env, c: Ctx, pdr: PdrIE, base: SPdr, id: nat, k: PdrKey)
    requires ExtractPdr(env, c, pdr, base).Ok?
    requires var (e, p) := ExtractPdr(env, c, pdr, base).value; k !in Carried(StorePdr(env, e, id, p).state.sess)
    ensures var (e, p) := ExtractPdr(env, c, pdr, base).value;
      SameAt(c.shared.pdrs, StorePdr(env, e, id, p).state.shared.pdrs, k)
  {
    ExtractSameRules(env, c, pdr, base);
    var (e, p) := ExtractPdr(env, c, pdr, base).value;
    StoreTouchesItsKey(env, e, id, p, k);
  }

  lemma ApplyPdrTouchesCarried(env: Env, c: Ctx, ie: Ie, k: PdrKey)
    requires ie.CreatePdr? || ie.UpdatePdr? || ie.RemovePdr?
    requires k !in Carried(c.sess) && k !in Carried(ApplyPdr(env, c, ie).state.sess)
    ensures SameAt(c.shared.pdrs, ApplyPdr(env, c, ie).state.shared.pdrs, k)
  {
    match ie {
      case CreatePdr(pdr) =>
        if pdr.id.Some? && ExtractPdr(env, c, pdr, ZERO_PDR.(pdrId := pdr.id.value)).Ok? {
          InstallTouchesItsKey(env, c, pdr, ZERO_PDR.(pdrId := pdr.id.value), pdr.id.value, k);
        }
      case UpdatePdr(pdr) =>
        if pdr.id.Some? && ExtractPdr(env, c, pdr, Lookup(c.sess.pdrs, pdr.id.value, ZERO_PDR)).Ok? {
          InstallTouchesItsKey(env, c, pdr, Lookup(c.sess.pdrs, pdr.id.value, ZERO_PDR), pdr.id.value, k);
        }
      case RemovePdr(id) => RemoveTouchesItsKey(env, c, id, k);
    }
  }

  lemma ApplyTouchesCarried(env: Env, c: Ctx, ie: Ie, k: PdrKey)
    requires k !in Carried(c.sess) && k !in Carried(Apply(env, c, ie).state.sess)
    ensures SameAt(c.shared.pdrs, Apply(env, c, ie).state.shared.pdrs, k)
  {
    if ie.CreatePdr? || ie.UpdatePdr? || ie.RemovePdr? { ApplyPdrTouchesCarried(env, c, ie, k); }
  }

  /** A list of IEs writes no PDR key beyond those its session's PDRs carry meanwhile. */
  lemma {:induction false} ApplyAllTouchesFootprint(env: Env, c: Ctx, ies: seq<Ie>, k: PdrKey)
    requires k !in Footprint(env, c, ies)
    ensures SameAt(c.shared.pdrs, ApplyAll(env, c, ies).state.shared.pdrs, k)
    decreases ies
  {
    if ies != [] {
      var first := Apply(env, c, ies[0]);
      if first.ok {
        assert Carried(first.state.sess) <= Footprint(env, first.state, ies[1..]);
        ApplyTouchesCarried(env, c, ies[0], k);
        ApplyAllTouchesFootprint(env, first.state, ies[1..], k);
      } else {
        ApplyTouchesCarried(env, c, ies[0], k);
      }
    }
  }
}
