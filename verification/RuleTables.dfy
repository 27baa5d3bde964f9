/**
 * FAR, QER and URR storage.  The data plane reads each kind of rule from a BPF array; an
 * IdTracker hands out the array indices ("global ids"), and every session keeps a map from
 * the rule ids of the peer to the global ids it was given.  The three kinds are handled by the
 * same code in the original, so they share one generic model here.
 */
module RuleTables {
  import opened Base

  /** A session's record of one rule (SFarInfo, SQerInfo, SUrrInfo). */
  datatype Rule<T> = Rule(info: T, globalId: nat)

  /** The tracker's free ids together with the BPF array they index. */
  datatype Pool<T> = Pool(free: set<nat>, slots: seq<T>)

  /** What one session sees: the shared pool and its own rules. */
  datatype Bank<T> = Bank(pool: Pool<T>, rules: map<nat, Rule<T>>)

  datatype Outcome<+S> = Outcome(state: S, ok: bool)

  // ---------------------------------------------------------------- pool operations

  /** NewFar / NewQer / NewUrr: take the least free id and fill its slot. */
  ghost function TakeSlot<T>(p: Pool<T>, info: T): Option<(Pool<T>, nat)> {
    if p.free == {} then None
    else
      var g := Min(p.free);
      var q := p.(free := p.free - {g});
      if g < |p.slots| then Some((q.(slots := p.slots[g := info]), g)) else None
  }

  /** What a failed New leaves: the id it took, if there was one, is lost. */
  ghost function WithoutLeast<T>(p: Pool<T>): Pool<T> {
    p.(free := if p.free == {} then {} else p.free - {Min(p.free)})
  }

  /** UpdateFar / UpdateQer / UpdateUrr. */
  function StoreSlot<T>(p: Pool<T>, g: nat, info: T): Outcome<Pool<T>> {
    if g < |p.slots| then Outcome(p.(slots := p.slots[g := info]), true) else Outcome(p, false)
  }

  /** DeleteFar / DeleteQer: release the id, then overwrite the slot with the zero record. */
  function DropSlot<T>(p: Pool<T>, g: nat, zero: T): Outcome<Pool<T>> {
    if g < |p.slots| then Outcome(Pool(p.free + {g}, p.slots[g := zero]), true) else Outcome(p, false)
  }

  // ---------------------------------------------------------------- session operations

  ghost function CreateRule<T>(b: Bank<T>, id: nat, info: T): Outcome<Bank<T>> {
    match TakeSlot(b.pool, info)
    case None => Outcome(b.(pool := WithoutLeast(b.pool)), false)
    case Some((pool, g)) => Outcome(Bank(pool, b.rules[id := Rule(info, g)]), true)
  }

  function UpdateRule<T>(b: Bank<T>, id: nat, info: T, zero: T): Outcome<Bank<T>> {
    var g := Lookup(b.rules, id, Rule(zero, 0)).globalId;
    var stored := StoreSlot(b.pool, g, info);
    Outcome(Bank(stored.state, b.rules[id := Rule(info, g)]), stored.ok)
  }

  function RemoveRule<T>(b: Bank<T>, id: nat, zero: T): Outcome<Bank<T>> {
    var g := Lookup(b.rules, id, Rule(zero, 0)).globalId;
    var dropped := DropSlot(b.pool, g, zero);
    Outcome(Bank(dropped.state, b.rules - {id}), dropped.ok)
  }

  // ---------------------------------------------------------------- ownership

  /**
   * The ownership discipline seen by one session: foreign is the set of ids other sessions
   * hold.  Every id is in range and is free, or foreign, or held by exactly one of the
   * session's rules, or lost -- never two of these.
   */
  ghost predicate Sound<T>(b: Bank<T>, foreign: set<nat>) {
    && (forall g :: g in b.pool.free ==> g < |b.pool.slots| && g !in foreign)
    && (forall i :: i in b.rules ==>
          && b.rules[i].globalId < |b.pool.slots|
          && b.rules[i].globalId !in b.pool.free
          && b.rules[i].globalId !in foreign)
    && (forall i, j :: i in b.rules && j in b.rules && i != j ==> b.rules[i].globalId != b.rules[j].globalId)
  }

  /** Every slot of a free id holds the zero record. */
  ghost predicate Clean<T>(p: Pool<T>, zero: T) {
    forall g :: g in p.free && g < |p.slots| ==> p.slots[g] == zero
  }

  /** The array agrees with what the session believes it stored. */
  ghost predicate Mirrors<T>(b: Bank<T>) {
    forall i :: i in b.rules ==>
      b.rules[i].globalId < |b.pool.slots| && b.pool.slots[b.rules[i].globalId] == b.rules[i].info
  }

  /** Nothing outside the session's own and the free ids was touched. */
  ghost predicate LeavesForeign<T>(p: Pool<T>, q: Pool<T>, foreign: set<nat>) {
    && |q.slots| == |p.slots|
    && (forall g :: g in foreign && g < |p.slots| ==> q.slots[g] == p.slots[g])
  }

  /** No id becomes available out of nothing: what is free or held afterwards was so before. */
  ghost predicate NoNewIds<T>(b: Bank<T>, c: Bank<T>) {
    forall g :: g in c.pool.free || g in Held(c.rules) ==> g in b.pool.free || g in Held(b.rules)
  }

  ghost function Held<T>(rules: map<nat, Rule<T>>): set<nat> {
    set i | i in rules :: rules[i].globalId
  }

  lemma CreateKeepsSound<T>(b: Bank<T>, id: nat, info: T, foreign: set<nat>)
    requires Sound(b, foreign)
    ensures var c := CreateRule(b, id, info).state;
      && Sound(c, foreign) && LeavesForeign(b.pool, c.pool, foreign) && NoNewIds(b, c)
      && (forall zero :: Clean(b.pool, zero) ==> Clean(c.pool, zero))
      && (Mirrors(b) ==> Mirrors(c))
  {
  }

  lemma UpdateKeepsSound<T>(b: Bank<T>, id: nat, info: T, zero: T, foreign: set<nat>)
    requires Sound(b, foreign) && id in b.rules
    ensures var c := UpdateRule(b, id, info, zero);
      && c.ok
      && Sound(c.state, foreign) && LeavesForeign(b.pool, c.state.pool, foreign) && NoNewIds(b, c.state)
      && (Clean(b.pool, zero) ==> Clean(c.state.pool, zero))
      && (Mirrors(b) ==> Mirrors(c.state))
  {
  }

  lemma RemoveKeepsSound<T>(b: Bank<T>, id: nat, zero: T, foreign: set<nat>)
    requires Sound(b, foreign) && id in b.rules
    ensures var c := RemoveRule(b, id, zero);
      && c.ok
      && Sound(c.state, foreign) && LeavesForeign(b.pool, c.state.pool, foreign) && NoNewIds(b, c.state)
      && (Clean(b.pool, zero) ==> Clean(c.state.pool, zero))
      && (Mirrors(b) ==> Mirrors(c.state))
  {
  }

  /**
   * An id the session does not know resolves to global id 0.  Removing it frees id 0 under
   * whoever holds it, so ownership survives exactly when nobody does.
   */
  lemma RemoveUnknownSoundIff<T>(b: Bank<T>, id: nat, zero: T, foreign: set<nat>)
    requires Sound(b, foreign) && id !in b.rules && b.pool.slots != []
    ensures Sound(RemoveRule(b, id, zero).state, foreign) <==> 0 !in foreign && 0 !in Held(b.rules)
  {
    var c := RemoveRule(b, id, zero).state;
    assert c.rules == b.rules;
    if 0 in Held(b.rules) {
      var i :| i in b.rules && b.rules[i].globalId == 0;
      assert c.rules[i].globalId in c.pool.free;
    }
    assert 0 in c.pool.free;
  }

  /**
   * Updating an unknown id makes the session hold global id 0 from then on: ownership survives
   * exactly when id 0 was lost before, neither free nor held by anyone.
   */
  lemma UpdateUnknownSoundIff<T>(b: Bank<T>, id: nat, info: T, zero: T, foreign: set<nat>)
    requires Sound(b, foreign) && id !in b.rules && b.pool.slots != []
    ensures Sound(UpdateRule(b, id, info, zero).state, foreign)
       <==> 0 !in foreign && 0 !in Held(b.rules) && 0 !in b.pool.free
  {
    var c := UpdateRule(b, id, info, zero).state;
    assert c.rules[id].globalId == 0;
    if 0 in Held(b.rules) {
      var i :| i in b.rules && b.rules[i].globalId == 0;
      assert i in c.rules && c.rules[i].globalId == c.rules[id].globalId;
    }
  }
}
