/**
 * Ownership of global ids across all sessions, over every run of the control plane.
 */
module Ownership {
  import opened Base
  import opened RuleTables
  import opened Resources
  import opened PdrRecords
  import opened Rules
  import opened SessionSpec
  import opened SessionLemmas
  import opened World

  // ---------------------------------------------------------------- one rule kind

  /** All sessions' rules of one kind. */
  type RuleMaps<T> = map<SessKey, map<nat, Rule<T>>>

  /** Each id is in range, held by at most one rule of one session, and not free while held. */
  ghost predicate OwnedOnce<T>(m: RuleMaps<T>, p: Pool<T>) {
    && (forall g :: g in p.free ==> g < |p.slots|)
    && (forall k, i :: k in m && i in m[k] ==> m[k][i].globalId < |p.slots| && m[k][i].globalId !in p.free)
    && (forall k, i, l, j ::
          (k in m && i in m[k] && l in m && j in m[l] && m[k][i].globalId == m[l][j].globalId) ==> k == l && i == j)
  }

  ghost function ForeignIds<T>(m: RuleMaps<T>, key: SessKey): set<nat> {
    set k, i | k in m && k != key && i in m[k] :: m[k][i].globalId
  }

  function RulesOf<T>(m: RuleMaps<T>, key: SessKey): map<nat, Rule<T>> {
    if key in m then m[key] else map[]
  }

  /** The global discipline as one session sees it. */
  lemma Focus<T>(m: RuleMaps<T>, p: Pool<T>, key: SessKey)
    requires OwnedOnce(m, p)
    ensures Sound(Bank(p, RulesOf(m, key)), ForeignIds(m, key))
  {
    if key in m {
      forall i | i in m[key] ensures m[key][i].globalId !in ForeignIds(m, key) {
      }
    }
  }

  /** What one session keeps to extends back to all sessions. */
  lemma Unfocus<T>(m: RuleMaps<T>, p: Pool<T>, key: SessKey, b: Bank<T>)
    requires OwnedOnce(m, p)
    requires Sound(b, ForeignIds(m, key)) && |b.pool.slots| == |p.slots|
    ensures OwnedOnce(m[key := b.rules], b.pool)
  {
    var n: RuleMaps<T> := m[key := b.rules];
    forall k: SessKey, i: nat | k in m && k != key && i in m[k]
      ensures m[k][i].globalId in ForeignIds(m, key)
      ensures forall j :: j in b.rules ==> b.rules[j].globalId != m[k][i].globalId
    {
    }
    forall k: SessKey, i: nat, l: SessKey, j: nat
      | k in n && i in n[k] && l in n && j in n[l] && n[k][i].globalId == n[l][j].globalId
      ensures k == l && i == j
    {
      if k != key && l != key { assert m[k][i].globalId == m[l][j].globalId; }
    }
  }

  lemma ForgetSession<T>(m: RuleMaps<T>, p: Pool<T>, key: SessKey)
    requires OwnedOnce(m, p)
    ensures OwnedOnce(m - {key}, p)
  {
  }

  /** The ids of a set of rules join the free ids; their slots are cleared; nothing else moves. */
  ghost predicate Dropped<T>(p: Pool<T>, q: Pool<T>, ids: set<nat>, zero: T) {
    && q.free == p.free + ids
    && |q.slots| == |p.slots|
    && (forall g :: 0 <= g < |p.slots| ==> q.slots[g] == if g in ids then zero else p.slots[g])
  }

  lemma {:induction false} DropAllDrops<T>(p: Pool<T>, rules: map<nat, Rule<T>>, order: seq<nat>, zero: T)
    requires forall k :: k in order ==> k in rules && rules[k].globalId < |p.slots|
    ensures DropAll(p, rules, order, zero).ok
    ensures DropEach(p, rules, order, zero) == DropAll(p, rules, order, zero).state
    ensures Dropped(p, DropAll(p, rules, order, zero).state, set k | k in order :: rules[k].globalId, zero)
    decreases order
  {
    if order != [] {
      var g := rules[order[0]].globalId;
      DropAllDrops(DropSlot(p, g, zero).state, rules, order[1..], zero);
      var later := set k | k in order[1..] :: rules[k].globalId;
      assert (set k | k in order :: rules[k].globalId) == {g} + later by {
        forall k | k in order ensures rules[k].globalId in {g} + later {
          if k != order[0] { assert k in order[1..]; }
        }
      }
    }
  }

  lemma DropSessionDrops<T>(m: RuleMaps<T>, p: Pool<T>, key: SessKey, order: seq<nat>, zero: T)
    requires OwnedOnce(m, p) && key in m && Enumerates(order, m[key].Keys)
    ensures DropAll(p, m[key], order, zero).ok
    ensures DropEach(p, m[key], order, zero) == DropAll(p, m[key], order, zero).state
    ensures Dropped(p, DropAll(p, m[key], order, zero).state, Held(m[key]), zero)
  {
    DropAllDrops(p, m[key], order, zero);
    assert (set k | k in order :: m[key][k].globalId) == Held(m[key]);
  }

  /** Once its session is gone, dropping its rules frees ids nobody holds. */
  lemma DroppedKeepsOwned<T>(m: RuleMaps<T>, p: Pool<T>, key: SessKey, q: Pool<T>, zero: T)
    requires OwnedOnce(m, p) && key in m && Dropped(p, q, Held(m[key]), zero)
    ensures OwnedOnce(m - {key}, q)
    ensures Clean(p, zero) ==> Clean(q, zero)
  {
    forall k, i | k in m && k != key && i in m[k] ensures m[k][i].globalId !in q.free {
      assert forall j :: j in m[key] ==> m[key][j].globalId != m[k][i].globalId;
    }
  }

  /** Slots other sessions own keep their contents. */
  lemma DroppedLeavesForeign<T>(m: RuleMaps<T>, p: Pool<T>, key: SessKey, q: Pool<T>, zero: T)
    requires OwnedOnce(m, p) && key in m && Dropped(p, q, Held(m[key]), zero)
    ensures LeavesForeign(p, q, ForeignIds(m, key))
  {
    forall g | g in ForeignIds(m, key) && g < |p.slots| ensures q.slots[g] == p.slots[g] {
      var k, i :| k in m && k != key && i in m[k] && m[k][i].globalId == g;
      assert forall j :: j in m[key] ==> m[key][j].globalId != m[k][i].globalId;
    }
  }

  /** Every slot of every held rule holds the record its session remembers. */
  ghost predicate AllMirror<T>(m: RuleMaps<T>, p: Pool<T>) {
    forall k, i :: k in m && i in m[k] ==>
      m[k][i].globalId < |p.slots| && p.slots[m[k][i].globalId] == m[k][i].info
  }

  lemma UnfocusMirror<T>(m: RuleMaps<T>, p: Pool<T>, key: SessKey, b: Bank<T>)
    requires OwnedOnce(m, p) && AllMirror(m, p) && Mirrors(b) && LeavesForeign(p, b.pool, ForeignIds(m, key))
    ensures AllMirror(m[key := b.rules], b.pool)
    ensures AllMirror(m - {key}, b.pool)
  {
    forall k, i | k in m && k != key && i in m[k]
      ensures m[k][i].globalId < |b.pool.slots| && b.pool.slots[m[k][i].globalId] == m[k][i].info
    {
      assert m[k][i].globalId in ForeignIds(m, key);
    }
  }
}
