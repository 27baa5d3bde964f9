/**
 * The TEID and UE-address pools.  Both hand resources out from the front of a queue and append
 * what is given back, so a released resource waits behind everything queued before it.
 */
module Resources {
  import opened Base

  /** freeTEIDs and busyTEIDs: session id -> PDR id -> TEID. */
  datatype TeidPool = TeidPool(free: seq<nat>, busy: map<nat, map<nat, nat>>)

  /** freeIPs and busyIPs: session id -> address. */
  datatype IpPool = IpPool(free: seq<Ip4>, busy: map<nat, Ip4>)

  function Row(p: TeidPool, seid: nat): map<nat, nat> {
    if seid in p.busy then p.busy[seid] else map[]
  }

  function AllocateTeid(p: TeidPool, seid: nat, pdr: nat): Option<(TeidPool, nat)> {
    if p.free == [] then None
    else Some((TeidPool(p.free[1..], p.busy[seid := Row(p, seid)[pdr := p.free[0]]]), p.free[0]))
  }

  /** The TEIDs of one row in the order the map iteration visits them. */
  function InOrder(row: map<nat, nat>, order: seq<nat>): (s: seq<nat>)
    requires forall k :: k in order ==> k in row
    ensures |s| == |order| && forall i :: 0 <= i < |s| ==> s[i] == row[order[i]]
  {
    if order == [] then [] else [row[order[0]]] + InOrder(row, order[1..])
  }

  function ReleaseTeids(p: TeidPool, seid: nat, order: seq<nat>): TeidPool
    requires forall k :: k in order ==> k in Row(p, seid)
  {
    if seid in p.busy then TeidPool(p.free + InOrder(Row(p, seid), order), p.busy - {seid}) else p
  }

  function AllocateIp(p: IpPool, seid: nat): Option<(IpPool, Ip4)> {
    if p.free == [] then None else Some((IpPool(p.free[1..], p.busy[seid := p.free[0]]), p.free[0]))
  }

  function ReleaseIp(p: IpPool, seid: nat): IpPool {
    if seid in p.busy then IpPool(p.free + [p.busy[seid]], p.busy - {seid}) else p
  }

  // ---------------------------------------------------------------- runs of the TEID pool

  datatype PoolEvent = Alloc(seid: nat, pdr: nat) | Release(seid: nat, order: seq<nat>)

  ghost predicate Possible(p: TeidPool, e: PoolEvent) {
    e.Release? ==> Enumerates(e.order, Row(p, e.seid).Keys)
  }

  ghost function PoolStep(p: TeidPool, e: PoolEvent): TeidPool
    requires Possible(p, e)
  {
    match e
    case Alloc(seid, pdr) => (match AllocateTeid(p, seid, pdr) case Some((q, _)) => q case None => p)
    case Release(seid, order) => ReleaseTeids(p, seid, order)
  }

  ghost predicate PossibleRun(p: TeidPool, run: seq<PoolEvent>)
    decreases run
  {
    run == [] || (Possible(p, run[0]) && PossibleRun(PoolStep(p, run[0]), run[1..]))
  }

  ghost function PoolRun(p: TeidPool, run: seq<PoolEvent>): TeidPool
    requires PossibleRun(p, run)
    decreases run
  {
    if run == [] then p else PoolRun(PoolStep(p, run[0]), run[1..])
  }

  /** The TEIDs a run hands out, in order. */
  ghost function HandedOut(p: TeidPool, run: seq<PoolEvent>): seq<nat>
    requires PossibleRun(p, run)
    decreases run
  {
    if run == [] then []
    else
      (if run[0].Alloc? && p.free != [] then [p.free[0]] else [])
      + HandedOut(PoolStep(p, run[0]), run[1..])
  }

  /** The TEIDs a run gives back, in order. */
  ghost function GivenBack(p: TeidPool, run: seq<PoolEvent>): seq<nat>
    requires PossibleRun(p, run)
    decreases run
  {
    if run == [] then []
    else
      (if run[0].Release? && run[0].seid in p.busy then InOrder(Row(p, run[0].seid), run[0].order) else [])
      + GivenBack(PoolStep(p, run[0]), run[1..])
  }

  /**
   * The queue law: what was handed out followed by what is still free is exactly what was free
   * followed by what came back.  Nothing overtakes, nothing is skipped.
   */
  lemma {:induction false} QueueLaw(p: TeidPool, run: seq<PoolEvent>)
    requires PossibleRun(p, run)
    ensures HandedOut(p, run) + PoolRun(p, run).free == p.free + GivenBack(p, run)
    decreases run
  {
    if run != [] {
      var q := PoolStep(p, run[0]);
      QueueLaw(q, run[1..]);
      var out := if run[0].Alloc? && p.free != [] then [p.free[0]] else [];
      var mine := if run[0].Release? && run[0].seid in p.busy then InOrder(Row(p, run[0].seid), run[0].order) else [];
      assert out + q.free == p.free + mine;
      Splice(out, HandedOut(q, run[1..]), PoolRun(q, run[1..]).free, p.free, mine, GivenBack(q, run[1..]), q.free);
    }
  }

  lemma Splice(out: seq<nat>, given: seq<nat>, end: seq<nat>, free: seq<nat>, mine: seq<nat>, back: seq<nat>,
               next: seq<nat>)
    requires out + next == free + mine
    requires given + end == next + back
    ensures (out + given) + end == free + (mine + back)
  {
    assert (out + given) + end == out + (given + end);
    assert out + (next + back) == (out + next) + back;
    assert (free + mine) + back == free + (mine + back);
  }

  /**
   * First come, first served: the TEID waiting at position i of the queue is the i-th one handed
   * out by any run that hands out that many, and is not handed out earlier under another index.
   */
  lemma ReleasedTeidWaitsItsTurn(p: TeidPool, run: seq<PoolEvent>, i: nat)
    requires PossibleRun(p, run) && i < |p.free|
    ensures i < |HandedOut(p, run)| ==> HandedOut(p, run)[i] == p.free[i]
    ensures i >= |HandedOut(p, run)| ==>
              i - |HandedOut(p, run)| < |PoolRun(p, run).free|
              && PoolRun(p, run).free[i - |HandedOut(p, run)|] == p.free[i]
  {
    QueueLaw(p, run);
    var handed, rest := HandedOut(p, run), PoolRun(p, run).free;
    assert (handed + rest)[i] == (p.free + GivenBack(p, run))[i] == p.free[i];
  }

  /** Free and busy TEIDs are pairwise distinct and lie in 1 .. n. */
  ghost predicate Distinct(p: TeidPool, n: nat) {
    && (forall i :: 0 <= i < |p.free| ==> 1 <= p.free[i] <= n)
    && (forall i, j :: 0 <= i < j < |p.free| ==> p.free[i] != p.free[j])
    && (forall s, k :: s in p.busy && k in p.busy[s] ==> 1 <= p.busy[s][k] <= n && p.busy[s][k] !in p.free)
    && (forall s, k, t, l ::
          (s in p.busy && k in p.busy[s] && t in p.busy && l in p.busy[t] && p.busy[s][k] == p.busy[t][l])
          ==> s == t && k == l)
  }

  ghost predicate InUse(p: TeidPool, teid: nat) {
    exists s, k :: s in p.busy && k in p.busy[s] && p.busy[s][k] == teid
  }

  /** Every TEID of the pool is accounted for. */
  ghost predicate Complete(p: TeidPool, n: nat) {
    forall teid :: 1 <= teid <= n ==> teid in p.free || InUse(p, teid)
  }

  lemma AllocateKeepsDistinct(p: TeidPool, seid: nat, pdr: nat, n: nat)
    requires Distinct(p, n) && p.free != []
    ensures Distinct(AllocateTeid(p, seid, pdr).value.0, n)
  {
    var q := AllocateTeid(p, seid, pdr).value.0;
    forall s, k | s in q.busy && k in q.busy[s]
      ensures (s == seid && k == pdr) || (s in p.busy && k in p.busy[s] && q.busy[s][k] == p.busy[s][k])
    {
    }
  }

  lemma ReleaseKeepsDistinct(p: TeidPool, seid: nat, order: seq<nat>, n: nat)
    requires Distinct(p, n) && seid in p.busy && Enumerates(order, p.busy[seid].Keys)
    ensures Distinct(ReleaseTeids(p, seid, order), n)
  {
    var q := ReleaseTeids(p, seid, order);
    var row := p.busy[seid];
    InOrderDistinct(row, order);
    var released := InOrder(row, order);
    forall i | 0 <= i < |released| ensures 1 <= released[i] <= n && released[i] !in p.free {
    }
    JoinDistinct(p.free, released);
    forall s, k | s in q.busy && k in q.busy[s] ensures 1 <= q.busy[s][k] <= n && q.busy[s][k] !in q.free {
      StaysBooked(p, seid, order, n, s, k);
    }
  }

  /** What another session has booked is not among the released TEIDs. */
  lemma StaysBooked(p: TeidPool, seid: nat, order: seq<nat>, n: nat, s: nat, k: nat)
    requires Distinct(p, n) && seid in p.busy && Enumerates(order, p.busy[seid].Keys)
    requires s in p.busy && s != seid && k in p.busy[s]
    ensures 1 <= p.busy[s][k] <= n && p.busy[s][k] !in p.free + InOrder(p.busy[seid], order)
  {
    InOrderDistinct(p.busy[seid], order);
    forall i | 0 <= i < |order| ensures InOrder(p.busy[seid], order)[i] != p.busy[s][k] {
    }
  }

  /** A row whose TEIDs differ, listed in an order that names no PDR twice. */
  lemma InOrderDistinct(row: map<nat, nat>, order: seq<nat>)
    requires Enumerates(order, row.Keys)
    requires forall k, l :: k in row && l in row && row[k] == row[l] ==> k == l
    ensures |InOrder(row, order)| == |order|
    ensures forall i :: 0 <= i < |order| ==> order[i] in row && InOrder(row, order)[i] == row[order[i]]
    ensures forall i, j :: 0 <= i < j < |order| ==> InOrder(row, order)[i] != InOrder(row, order)[j]
  {
    forall i | 0 <= i < |order| ensures order[i] in row && InOrder(row, order)[i] == row[order[i]] {
      assert order[i] in order && order[i] in row.Keys;
    }
  }

  lemma JoinDistinct(a: seq<nat>, b: seq<nat>)
    requires forall i, j :: 0 <= i < j < |a| ==> a[i] != a[j]
    requires forall i, j :: 0 <= i < j < |b| ==> b[i] != b[j]
    requires forall i :: 0 <= i < |b| ==> b[i] !in a
    ensures forall i, j :: 0 <= i < j < |a + b| ==> (a + b)[i] != (a + b)[j]
  {
    forall i, j | 0 <= i < j < |a + b| ensures (a + b)[i] != (a + b)[j] {
      if j >= |a| { assert (a + b)[j] == b[j - |a|]; }
      if i >= |a| { assert (a + b)[i] == b[i - |a|]; } else { assert (a + b)[i] in a; }
    }
  }

  lemma StepKeepsDistinct(p: TeidPool, e: PoolEvent, n: nat)
    requires Distinct(p, n) && Possible(p, e)
    ensures Distinct(PoolStep(p, e), n)
  {
    match e {
      case Alloc(seid, pdr) => if p.free != [] { AllocateKeepsDistinct(p, seid, pdr, n); }
      case Release(seid, order) => if seid in p.busy { ReleaseKeepsDistinct(p, seid, order, n); }
    }
  }

  /** No run hands the same TEID to two owners at once. */
  lemma {:induction false} RunKeepsDistinct(p: TeidPool, run: seq<PoolEvent>, n: nat)
    requires Distinct(p, n) && PossibleRun(p, run)
    ensures Distinct(PoolRun(p, run), n)
    decreases run
  {
    if run != [] {
      StepKeepsDistinct(p, run[0], n);
      RunKeepsDistinct(PoolStep(p, run[0]), run[1..], n);
    }
  }

  /** Giving back a session's TEIDs loses none of them. */
  lemma ReleaseKeepsComplete(p: TeidPool, seid: nat, order: seq<nat>, n: nat)
    requires Complete(p, n) && Possible(p, Release(seid, order))
    ensures Complete(ReleaseTeids(p, seid, order), n)
  {
    var q := ReleaseTeids(p, seid, order);
    forall teid | 1 <= teid <= n ensures teid in q.free || InUse(q, teid) {
      if teid !in p.free {
        var s, k :| s in p.busy && k in p.busy[s] && p.busy[s][k] == teid;
        if s == seid {
          var i :| 0 <= i < |order| && order[i] == k;
          assert q.free[|p.free| + i] == teid;
        } else {
          assert q.busy[s][k] == teid;
        }
      }
    }
  }

  lemma FirstAllocationKeepsComplete(p: TeidPool, seid: nat, pdr: nat, n: nat)
    requires Complete(p, n) && p.free != [] && pdr !in Row(p, seid)
    ensures Complete(AllocateTeid(p, seid, pdr).value.0, n)
  {
    var q := AllocateTeid(p, seid, pdr).value.0;
    forall teid | 1 <= teid <= n ensures teid in q.free || InUse(q, teid) {
      if teid == p.free[0] {
        assert q.busy[seid][pdr] == teid;
      } else if teid in p.free {
        var i :| 0 <= i < |p.free| && p.free[i] == teid;
        assert q.free[i - 1] == teid;
      } else {
        var s, k :| s in p.busy && k in p.busy[s] && p.busy[s][k] == teid;
        assert q.busy[s][k] == teid;
      }
    }
  }

  lemma SecondAllocationForgets(p: TeidPool, seid: nat, pdr: nat, n: nat)
    requires Distinct(p, n) && p.free != [] && pdr in Row(p, seid)
    ensures var q := AllocateTeid(p, seid, pdr).value.0;
      p.busy[seid][pdr] !in q.free && !InUse(q, p.busy[seid][pdr])
  {
    var q := AllocateTeid(p, seid, pdr).value.0;
    var lost := p.busy[seid][pdr];
    assert lost !in p.free;
    forall s, k | s in q.busy && k in q.busy[s] ensures q.busy[s][k] != lost {
      if s == seid && k == pdr {
        assert q.busy[s][k] == p.free[0];
      } else {
        assert s in p.busy && k in p.busy[s] && q.busy[s][k] == p.busy[s][k];
      }
    }
  }

  /**
   * Allocating keeps every TEID accounted for exactly when the pool is empty or the
   * (session, PDR) pair holds none yet: a second allocation forgets the first TEID for good.
   */
  lemma AllocateKeepsCompleteIff(p: TeidPool, seid: nat, pdr: nat, n: nat)
    requires Distinct(p, n) && Complete(p, n)
    ensures Complete(PoolStep(p, Alloc(seid, pdr)), n) <==> p.free == [] || pdr !in Row(p, seid)
  {
    if p.free != [] {
      if pdr in Row(p, seid) {
        SecondAllocationForgets(p, seid, pdr, n);
        assert 1 <= p.busy[seid][pdr] <= n;
      } else {
        FirstAllocationKeepsComplete(p, seid, pdr, n);
      }
    }
  }

  /** No pair in the run allocates while it still holds a TEID. */
  ghost predicate NoDoubleAllocation(p: TeidPool, run: seq<PoolEvent>)
    requires PossibleRun(p, run)
    decreases run
  {
    run == [] || (
      && (run[0].Alloc? ==> run[0].pdr !in Row(p, run[0].seid))
      && NoDoubleAllocation(PoolStep(p, run[0]), run[1..]))
  }

  /** Without double allocation free and busy TEIDs partition 1 .. n over every run. */
  lemma {:induction false} RunKeepsPartition(p: TeidPool, run: seq<PoolEvent>, n: nat)
    requires Distinct(p, n) && Complete(p, n) && PossibleRun(p, run) && NoDoubleAllocation(p, run)
    ensures Distinct(PoolRun(p, run), n) && Complete(PoolRun(p, run), n)
    decreases run
  {
    if run != [] {
      StepKeepsDistinct(p, run[0], n);
      match run[0] {
        case Alloc(seid, pdr) => AllocateKeepsCompleteIff(p, seid, pdr, n);
        case Release(seid, order) => ReleaseKeepsComplete(p, seid, order, n);
      }
      RunKeepsPartition(PoolStep(p, run[0]), run[1..], n);
    }
  }

  // ---------------------------------------------------------------- the pools as objects

  class FTEIDM {
    var freeTEIDs: seq<nat>
    var busyTEIDs: map<nat, map<nat, nat>>

    ghost function Abs(): TeidPool
      reads this
    {
      TeidPool(freeTEIDs, busyTEIDs)
    }

    /** The TEIDs 1 .. teidRange in increasing order, none of them in use. */
    constructor (teidRange: nat)
      ensures |freeTEIDs| == teidRange && forall i :: 0 <= i < teidRange ==> freeTEIDs[i] == i + 1
      ensures busyTEIDs == map[]
      ensures Distinct(Abs(), teidRange) && Complete(Abs(), teidRange)
    {
      busyTEIDs := map[];
      var teids := [];
      for teid := 1 to teidRange + 1
        invariant |teids| == teid - 1 && forall i :: 0 <= i < |teids| ==> teids[i] == i + 1
      {
        teids := teids + [teid];
      }
      freeTEIDs := teids;
      new;
      forall teid | 1 <= teid <= teidRange ensures teid in freeTEIDs {
        assert freeTEIDs[teid - 1] == teid;
      }
    }

    method AllocateTEID(seid: nat, pdr: nat) returns (r: Option<nat>)
      modifies this
      ensures match AllocateTeid(old(Abs()), seid, pdr)
              case None => r == None && Abs() == old(Abs())
              case Some((p, teid)) => r == Some(teid) && Abs() == p
    {
      if |freeTEIDs| == 0 {
        return None;
      }
      var teid: nat := freeTEIDs[0];
      var row: map<nat, nat> := if seid in busyTEIDs then busyTEIDs[seid] else map[];
      freeTEIDs := freeTEIDs[1..];
      busyTEIDs := busyTEIDs[seid := row[pdr := teid]];
      return Some(teid);
    }

    /** order is the order in which the runtime happens to visit the session's busy TEIDs. */
    method ReleaseTEID(seid: nat, order: seq<nat>)
      requires Enumerates(order, Row(Abs(), seid).Keys)
      modifies this
      ensures Abs() == ReleaseTeids(old(Abs()), seid, order)
    {
      if seid in busyTEIDs {
        var row := busyTEIDs[seid];
        ghost var released := InOrder(row, order);
        for i := 0 to |order|
          invariant busyTEIDs == old(busyTEIDs)
          invariant freeTEIDs == old(freeTEIDs) + released[..i]
        {
          assert order[i] in order && released[i] == row[order[i]];
          assert released[..i + 1] == released[..i] + [released[i]];
          freeTEIDs := freeTEIDs + [row[order[i]]];
        }
        assert released[..|order|] == released;
        busyTEIDs := busyTEIDs - {seid};
      }
    }
  }

  class IPAM {
    var freeIPs: seq<Ip4>
    var busyIPs: map<nat, Ip4>

    ghost function Abs(): IpPool
      reads this
    {
      IpPool(freeIPs, busyIPs)
    }

    constructor (addresses: seq<Ip4>)
      ensures Abs() == IpPool(addresses, map[])
    {
      freeIPs, busyIPs := addresses, map[];
    }

    method AllocateIP(seid: nat) returns (r: Option<Ip4>)
      modifies this
      ensures match AllocateIp(old(Abs()), seid)
              case None => r == None && Abs() == old(Abs())
              case Some((p, ip)) => r == Some(ip) && Abs() == p
    {
      if |freeIPs| == 0 {
        return None;
      }
      var ip := freeIPs[0];
      freeIPs, busyIPs := freeIPs[1..], busyIPs[seid := ip];
      return Some(ip);
    }

    method ReleaseIP(seid: nat)
      modifies this
      ensures Abs() == ReleaseIp(old(Abs()), seid)
    {
      if seid in busyIPs {
        freeIPs := freeIPs + [busyIPs[seid]];
        busyIPs := busyIPs - {seid};
      }
    }
  }
}
