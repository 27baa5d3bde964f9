/** Shared vocabulary: optional values, results, bytes and finite-set minima. */
module Base {
  datatype Option<+T> = None | Some(value: T) {
    function GetOr(default: T): T {
      match this
      case Some(v) => v
      case None => default
    }
  }

  datatype Result<+T> = Ok(value: T) | Err

  type Byte = b: int | 0 <= b < 256

  /** An IPv4 address as the four bytes the network carries. */
  type Ip4 = b: seq<Byte> | |b| == 4 witness [0, 0, 0, 0]

  /** The value of a map at a key, or the zero value Go returns for an absent key. */
  function Lookup<V>(m: map<nat, V>, key: nat, zero: V): V {
    if key in m then m[key] else zero
  }

  /** The ids 0 .. n-1. */
  function UpTo(n: nat): (s: set<nat>)
    ensures forall i: nat :: i in s <==> i < n
  {
    if n == 0 then {} else UpTo(n - 1) + {n - 1}
  }

  /** s lists every element of keys exactly once: one possible order of a Go map iteration. */
  ghost predicate Enumerates(s: seq<nat>, keys: set<nat>) {
    && (forall i, j :: 0 <= i < j < |s| ==> s[i] != s[j])
    && (forall k :: k in keys <==> k in s)
  }

  ghost predicate IsMin(m: nat, s: set<nat>) { m in s && forall j :: j in s ==> m <= j }

  lemma {:induction false} MinExists(s: set<nat>)
    requires s != {}
    ensures exists m :: IsMin(m, s)
    decreases s
  {
    var x :| x in s;
    var rest := s - {x};
    if rest == {} {
      assert s == {x};
      assert IsMin(x, s);
    } else {
      MinExists(rest);
      var m :| IsMin(m, rest);
      MinWith(m, rest, x);
      assert s == rest + {x};
    }
  }

  lemma MinWith(m: nat, rest: set<nat>, x: nat)
    requires IsMin(m, rest)
    ensures IsMin(if m < x then m else x, rest + {x})
  {
  }

  /** The smallest member of a nonempty set. */
  ghost function Min(s: set<nat>): (m: nat)
    requires s != {}
    ensures m in s && forall j :: j in s ==> m <= j
  {
    MinExists(s);
    var m :| IsMin(m, s);
    m
  }
}
