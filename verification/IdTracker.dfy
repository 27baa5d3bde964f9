/** The imperative side of rule storage: the id bitmap and the BPF array behind one rule kind. */
module Trackers {
  import opened Base
  import opened RuleTables

  /** A bitmap of free ids below maxSize. */
  class IdTracker {
    var bitmap: set<nat>
    const maxSize: nat

    constructor (size: nat)
      ensures bitmap == UpTo(size) && maxSize == size
    {
      bitmap := UpTo(size);
      maxSize := size;
    }

    /** Removes and returns the least free id. */
    method GetNext() returns (next: Option<nat>)
      modifies this
      ensures old(bitmap) == {} ==> next == None && bitmap == {}
      ensures old(bitmap) != {} ==> next == Some(Min(old(bitmap))) && bitmap == old(bitmap) - {Min(old(bitmap))}
    {
      if bitmap == {} {
        return None;
      }
      MinExists(bitmap);
      var least: nat :| least in bitmap && forall j :: j in bitmap ==> least <= j;
      bitmap := bitmap - {least};
      return Some(least);
    }

    method Release(id: nat)
      modifies this
      ensures bitmap == if id < maxSize then old(bitmap) + {id} else old(bitmap)
    {
      if id >= maxSize {
        return;
      }
      bitmap := bitmap + {id};
    }
  }

  /** One BPF array map with its tracker: New/Update/Delete of FARs, QERs and URRs. */
  class RuleTable<T(0)> {
    const tracker: IdTracker
    const slots: array<T>
    const zero: T

    ghost function Repr(): set<object> {
      {this, tracker, slots}
    }

    ghost predicate Valid() {
      && tracker.maxSize == slots.Length
      && tracker as object != this && slots as object != this && slots as object != tracker
    }

    ghost function Abs(): Pool<T>
      reads tracker, slots
    {
      Pool(tracker.bitmap, slots[..])
    }

    constructor (size: nat, zero: T)
      ensures Valid() && fresh(Repr())
      ensures Abs() == Pool(UpTo(size), seq(size, _ => zero)) && this.zero == zero
    {
      tracker := new IdTracker(size);
      slots := new T[size](_ => zero);
      this.zero := zero;
    }

    method New(info: T) returns (id: Option<nat>)
      requires Valid()
      modifies tracker, slots
      ensures Abs() == match TakeSlot(old(Abs()), info)
                       case Some((p, _)) => p
                       case None => WithoutLeast(old(Abs()))
      ensures id == match TakeSlot(old(Abs()), info)
                    case Some((_, g)) => Some(g)
                    case None => None
    {
      var next := tracker.GetNext();
      if next.None? || next.value >= slots.Length {
        return None;
      }
      slots[next.value] := info;
      return next;
    }

    method Update(id: nat, info: T) returns (ok: bool)
      requires Valid()
      modifies slots
      ensures Outcome(Abs(), ok) == StoreSlot(old(Abs()), id, info)
    {
      if id >= slots.Length {
        return false;
      }
      slots[id] := info;
      return true;
    }

    /** Releases the id first and writes the zero record second, as the original does. */
    method Delete(id: nat) returns (ok: bool)
      requires Valid()
      modifies tracker, slots
      ensures Outcome(Abs(), ok) == DropSlot(old(Abs()), id, zero)
    {
      tracker.Release(id);
      ok := Update(id, zero);
    }

    /** DeleteUrr: reads the volumes before it releases anything. */
    method DeleteReading(id: nat) returns (info: Option<T>)
      requires Valid()
      modifies tracker, slots
      ensures Outcome(Abs(), info.Some?) == DropSlot(old(Abs()), id, zero)
      ensures info == if id < |old(Abs()).slots| then Some(old(Abs()).slots[id]) else None
    {
      if id >= slots.Length {
        return None;
      }
      info := Some(slots[id]);
      var _ := Delete(id);
    }
  }
}
