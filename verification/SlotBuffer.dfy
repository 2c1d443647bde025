/** The slot allocator as an object with four sets. */
module SlotBuffers {
  import opened Outcomes
  import opened Counting
  import opened VersionBuffers
  import Spec = VersionBuffers

  class VersionBuffer {
    const base: nat
    const length: nat
    var backup0: set<nat>
    var backup1: set<nat>
    var inUse: set<nat>
    var free: set<nat>

    /** The buffer this object represents. */
    ghost function Abs(): Buffer
      reads this
    {
      Buffer(base, length, backup0, backup1, inUse, free)
    }

    constructor (base: nat, length: nat)
      ensures Abs() == Empty(base, length)
    {
      this.base, this.length := base, length;
      backup0, backup1, inUse, free := {}, {}, {}, {};
      new;
      for i := 0 to length
        invariant Abs() == Buffer(base, length, {}, {}, {}, Range(i))
      {
        free := free + {i};
      }
    }

    /** Hands out the lowest free slot. */
    method SlotAlloc() returns (a: nat)
      requires Alloc(Abs()).Ok?
      modifies this
      ensures Alloc(old(Abs())) == Ok((Abs(), a))
    {
      var i := Least(free);
      free := free - {i};
      inUse := inUse + {i};
      a := base + i;
    }

    /** Erases the slot from set `st` and inserts it into the free set. */
    method FreeSlot(a: nat, st: SlotState)
      requires Release(Abs(), a, st).Ok?
      modifies this
      ensures Release(old(Abs()), a, st) == Ok(Abs())
    {
      var i := a - base;
      match st {
        case Backup0 => backup0 := backup0 - {i};
        case Backup1 => backup1 := backup1 - {i};
        case InUse => inUse := inUse - {i};
        case FreeSlot => free := free - {i};
      }
      free := free + {i};
    }

    method SlotBackup(a: nat, st: SlotState)
      requires Backup(Abs(), a, st).Ok?
      modifies this
      ensures Backup(old(Abs()), a, st) == Ok(Abs())
    {
      var i := a - base;
      inUse := inUse - {i};
      if st == Backup0 {
        backup0 := backup0 + {i};
      } else {
        backup1 := backup1 + {i};
      }
    }

    /** Frees the old generation, then ages the young one. */
    method ClearBackup()
      requires Spec.ClearBackup(Abs()).Ok?
      modifies this
      ensures Spec.ClearBackup(old(Abs())) == Ok(Abs())
    {
      var rest := backup0;
      while rest != {}
        invariant rest <= old(backup0) && free == old(free) + (old(backup0) - rest)
        invariant backup0 == old(backup0) && backup1 == old(backup1) && inUse == old(inUse)
        decreases rest
      {
        var i :| i in rest;
        free := free + {i};
        rest := rest - {i};
      }
      backup0 := {};
      rest := backup1;
      while rest != {}
        invariant rest <= old(backup1) && backup0 == old(backup1) - rest
        invariant free == old(free) + old(backup0) && backup1 == old(backup1) && inUse == old(inUse)
        decreases rest
      {
        var i :| i in rest;
        backup0 := backup0 + {i};
        rest := rest - {i};
      }
      backup1 := {};
      assert |inUse| + |free| + |backup0| == length;
    }
  }
}
