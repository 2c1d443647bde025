/** The slot allocator: every slot is free, in use, or kept as one of two generations of backup.
    Addresses are machine block numbers; slot `i` sits at block `base + i`. */
module VersionBuffers {
  import opened Outcomes
  import opened Counting

  datatype SlotState = Backup0 | Backup1 | InUse | FreeSlot

  datatype Buffer = Buffer(base: nat, length: nat,
                           backup0: set<nat>, backup1: set<nat>, inUse: set<nat>, free: set<nat>)

  function Empty(base: nat, length: nat): Buffer {
    Buffer(base, length, {}, {}, {}, Range(length))
  }

  function Slots(b: Buffer, st: SlotState): set<nat> {
    match st
    case Backup0 => b.backup0
    case Backup1 => b.backup1
    case InUse => b.inUse
    case FreeSlot => b.free
  }

  function WithSlots(b: Buffer, st: SlotState, s: set<nat>): Buffer {
    match st
    case Backup0 => b.(backup0 := s)
    case Backup1 => b.(backup1 := s)
    case InUse => b.(inUse := s)
    case FreeSlot => b.(free := s)
  }

  /** Slot `x` exists exactly if some set holds it, and then only one does. */
  ghost predicate InOneSet(b: Buffer, x: nat) {
    && (x < b.length <==> x in b.free || x in b.inUse || x in b.backup0 || x in b.backup1)
    && (x in b.free ==> x !in b.inUse && x !in b.backup0 && x !in b.backup1)
    && (x in b.inUse ==> x !in b.backup0 && x !in b.backup1)
    && (x in b.backup0 ==> x !in b.backup1)
  }

  /** The four sets partition the slot range. */
  ghost predicate Partition(b: Buffer) {
    forall x :: InOneSet(b, x)
  }

  /** Block `a` is the address of a slot in `s`. */
  predicate At(b: Buffer, a: nat, s: set<nat>) {
    b.base <= a && a - b.base in s
  }

  lemma InUseCell(b: Buffer, a: nat)
    requires Partition(b) && At(b, a, b.inUse)
    ensures a < b.base + b.length && !At(b, a, b.free) && !At(b, a, b.backup0) && !At(b, a, b.backup1)
  {
    assert InOneSet(b, a - b.base);
  }

  lemma OutsideCell(b: Buffer, a: nat)
    requires Partition(b) && (a < b.base || b.base + b.length <= a)
    ensures !At(b, a, b.free) && !At(b, a, b.inUse) && !At(b, a, b.backup0) && !At(b, a, b.backup1)
  {
    if b.base <= a {
      assert InOneSet(b, a - b.base);
    }
  }

  /** `*sets_[FREE].begin()`: an ordered set yields its least element. */
  predicate IsLeast(x: nat, s: set<nat>) {
    x in s && forall y :: y in s ==> x <= y
  }

  lemma {:induction false} LeastExists(s: set<nat>)
    requires s != {}
    ensures exists x :: IsLeast(x, s)
  {
    var y :| y in s;
    if s == {y} {
      assert IsLeast(y, s);
    } else {
      LeastExists(s - {y});
      var x :| IsLeast(x, s - {y});
      assert forall z :: z in s ==> z == y || z in s - {y};
      assert IsLeast(if x < y then x else y, s);
    }
  }

  function Least(s: set<nat>): (x: nat)
    requires s != {}
    ensures IsLeast(x, s)
  {
    LeastExists(s);
    var x :| IsLeast(x, s);
    x
  }

  function Alloc(b: Buffer): Outcome<(Buffer, nat)> {
    (:- Assert(b.free != {});
     var i := Least(b.free);
     Ok((b.(free := b.free - {i}, inUse := b.inUse + {i}), b.base + i)))
  }

  function Release(b: Buffer, a: nat, from: SlotState): Outcome<Buffer> {
    (:- Assert(b.base <= a && a - b.base < b.length);
     var i := a - b.base;
     :- Assert(i in Slots(b, from));
     var b1 := WithSlots(b, from, Slots(b, from) - {i});
     Ok(b1.(free := b1.free + {i})))
  }

  function Backup(b: Buffer, a: nat, to: SlotState): Outcome<Buffer> {
    (:- Assert(b.base <= a && a - b.base < b.length);
     var i := a - b.base;
     :- Assert(to == Backup0 || to == Backup1);
     :- Assert(i !in Slots(b, to));
     :- Assert(i in b.inUse);
     var b1 := b.(inUse := b.inUse - {i});
     Ok(WithSlots(b1, to, Slots(b1, to) + {i})))
  }

  function ClearBackup(b: Buffer): Outcome<Buffer> {
    var b1 := b.(free := b.free + b.backup0, backup0 := b.backup1, backup1 := {});
    :- Assert(|b1.inUse| + |b1.free| + |b1.backup0| == b1.length);
    Ok(b1)
  }

  lemma PartitionCardinality(b: Buffer)
    requires Partition(b)
    ensures |b.free| + |b.inUse| + |b.backup0| + |b.backup1| == b.length
  {
    assert forall x :: x in b.free + b.inUse + b.backup0 + b.backup1 ==> InOneSet(b, x);
    assert forall x :: x in Range(b.length) ==> InOneSet(b, x);
    FourParts(b.free, b.inUse, b.backup0, b.backup1, b.length);
  }

  lemma EmptyPartition(base: nat, length: nat)
    ensures Partition(Empty(base, length))
  {
  }

  /** SlotAlloc succeeds exactly when a slot is free; it hands out the lowest slot no one held. */
  lemma AllocStep(b: Buffer)
    requires Partition(b)
    ensures Alloc(b).Ok? <==> |b.inUse| + |b.backup0| + |b.backup1| < b.length
    ensures Alloc(b).Ok? ==>
      var (b1, a) := Alloc(b).value;
      && Partition(b1) && At(b, a, b.free) && (forall x :: x in b.free ==> a - b.base <= x)
      && b1 == b.(free := b.free - {a - b.base}, inUse := b.inUse + {a - b.base})
  {
    PartitionCardinality(b);
    if Alloc(b).Ok? {
      var (b1, a) := Alloc(b).value;
      forall x ensures InOneSet(b1, x) {
        assert InOneSet(b, x);
      }
    }
  }

  lemma ReleaseStep(b: Buffer, a: nat)
    requires Partition(b)
    ensures Release(b, a, InUse).Ok? <==> At(b, a, b.inUse)
    ensures Release(b, a, InUse).Ok? ==>
      var b1 := Release(b, a, InUse).value;
      && Partition(b1)
      && b1 == b.(inUse := b.inUse - {a - b.base}, free := b.free + {a - b.base})
  {
    if At(b, a, b.inUse) {
      InUseCell(b, a);
      var b1 := Release(b, a, InUse).value;
      forall x ensures InOneSet(b1, x) {
        assert InOneSet(b, x);
      }
    }
  }

  lemma BackupStep(b: Buffer, a: nat, to: SlotState)
    requires Partition(b) && (to == Backup0 || to == Backup1)
    ensures Backup(b, a, to).Ok? <==> At(b, a, b.inUse)
    ensures Backup(b, a, to).Ok? ==>
      var b1 := Backup(b, a, to).value;
      && Partition(b1)
      && (to == Backup0 ==>
            b1 == b.(inUse := b.inUse - {a - b.base}, backup0 := b.backup0 + {a - b.base}))
      && (to == Backup1 ==>
            b1 == b.(inUse := b.inUse - {a - b.base}, backup1 := b.backup1 + {a - b.base}))
  {
    if At(b, a, b.inUse) {
      InUseCell(b, a);
      var b1 := Backup(b, a, to).value;
      forall x ensures InOneSet(b1, x) {
        assert InOneSet(b, x);
      }
    }
  }

  /** ClearBackup frees the older generation and ages the younger one; its size assertion holds. */
  lemma ClearBackupStep(b: Buffer)
    requires Partition(b)
    ensures ClearBackup(b).Ok?
    ensures Partition(ClearBackup(b).value)
  {
    var b1 := b.(free := b.free + b.backup0, backup0 := b.backup1, backup1 := {});
    forall x ensures InOneSet(b1, x) {
      assert InOneSet(b, x);
    }
    PartitionCardinality(b1);
  }
}
