/** The machine block that a load or a store is charged for, and the assertions on it: each access must
    name a block of the memory it claims to go to. */
module Latency {
  import opened Outcomes
  import opened TranslationTables
  import opened PageTables
  import opened PageTableInvariants
  import opened Controllers
  import opened ControllerInvariants
  import opened Translation
  import opened Stores
  import opened Runs
  import opened RunProofs
  import opened Theorems

  /** An access to machine block `block`, in DRAM or not, of the page in slot `slot` or of none. */
  datatype Charge = Charge(block: nat, dram: bool, slot: Option<nat>)

  /** GetVirtMachAddr: a block without a page is in the NVM range or in the DRAM buffer, as claimed; one
      of a page is a physical block, and its place in the page cache is inside it. */
  predicate Chargeable(s: State, c: Charge) {
    match c.slot
    case None => if c.dram then s.dram.base <= c.block < s.dram.base + s.dram.length else c.block < s.dram.base
    case Some(slot) =>
      && c.block < s.phyBlocks && c.dram
      && slot * s.ptt.pageBlocks + c.block % s.ptt.pageBlocks < s.ptt.capacity * s.ptt.pageBlocks
  }

  function SlotOf(s: State, x: nat): Option<nat> {
    var g := PageNumber(x, s.ptt.pageBlocks);
    if g in s.ptt.pages then Some(s.ptt.pages[g].slot) else None
  }

  /** What LoadAddr passes to GetReadLatency for block `x`. */
  function LoadCharge(s: State, x: nat): Charge {
    var m := Place(s, x);
    if m.state != Free then Charge(m.base, m.state == Temp || m.state == Loan || m.state == Stained, None)
    else if IsDram(s, x) then Charge(x, true, SlotOf(s, x))
    else Charge(x, false, None)
  }

  /** What DRAMStore and NVMStore pass to GetWriteLatency for block `x`, which they store to `to`: on a hit
      while checkpointing DRAMStore names the physical block. */
  function StoreCharge(s: State, x: nat, to: nat): Charge {
    if IsDram(s, x) then
      if s.ckpt then (if x in s.att.index then Charge(x, true, None) else Charge(to, true, None))
      else Charge(x, true, SlotOf(s, x))
    else Charge(to, s.ckpt, None)
  }

  lemma CacheBound(slot: nat, capacity: nat, k: Positive, x: nat)
    requires slot < capacity
    ensures slot * k + x % k < capacity * k
  {
    assert (slot + 1) * k <= capacity * k;
  }

  /** A block of a page in DRAM is charged to the page's slot. */
  lemma PageChargeable(s: State, x: nat)
    requires PttOk(s.ptt) && x < s.phyBlocks && IsDram(s, x)
    ensures Chargeable(s, Charge(x, true, SlotOf(s, x)))
  {
    CacheBound(SlotOf(s, x).value, s.ptt.capacity, s.ptt.pageBlocks, x);
  }

  /** An entry's block is in the memory its state says. */
  lemma PlaceChargeable(s: State, x: nat)
    requires Inv(s) && Place(s, x).state != Free
    ensures var m := Place(s, x);
      && (UsesDram(m.state) ==> Chargeable(s, Charge(m.base, true, None)))
      && (!UsesDram(m.state) ==> Chargeable(s, Charge(m.base, false, None)))
  {
    LiveTag(s, x);
    var i := s.att.index[x];
    assert EntryOk(s, i);
    EntryRegion(s, i);
  }

  /** Every load is charged for a block of the memory it names. */
  lemma LoadChargeable(s: State, x: nat)
    requires Inv(s) && x < s.phyBlocks
    ensures Chargeable(s, LoadCharge(s, x))
  {
    if Place(s, x).state != Free {
      PlaceChargeable(s, x);
    } else if IsDram(s, x) {
      PageChargeable(s, x);
    }
  }

  // ----- where a store ends up -----

  /** Entry `i` of `t` is open for writing in NVM, and no tag has moved. */
  ghost predicate OpenInNvm(s: State, t: State, i: nat) {
    && i < |t.att.entries| && t.att.index == s.att.index
    && (t.att.entries[i].state == Dirty || t.att.entries[i].state == Hidden)
  }

  lemma HideTempOpens(s: State, i: nat, move: bool)
    requires HideTemp(s, i, move).Ok?
    ensures OpenInNvm(s, HideTemp(s, i, move).value, i)
  {
  }

  lemma DirtyStainedOpens(s: State, i: nat, move: bool)
    requires DirtyStained(s, i, move).Ok?
    ensures OpenInNvm(s, DirtyStained(s, i, move).value.0, i)
  {
  }

  lemma HideCleanOpens(s: State, i: nat, move: bool)
    requires HideClean(s, i, move).Ok?
    ensures OpenInNvm(s, HideClean(s, i, move).value, i)
  {
  }

  lemma HitOpens(s: State, i: nat, tag: nat, full: bool)
    requires NvmHitRunning(s, i, tag, full).Ok?
    ensures OpenInNvm(s, NvmHitRunning(s, i, tag, full).value.0, i)
  {
    match s.att.entries[i].state
    case Temp => HideTempOpens(s, i, !full);
    case Dirty =>
    case Hidden =>
    case Stained => DirtyStainedOpens(s, i, !full);
    case _ => HideCleanOpens(s, i, !full);
  }

  /** While running, a store to an NVM page leaves its block Dirty or Hidden. */
  lemma RunningStoreState(s: State, x: nat, full: bool)
    requires !s.ckpt && NvmStore(s, x, full).Ok?
    ensures var st := Place(NvmStore(s, x, full).value.0, x).state; st == Dirty || st == Hidden
  {
    var (att, hit) := Lookup(s.att, x).value;
    if hit.Some? {
      HitOpens(Hit(s.(att := att)), hit.value, x, full);
    }
  }

  /** While checkpointing, a store to a page in DRAM leaves its block with an entry. */
  lemma LoanStoreState(s: State, x: nat, full: bool)
    requires s.ckpt && TableOk(s.att) && DramStore(s, x, full).Ok?
    ensures x in DramStore(s, x, full).value.0.att.index
  {
  }

  /** A store that completes is charged for a block of the memory it names, unless it writes again to a
      loaned block while checkpointing. */
  lemma StoreChargeExact(s: State, x: nat, full: bool, t: State, to: nat)
    requires Inv(s) && x < s.phyBlocks && StoreBlock(s, x, full) == Ok((t, to)) && Stored(s, t, x, to, full)
    ensures Chargeable(s, StoreCharge(s, x, to)) <==> !(s.ckpt && IsDram(s, x) && x in s.att.index)
  {
    var (m, dram) := RouteStore(s, x).value;
    if dram {
      if !s.ckpt {
        PageChargeable(s, x);
      } else if x !in s.att.index {
        LoanStoreState(m, x, full);
        StoredInDram(s, t, x);
      }
    } else if s.ckpt {
      StoredInDram(s, t, x);
    } else {
      RunningStoreState(m, x, full);
      PlaceChargeable(t, x);
    }
  }

  /** While checkpointing, a stored block with an entry is in the DRAM buffer. */
  lemma StoredInDram(s: State, t: State, x: nat)
    requires Inv(t) && s.ckpt && t.ckpt && Layout(s) && t.phyBlocks == s.phyBlocks && |t.att.entries| == |s.att.entries|
    requires if IsDram(t, x) then x in t.att.index else Writable(t, x)
    ensures Chargeable(s, Charge(Place(t, x).base, true, None))
  {
    LiveTag(t, x);
    MappedBlock(t, x);
    PlaceChargeable(t, x);
  }

  // ----- runs -----

  /** In every reachable state a load meets these assertions, and a store that has room does if and only
      if it does not write again to a loaned block while checkpointing. */
  lemma {:induction false} ChargesExact(c: Config, ops: seq<Op>, x: nat, full: bool)
    returns (d: Config, t: State, to: nat)
    requires Starts(c) && Protocol(c, ops) && x < c.s.phyBlocks
    ensures Exec(c, ops) == Ok(d) && |d.s.att.queues| == 4 && Chargeable(d.s, LoadCharge(d.s, x))
    ensures HasRoom(d.s, x) ==>
      && StoreBlock(d.s, x, full) == Ok((t, to))
      && (Chargeable(d.s, StoreCharge(d.s, x, to)) <==> !(d.s.ckpt && IsDram(d.s, x) && x in d.s.att.index))
  {
    d := RunReaches(c, ops);
    UseGood(d);
    LoadChargeable(d.s, x);
    t, to := d.s, 0;
    if HasRoom(d.s, x) {
      t, to := StoreBlockOk(d.s, x, full);
      StoreChargePlainly(d.s, x, full, t, to);
    }
    ExecPlainly(c, ops, d);
  }

  lemma StoreChargePlainly(s: State, x: nat, full: bool, t: State, to: nat)
    requires Inv(s) && x < s.phyBlocks && StoreYields(s, x, full, t, to) && Stored(s, t, x, to, full)
    ensures StoreBlock(s, x, full) == Ok((t, to))
    ensures Chargeable(s, StoreCharge(s, x, to)) <==> !(s.ckpt && IsDram(s, x) && x in s.att.index)
  {
    assert Unlocked(0);
    StoreChargeExact(s, x, full, t, to);
  }
}
