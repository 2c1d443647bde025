/** What a store of a whole block moves in memory: nothing but its own bytes. */
module DataMoves {
  import opened Outcomes
  import opened TranslationTables
  import opened Controllers
  import opened Runs
  import opened RunProofs
  import opened Theorems

  lemma UnmovedEntry(s: State, i: nat)
    ensures FreeLoan(s, i, false).Ok? ==> FreeLoan(s, i, false).value.mem == s.mem
    ensures HideTemp(s, i, false).Ok? ==> HideTemp(s, i, false).value.mem == s.mem
    ensures HideClean(s, i, false).Ok? ==> HideClean(s, i, false).value.mem == s.mem
    ensures DirtyStained(s, i, false).Ok? ==> DirtyStained(s, i, false).value.0.mem == s.mem
    ensures ResetClean(s, i, false).Ok? ==> ResetClean(s, i, false).value.0.mem == s.mem
  {
  }

  lemma UnmovedSetup(s: State, x: nat, base: nat, st: EntryState)
    ensures Controllers.Setup(s, x, base, st, false).Ok? ==> Controllers.Setup(s, x, base, st, false).value.0.mem == s.mem
  {
  }

  /** No entry has to be evicted for a store to block `x`. */
  predicate EvictsNone(s: State, x: nat)
    requires |s.att.queues| == 4
  {
    x in s.att.index || Queue(s.att, Free) != [] || (IsDram(s, x) && !s.ckpt)
  }

  lemma UnmovedDram(s: State, x: nat)
    requires |s.att.queues| == 4 && DramStore(s, x, true).Ok? && (x in s.att.index || Queue(s.att, Free) != [] || !s.ckpt)
    ensures DramStore(s, x, true).value.0.mem == s.mem
  {
    var (att, hit) := Lookup(s.att, x).value;
    var m := s.(att := att);
    if hit.Some? {
      UnmovedEntry(Hit(m), hit.value);
    } else if s.ckpt {
      var e := EvictClean(m).value;
      var (dram, base) := VersionBuffers.Alloc(e.dram).value;
      UnmovedSetup(e.(dram := dram), x, base, Loan);
    }
  }

  lemma UnmovedNvm(s: State, x: nat)
    requires |s.att.queues| == 4 && NvmStore(s, x, true).Ok? && (x in s.att.index || Queue(s.att, Free) != [])
    ensures NvmStore(s, x, true).value.0.mem == s.mem
  {
    var (att, hit) := Lookup(s.att, x).value;
    var m := s.(att := att);
    if hit.Some? {
      UnmovedEntry(Hit(m), hit.value);
    } else if s.ckpt {
      var e := EvictClean(m).value;
      var (dram, base) := VersionBuffers.Alloc(e.dram).value;
      UnmovedSetup(e.(dram := dram), x, base, Stained);
    } else {
      var e := EvictAny(m).value;
      var (nvm, base) := VersionBuffers.Alloc(e.nvm).value;
      UnmovedSetup(e.(nvm := nvm), x, base, Dirty);
    }
  }

  lemma UnmovedStore(s: State, x: nat)
    requires |s.att.queues| == 4 && StoreBlock(s, x, true).Ok? && EvictsNone(s, x)
    ensures StoreBlock(s, x, true).value.0.mem == s.mem
  {
    var (m, dram) := RouteStore(s, x).value;
    if dram {
      UnmovedDram(m, x);
    } else {
      UnmovedNvm(m, x);
    }
  }

  lemma WholeBytes(s: State, addr: nat, data: seq<Byte>, t: State) returns (to: nat)
    requires |s.att.queues| == 4 && EvictsNone(s, BlockOf(addr, s.blockSize)) && StoreBytes(s, addr, data) == Ok(t)
    requires OffsetOf(addr, s.blockSize) == 0 && |data| == s.blockSize
    requires forall a :: 0 <= a < |s.mem| ==> |s.mem[a]| == s.blockSize
    ensures to < |s.mem| && t.mem == s.mem[to := data]
  {
    var x := BlockOf(addr, s.blockSize);
    var r := StoreBlock(s, x, true).value;
    UnmovedStore(s, x);
    to := r.1;
    assert Patch(s.mem[to], 0, data) == data;
  }

  lemma WholeValid(addr: nat, size: PageTables.Positive)
    requires OffsetOf(addr, size) == 0
    ensures CheckValid(addr, size, size)
  {
    Digits(addr, size);
    SameDigits(BlockOf(addr, size), size - 1, size);
  }

  lemma {:induction false} WholeStore(d: Config, addr: nat, data: seq<Byte>) returns (t: State, to: nat)
    requires Agrees(d) && BlockOf(addr, d.s.blockSize) < d.s.phyBlocks && |d.s.att.queues| == 4
    requires OffsetOf(addr, d.s.blockSize) == 0 && |data| == d.s.blockSize && EvictsNone(d.s, BlockOf(addr, d.s.blockSize))
    ensures StoreBytes(d.s, addr, data) == Ok(t) && to < |d.s.mem| && t.mem == d.s.mem[to := data]
  {
    UseGood(d);
    WholeValid(addr, d.s.blockSize);
    t := StoreOk(d.s, d.h, addr, data);
    StorePlainly(d.s, addr, data, t);
    to := WholeBytes(d.s, addr, data, t);
  }

  /** In every reachable state, a store of a whole block for which no entry is evicted changes exactly one
      block of memory, to its bytes: nothing is copied that is overwritten at once. */
  lemma {:induction false} WholeBlock(c: Config, ops: seq<Op>, addr: nat, data: seq<Byte>)
    returns (d: Config, t: State, to: nat)
    requires Starts(c) && Protocol(c, ops) && BlockOf(addr, c.s.blockSize) < c.s.phyBlocks
    requires OffsetOf(addr, c.s.blockSize) == 0 && |data| == c.s.blockSize
    ensures Exec(c, ops) == Ok(d) && |d.s.att.queues| == 4
    ensures EvictsNone(d.s, BlockOf(addr, c.s.blockSize)) ==>
      StoreBytes(d.s, addr, data) == Ok(t) && to < |d.s.mem| && t.mem == d.s.mem[to := data]
  {
    d := RunReaches(c, ops);
    UseGood(d);
    t, to := d.s, 0;
    if EvictsNone(d.s, BlockOf(addr, c.s.blockSize)) {
      t, to := WholeStore(d, addr, data);
    }
    ExecPlainly(c, ops, d);
  }
}
