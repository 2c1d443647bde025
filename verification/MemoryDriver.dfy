/** The memory device that drives the controller: it probes before every write, starts a new epoch
    when told to, and checks its own write counters against the migrator's when it freezes. */
module MemoryDrivers {
  import opened Outcomes
  import opened TranslationTables
  import opened PageTables
  import opened PageTableInvariants
  import opened Controllers
  import opened ControllerInvariants
  import opened Stores
  import opened Checkpoints
  import opened Migration
  import opened Runs
  import opened RunProofs
  import opened Rebalancing
  import opened AddrTransControllers

  /** What holds between two calls: state and history agree, the books balance, and a frozen
      controller has no loans left. */
  ghost predicate Sound(m: Config) {
    && Agrees(m) && Balanced(m.s, m.h)
    && |m.s.att.queues| == 4 && (m.s.ptt.nvmFilled ==> Queue(m.s.att, Loan) == [] && !m.s.ckpt)
  }

  ghost predicate HomedPages(s: State) {
    forall g :: g in s.ptt.pages ==> s.ptt.pages[g].base == g
  }

  lemma SoundHomed(m: Config)
    requires Sound(m)
    ensures HomedPages(m.s)
  {
    UseGood(m);
  }

  lemma StoreResult(s: State, addr: nat, data: seq<Byte>, u: State) returns (t: State, to: nat)
    requires StepYields(s, Store(addr, data), u)
    ensures StoreBlock(s, BlockOf(addr, s.blockSize), FullBlock(addr, |data|, s.blockSize)) == Ok((t, to))
    ensures to < |t.mem| && OffsetOf(addr, s.blockSize) + |data| <= |t.mem[to]|
    ensures u == WriteBlock(t, to, Patch(t.mem[to], OffsetOf(addr, s.blockSize), data))
  {
    assert Unlocked(0);
    var r := StoreBlock(s, BlockOf(addr, s.blockSize), FullBlock(addr, |data|, s.blockSize));
    t, to := r.value.0, r.value.1;
  }

  /** A write that has room: the controller's part succeeds, and patching the block it
      returns gives a sound state whose flat memory is the old one with the bytes written. */
  lemma StoreSound(m: Config, addr: nat, data: seq<Byte>) returns (t: State, to: nat, d: Config)
    requires Sound(m) && !m.s.ptt.nvmFilled && Allowed(m.s, Store(addr, data))
    ensures StoreBlock(m.s, BlockOf(addr, m.s.blockSize), FullBlock(addr, |data|, m.s.blockSize)) == Ok((t, to))
    ensures to < |t.mem| && OffsetOf(addr, m.s.blockSize) + |data| <= |t.mem[to]|
    ensures d.s == WriteBlock(t, to, Patch(t.mem[to], OffsetOf(addr, m.s.blockSize), data))
    ensures Sound(d) && !d.s.ptt.nvmFilled && d.h.flat == FlatStore(m.h.flat, addr, data, m.s.blockSize)
  {
    UseGood(m);
    var op := Store(addr, data);
    var u := StepOk(m.s, m.h, op);
    d := Config(u, Advance(m.h, m.s, op, u));
    StepBalance(m, op, d);
    StoreQueues(d);
    t, to := StoreResult(m.s, addr, data, u);
  }

  lemma ProbeLets(m: Config, x: nat)
    requires Sound(m) && Probe(m.s, x) == RegWrite
    ensures HasRoom(m.s, x)
  {
    UseGood(m);
    ProbeHasRoom(m.s, x);
  }

  lemma StoreQueues(d: Config)
    requires Agrees(d)
    ensures |d.s.att.queues| == 4
  {
    UseGood(d);
  }

  lemma LoadResult(s: State, addr: nat, t: State, b: Byte) returns (a: nat)
    requires ReadYields(s, addr, t, b)
    ensures LoadBlock(s, BlockOf(addr, s.blockSize)) == Ok((t, a))
    ensures a < |t.mem| && OffsetOf(addr, s.blockSize) < |t.mem[a]| && t.mem[a][OffsetOf(addr, s.blockSize)] == b
  {
    assert Unlocked(0);
    a := LoadBlock(s, BlockOf(addr, s.blockSize)).value.1;
  }

  lemma LoadSound(m: Config, addr: nat) returns (t: State, a: nat)
    requires Sound(m) && !m.s.ptt.nvmFilled && BlockOf(addr, m.s.blockSize) < m.s.phyBlocks
    ensures LoadBlock(m.s, BlockOf(addr, m.s.blockSize)) == Ok((t, a)) && Sound(Config(t, m.h)) && !t.ptt.nvmFilled
    ensures var x, off := BlockOf(addr, m.s.blockSize), OffsetOf(addr, m.s.blockSize);
      && x < |m.h.flat| && off < |m.h.flat[x]| && a < |t.mem| && off < |t.mem[a]|
      && t.mem[a][off] == m.h.flat[x][off]
  {
    UseGood(m);
    t := LoadOk(m.s, m.h, addr);
    var x, off := BlockOf(addr, m.s.blockSize), OffsetOf(addr, m.s.blockSize);
    a := LoadResult(m.s, addr, t, m.h.flat[x][off]);
    StoreQueues(Config(t, m.h));
  }

  /** Orders that InputBlocks accepted list the right pages. */
  lemma AcceptedOrders(s: State, nvmOrder: seq<nat>, dramOrder: seq<nat>)
    requires Inv(s) && !s.ckpt && MigrateInput(s, nvmOrder, dramOrder).Ok?
    ensures Orders(s, nvmOrder, dramOrder)
  {
    RevokeAllOk(s);
    var s1 := RevokeLoans(s, Queue(s.att, Loan)).value;
    assert s1.ptt == s.ptt;
    CollectKeys(s1.att.entries, |s1.att.entries|, s1.ptt.pageBlocks);
  }

  lemma LoopsReady(s: State, dirtyMin: int, writeMax: int, nvmOrder: seq<nat>, dramOrder: seq<nat>)
    requires Inv(s) && !s.ckpt && Idle(s.ptt) && Quiet(s) && MigrateInput(s, nvmOrder, dramOrder).Ok?
    ensures MigrateLoops(MigrateInput(s, nvmOrder, dramOrder).value, dirtyMin, writeMax).Ok?
  {
    AcceptedOrders(s, nvmOrder, dramOrder);
    var s1, s2 := MigrateInputOk(s, nvmOrder, dramOrder);
    var t := MigrateLoopsOk(s2, dirtyMin, writeMax);
    assert Unlocked(0);
  }

  lemma ReadySound(m: Config, dirtyMin: int, writeMax: int)
    requires Sound(m) && !m.s.ckpt && !m.s.ptt.nvmFilled
    ensures MigrationReady(m.s, dirtyMin, writeMax)
  {
    UseGood(m);
    RevokeAllOk(m.s);
    var s1 := RevokeLoans(m.s, Queue(m.s.att, Loan)).value;
    ThroughCounts(m.s, s1, m.s.phyBlocks);
    QuietSettled(s1);
    CollectOk(s1.att.entries, |s1.att.entries|, s1.ptt.pageBlocks);
    assert WrittenPages(s1.ptt.pages) == DirtyPages(s1.ptt.pages);
    forall a, b | MigrateInput(m.s, a, b).Ok? ensures MigrateLoops(MigrateInput(m.s, a, b).value, dirtyMin, writeMax).Ok? {
      LoopsReady(m.s, dirtyMin, writeMax, a, b);
    }
  }

  /** Migration freezes a sound state and changes no byte. */
  lemma MigrateSound(m: Config, op: Op, t: State) returns (d: Config)
    requires Sound(m) && !m.s.ckpt && !m.s.ptt.nvmFilled && op.Migrate?
    requires MigratePages(m.s, op.dr, op.wr, op.nvmOrder, op.dramOrder) == Ok(t)
    ensures d.s == t && Sound(d) && t.ptt.nvmFilled && !t.ckpt && d.h.flat == m.h.flat
    ensures Rebalances(m.s, t, op.dr, op.wr)
  {
    UseGood(m);
    AcceptedOrders(m.s, op.nvmOrder, op.dramOrder);
    MigrateBalanced(m.s, op, t);
    var u := StepOk(m.s, m.h, op);
    MigrateResult(m.s, op, t, u);
    d := Config(u, Advance(m.h, m.s, op, u));
    StepBalance(m, op, d);
    MigratedLoans(m, op, d);
  }

  /** `Rebalanced`, on request. */
  ghost predicate Rebalances(s: State, t: State, dr: real, wr: real) {
    forall u {:trigger Unlocked(u)} :: Unlocked(u) ==> Rebalanced(s, t, dr, wr)
  }

  lemma UseRebalanced(s: State, t: State, dr: real, wr: real)
    requires Rebalances(s, t, dr, wr)
    ensures Rebalanced(s, t, dr, wr)
  {
    assert Unlocked(0);
  }

  lemma MigrateBalanced(s: State, op: Op, t: State)
    requires Inv(s) && !s.ckpt && Idle(s.ptt) && Quiet(s) && op.Migrate? && Orders(s, op.nvmOrder, op.dramOrder)
    requires MigratePages(s, op.dr, op.wr, op.nvmOrder, op.dramOrder) == Ok(t)
    ensures Rebalances(s, t, op.dr, op.wr)
  {
    var u := MigrateRebalances(s, op.dr, op.wr, op.nvmOrder, op.dramOrder);
    assert Unlocked(0);
  }

  lemma MigrateResult(s: State, op: Op, t: State, u: State)
    requires op.Migrate? && MigratePages(s, op.dr, op.wr, op.nvmOrder, op.dramOrder) == Ok(t) && StepYields(s, op, u)
    ensures t == u
  {
    assert Unlocked(0);
  }

  lemma BeginSound(m: Config) returns (d: Config)
    requires Sound(m) && m.s.ptt.nvmFilled
    ensures BeginCheckpointing(m.s) == Ok(d.s) && Sound(d) && d.s.ckpt && !d.s.ptt.nvmFilled && d.h.flat == m.h.flat
    ensures Admitting(d.s) && Renewed(d.s)
  {
    UseGood(m);
    var t := StepOk(m.s, m.h, Begin);
    d := Config(t, Advance(m.h, m.s, Begin, t));
    StepBalance(m, Begin, d);
    StoreQueues(d);
    BeginPhase(m.s, t);
    BeginRenews(m, t);
    RenewedAdmits(t);
  }

  /** Every write is let through, unless the table has no entries. */
  ghost predicate Admitting(s: State) {
    |s.att.queues| == 4 && forall x: nat :: Probe(s, x) == RegWrite <==> |s.att.entries| > 0
  }

  /** Every entry is clean or free, and no page is dirty. */
  ghost predicate Renewed(s: State) {
    TableOk(s.att) && AllSettled(s.att.entries) && s.ptt.dirty == 0
  }

  /** A write is let through if its page is in DRAM, its block has an entry, or there are both an entry
      and a page to be had. */
  ghost predicate Resuming(s: State) {
    && |s.att.queues| == 4
    && forall x: nat :: Probe(s, x) == RegWrite <==>
         IsDram(s, x) || x in s.att.index || (|s.att.entries| > 0 && s.ptt.length > 0)
  }

  lemma RenewedResumes(s: State)
    requires Renewed(s) && !s.ckpt
    ensures Resuming(s)
  {
    forall x: nat ensures Probe(s, x) == RegWrite <==>
      IsDram(s, x) || x in s.att.index || (|s.att.entries| > 0 && s.ptt.length > 0)
    {
      SettledAdmits(s, x);
    }
  }

  lemma BeginRenews(m: Config, t: State)
    requires Agrees(m) && Allowed(m.s, Begin) && StepYields(m.s, Begin, t)
    ensures Renewed(t)
  {
    UseGood(m);
    var u := BeginStepOk(m.s, m.h);
    SameStep(m.s, Begin, t, u);
    BeginCleans(m.s, t);
  }

  lemma BeginCleans(s: State, t: State)
    requires StepYields(s, Begin, t)
    ensures t.ptt.dirty == 0
  {
    assert Unlocked(0);
  }

  lemma RenewedAdmits(s: State)
    requires Renewed(s) && s.ckpt
    ensures Admitting(s)
  {
    forall x: nat ensures Probe(s, x) == RegWrite <==> |s.att.entries| > 0 {
      BegunAdmits(s, x);
    }
  }

  lemma BeginPhase(s: State, t: State)
    requires StepYields(s, Begin, t)
    ensures BeginCheckpointing(s) == Ok(t) && t.ckpt
  {
    assert Unlocked(0);
  }

  lemma FinishSound(m: Config) returns (d: Config)
    requires Sound(m) && m.s.ckpt
    ensures FinishCheckpointing(m.s) == Ok(d.s) && Sound(d) && !d.s.ckpt && !d.s.ptt.nvmFilled && d.h.flat == m.h.flat
  {
    UseGood(m);
    var t := FinishStepOk(m.s, m.h);
    d := Config(t, Advance(m.h, m.s, Finish, t));
    FinishPhase(m.s, t);
  }

  lemma FinishPhase(s: State, t: State)
    requires StepYields(s, Finish, t)
    ensures FinishCheckpointing(s) == Ok(t)
  {
    assert Unlocked(0);
  }

  lemma StartSound(s: State)
    requires Initial(s)
    ensures Sound(Config(s, Birth(s)))
  {
    InitialGood(s);
  }

  /** A checkpoint that ends as soon as it has begun. */
  ghost predicate BeganAndFinished(s: State, t: State) {
    BeginCheckpointing(s).Ok? && FinishCheckpointing(BeginCheckpointing(s).value) == Ok(t)
  }

  class SimpleMemory {
    const controller: AddrTransController
    /** Pages have been migrated and the checkpoint is about to begin: no request is taken. */
    var frozen: bool
    ghost var history: History

    ghost predicate Valid()
      reads this, controller, controller.att, controller.att.entries, controller.att.nodes, controller.att.queues,
            controller.nvm, controller.dram, controller.migrator, controller.mem
    {
      && controller.Valid() && frozen == controller.migrator.nvmFilled
      && Sound(Config(controller.Abs(), history))
    }

    constructor (phyBlocks: nat, blockSize: Positive, attLength: nat,
                 pageBlocks: Positive, pttLength: nat, mem: array<Block>)
      requires pttLength * pageBlocks <= phyBlocks && mem.Length == phyBlocks + 3 * attLength
      requires forall a :: 0 <= a < mem.Length ==> |mem[a]| == blockSize
      ensures Valid() && !frozen && history.flat == mem[..phyBlocks]
    {
      controller := new AddrTransController(phyBlocks, blockSize, attLength, pageBlocks, pttLength, mem);
      frozen := false;
      new;
      history := Birth(controller.Abs());
      StartSound(controller.Abs());
    }

    /** A read request returns the byte last written there. */
    method Read(addr: nat) returns (r: Option<Byte>)
      requires Valid() && BlockOf(addr, controller.blockSize) < controller.phyBlocks
      modifies controller.att, controller.att.entries, controller.att.nodes, controller.att.queues, controller.migrator
      ensures Valid() && frozen == old(frozen) && (r.None? <==> frozen)
      ensures var x, off := BlockOf(addr, controller.blockSize), OffsetOf(addr, controller.blockSize);
        r.Some? ==> x < |history.flat| && off < |history.flat[x]| && r.value == history.flat[x][off]
      ensures r.None? ==> controller.Abs() == old(controller.Abs())
      ensures r.Some? ==> LoadByte(old(controller.Abs()), addr) == Ok((controller.Abs(), r.value))
    {
      if frozen {
        return None;
      }
      ghost var t, a := LoadSound(Config(controller.Abs(), history), addr);
      var base := controller.LoadBlock(BlockOf(addr, controller.blockSize));
      r := Some(controller.mem[base][OffsetOf(addr, controller.blockSize)]);
    }

    /** A write request: the answer of Probe decides whether it is served now, after a checkpoint
        that is under way, or after a new one. Only a served write changes the memory clients see. */
    method Write(addr: nat, data: seq<Byte>, dr: real, wr: real) returns (served: bool)
      requires Valid() && BlockOf(addr, controller.blockSize) < controller.phyBlocks
      requires CheckValid(addr, |data|, controller.blockSize)
      modifies this, controller, controller.att, controller.att.entries, controller.att.nodes, controller.att.queues,
               controller.nvm, controller.dram, controller.migrator, controller.mem
      ensures Valid() && (old(frozen) ==> frozen)
      ensures served <==> !old(frozen) && old(Probe(controller.Abs(), BlockOf(addr, controller.blockSize))) == RegWrite
      ensures !old(frozen) ==>
        (frozen <==> old(Probe(controller.Abs(), BlockOf(addr, controller.blockSize))) == NewEpoch)
      ensures served ==> StoreBytes(old(controller.Abs()), addr, data) == Ok(controller.Abs())
      ensures !old(frozen) && frozen ==> Rebalanced(old(controller.Abs()), controller.Abs(), dr, wr)
      ensures !served && frozen == old(frozen) ==> controller.Abs() == old(controller.Abs())
      ensures history.flat ==
        if served then FlatStore(old(history.flat), addr, data, controller.blockSize) else old(history.flat)
    {
      if frozen {
        return false;
      }
      var x := BlockOf(addr, controller.blockSize);
      match controller.Probe(x) {
        case RegWrite =>
          ProbeLets(Config(controller.Abs(), history), x);
          Serve(addr, data);
          served := true;
        case WaitCkpt =>
          served := false;
        case NewEpoch =>
          StartEpoch(dr, wr);
          UseRebalanced(old(controller.Abs()), controller.Abs(), dr, wr);
          served := false;
      }
    }

    /** The bytes of a write go to machine block `a`. */
    method CopyIn(a: nat, offset: nat, data: seq<Byte>)
      requires controller.Valid() && a < controller.mem.Length && offset + |data| <= |controller.mem[a]|
      modifies controller.mem
      ensures controller.Valid()
      ensures controller.Abs() == WriteBlock(old(controller.Abs()), a, Patch(old(controller.mem[a]), offset, data))
    {
      controller.mem[a] := Patch(controller.mem[a], offset, data);
    }

    method Serve(addr: nat, data: seq<Byte>)
      requires Valid() && !frozen && Allowed(controller.Abs(), Store(addr, data))
      modifies this`history, controller`stats, controller.att, controller.att.entries, controller.att.nodes,
               controller.att.queues, controller.nvm, controller.dram, controller.migrator, controller.mem
      ensures Valid() && frozen == old(frozen) && history.flat == FlatStore(old(history.flat), addr, data, controller.blockSize)
      ensures StoreBytes(old(controller.Abs()), addr, data) == Ok(controller.Abs())
    {
      ghost var m := Config(controller.Abs(), history);
      SoundHomed(m);
      ghost var t, to, d := StoreSound(m, addr, data);
      var size := controller.blockSize;
      var base := controller.StoreBlock(BlockOf(addr, size), FullBlock(addr, |data|, size));
      CopyIn(base, OffsetOf(addr, size), data);
      history := d.h;
    }

    method StartEpoch(dr: real, wr: real)
      requires Valid() && !frozen && !controller.ckpt
      modifies this, controller`toDram, controller`toNvm, controller.att, controller.att.entries, controller.att.nodes,
               controller.att.queues, controller.nvm, controller.dram, controller.migrator, controller.mem
      ensures Valid() && frozen && history.flat == old(history.flat)
      ensures Rebalances(old(controller.Abs()), controller.Abs(), dr, wr)
    {
      ghost var m := Config(controller.Abs(), history);
      ReadySound(m, CountFrom(dr, controller.migrator.pageBlocks), CountUpTo(wr, controller.migrator.pageBlocks));
      ghost var a, b := controller.MigratePages(dr, wr);
      ghost var t := controller.Abs();
      ghost var d := MigrateSound(m, Migrate(dr, wr, a, b), t);
      history, frozen := d.h, true;
      assert controller.Abs() == t;
    }

    /** The freeze event: the counters agree, and the checkpoint begins. With nothing to flush it
        also ends. */
    method Freeze(pending: bool)
      requires Valid() && frozen
      modifies this, controller`ckpt, controller.att, controller.att.entries, controller.att.nodes,
               controller.att.queues, controller.nvm, controller.dram, controller.migrator, controller.mem
      ensures Valid() && !frozen && controller.ckpt == pending && history.flat == old(history.flat)
      ensures if pending then Admitting(controller.Abs()) else Resuming(controller.Abs())
      ensures pending ==> BeginCheckpointing(old(controller.Abs())) == Ok(controller.Abs())
      ensures !pending ==> BeganAndFinished(old(controller.Abs()), controller.Abs())
    {
      assert controller.stats.nvmWrites == controller.migrator.totalNvm;
      assert controller.stats.dramWrites == controller.migrator.totalDram;
      assert controller.stats.nvmWrites + controller.stats.dramWrites ==
        controller.stats.attHits + controller.stats.attMisses + controller.stats.dramHits;
      ghost var d := BeginSound(Config(controller.Abs(), history));
      controller.BeginCheckpointing();
      history := d.h;
      frozen := false;
      if !pending {
        Unfreeze();
        RenewedResumes(controller.Abs());
      }
    }

    /** The unfreeze event, once all blocks are flushed. */
    method Unfreeze()
      requires Valid() && controller.ckpt
      modifies this`history, controller`ckpt, controller.nvm
      ensures Valid() && !controller.ckpt && history.flat == old(history.flat) && frozen == old(frozen)
      ensures controller.Abs() == old(controller.Abs()).(ckpt := false, nvm := controller.Abs().nvm)
      ensures FinishCheckpointing(old(controller.Abs())) == Ok(controller.Abs())
    {
      ghost var d := FinishSound(Config(controller.Abs(), history));
      controller.FinishCheckpointing();
      history := d.h;
    }
  }
}
