/** What holds in every run of the controller under its driver. */
module Theorems {
  import opened Outcomes
  import opened TranslationTables
  import opened Controllers
  import opened ControllerInvariants
  import opened Retention
  import opened Stores
  import opened Checkpoints
  import opened Migration
  import opened PageTables
  import opened Runs
  import opened RunProofs
  import opened Histories

  /** The run `ops` from `c` ends in `d`, with no assertion failing on the way, and `d` agrees with the
      history: it shows the flat memory, which is that of the stores alone, and keeps the images. */
  ghost predicate Reached(c: Config, ops: seq<Op>, d: Config) {
    && Exec(c, ops) == Ok(d) && Good(d.s, d.h)
    && d.s.phyBlocks == c.s.phyBlocks && d.s.blockSize == c.s.blockSize
    && |d.s.att.entries| == |c.s.att.entries| && d.s.ptt.length == c.s.ptt.length
    && d.h.flat == FlatAfter(c.h.flat, ops, c.s.blockSize)
  }

  lemma {:induction false} Plainly(c: Config, ops: seq<Op>, d: Config)
    requires Reaches(c, ops, d)
    ensures Reached(c, ops, d)
  {
    UseGood(d);
    assert Unlocked(0);
  }

  /** Safety and refinement: no run fails an assertion, and its state always agrees with the flat
      memory, the retained images and the counters of its history. */
  lemma {:induction false} RunsAreGood(c: Config, ops: seq<Op>) returns (d: Config)
    requires Starts(c) && Protocol(c, ops)
    ensures Reached(c, ops, d)
  {
    d := RunReaches(c, ops);
    Plainly(c, ops, d);
  }

  lemma {:induction false} ReadPlainly(s: State, addr: nat, t: State, b: Byte)
    requires ReadYields(s, addr, t, b)
    ensures LoadByte(s, addr) == Ok((t, b))
  {
    assert Unlocked(0);
  }

  /** Transparency: after any run, a load of any byte succeeds and returns what the last store to
      that byte wrote, whatever evictions, checkpoints and migrations happened since. */
  lemma {:induction false} Transparency(c: Config, ops: seq<Op>, addr: nat) returns (d: Config, t: State)
    requires Starts(c) && Protocol(c, ops) && BlockOf(addr, c.s.blockSize) < c.s.phyBlocks
    ensures Exec(c, ops) == Ok(d)
    ensures var flat, size := FlatAfter(c.h.flat, ops, c.s.blockSize), c.s.blockSize;
      && Sized(flat, c.s.phyBlocks, size) && Sized(c.h.flat, c.s.phyBlocks, size)
      && LoadByte(d.s, addr) == Ok((t, FlatByte(flat, addr, size)))
      && FlatByte(flat, addr, size) == LastWritten(FlatByte(c.h.flat, addr, size), ops, addr)
  {
    d := RunReaches(c, ops);
    UseGood(d);
    t := LoadOk(d.s, d.h, addr);
    ReadPlainly(d.s, addr, t, FlatByte(d.h.flat, addr, c.s.blockSize));
    ExecPlainly(c, ops, d);
    FlatIsLast(c, ops, addr);
  }

  lemma {:induction false} ExecPlainly(c: Config, ops: seq<Op>, d: Config)
    requires ExecYields(c, ops, d)
    ensures Exec(c, ops) == Ok(d)
  {
    assert Unlocked(0);
  }

  // ----- which stores complete -----

  lemma {:induction false} StorePlainly(s: State, addr: nat, data: seq<Byte>, t: State)
    requires StepYields(s, Store(addr, data), t)
    ensures StoreBytes(s, addr, data) == Ok(t)
  {
    assert Unlocked(0);
  }

  /** In every reachable state a store completes exactly if there is room for it. */
  lemma {:induction false} StoresComplete(c: Config, ops: seq<Op>, x: nat, full: bool) returns (d: Config)
    requires Starts(c) && Protocol(c, ops) && x < c.s.phyBlocks
    ensures Exec(c, ops) == Ok(d) && |d.s.att.queues| == 4
    ensures StoreBlock(d.s, x, full).Ok? <==> HasRoom(d.s, x)
  {
    d := RunReaches(c, ops);
    UseGood(d);
    StoreExact(d.s, x, full);
    ExecPlainly(c, ops, d);
  }

  lemma {:induction false} BlockPlainly(s: State, x: nat, full: bool, t: State, to: nat, u: State)
    requires StoreYields(s, x, full, t, to) && LoadYields(t, x, u, to)
    ensures StoreBlock(s, x, full) == Ok((t, to)) && LoadBlock(t, x) == Ok((u, to))
  {
    assert Unlocked(0);
  }

  /** A store that completes is found again: a load of the block goes to the machine block it went to. */
  lemma {:induction false} StoreThenLoad(c: Config, ops: seq<Op>, x: nat, full: bool)
    returns (d: Config, t: State, to: nat, u: State)
    requires Starts(c) && Protocol(c, ops) && x < c.s.phyBlocks
    ensures Exec(c, ops) == Ok(d) && |d.s.att.queues| == 4
    ensures HasRoom(d.s, x) ==> StoreBlock(d.s, x, full) == Ok((t, to)) && LoadBlock(t, x) == Ok((u, to))
  {
    d := RunReaches(c, ops);
    UseGood(d);
    t, to, u := d.s, 0, d.s;
    if HasRoom(d.s, x) {
      t, to := StoreBlockOk(d.s, x, full);
      u := LoadBlockOk(t, x);
      BlockPlainly(d.s, x, full, t, to, u);
    }
    ExecPlainly(c, ops, d);
  }

  /** Where Probe, asked by tag, lets a store go ahead, it goes ahead and writes just its bytes. */
  lemma {:induction false} ProbeSound(c: Config, ops: seq<Op>, addr: nat, data: seq<Byte>) returns (d: Config, t: State)
    requires Starts(c) && Protocol(c, ops) && BlockOf(addr, c.s.blockSize) < c.s.phyBlocks
    requires CheckValid(addr, |data|, c.s.blockSize)
    ensures Exec(c, ops) == Ok(d) && |d.s.att.queues| == 4
    ensures Probe(d.s, BlockOf(addr, c.s.blockSize)) == RegWrite ==>
      StoreBytes(d.s, addr, data) == Ok(t) && Shows(t, FlatStore(d.h.flat, addr, data, c.s.blockSize))
  {
    d := RunReaches(c, ops);
    UseGood(d);
    t := d.s;
    if Probe(d.s, BlockOf(addr, c.s.blockSize)) == RegWrite {
      ProbeHasRoom(d.s, BlockOf(addr, c.s.blockSize));
      t := StoreOk(d.s, d.h, addr, data);
      StorePlainly(d.s, addr, data, t);
    }
    ExecPlainly(c, ops, d);
  }

  /** Probe as written asks by address. Where it lets a store go ahead, the store fails an assertion
      exactly if the address is a live tag, its block has no entry, and no entry can be had. */
  lemma {:induction false} LiteralProbeSound(c: Config, ops: seq<Op>, addr: nat, full: bool) returns (d: Config)
    requires Starts(c) && Protocol(c, ops) && BlockOf(addr, c.s.blockSize) < c.s.phyBlocks
    ensures Exec(c, ops) == Ok(d) && |d.s.att.queues| == 4
    ensures var s, x := d.s, BlockOf(addr, c.s.blockSize);
      LiteralProbe(s, addr) == RegWrite ==>
      (StoreBlock(s, x, full) == Abort <==>
        && addr in s.att.index && x !in s.att.index && Queue(s.att, Free) == [] && Queue(s.att, Clean) == []
        && (s.ckpt || (!IsDram(s, x) && Queue(s.att, Loan) == [])))
  {
    var x := BlockOf(addr, c.s.blockSize);
    d := StoresComplete(c, ops, x, full);
    var e := RunReaches(c, ops);
    ExecPlainly(c, ops, e);
    UseGood(e);
    if LiteralProbe(d.s, addr) == RegWrite {
      LiteralProbeExact(d.s, addr);
    }
  }

  // ----- images -----

  /** Two-version retention: at every point of every run, the image of the latest begin is intact
      for all blocks it still covers, and until the finish so is the one before. The images are the
      memory of those moments, and cover the blocks that have not been in DRAM since. */
  lemma {:induction false} ImagesRetained(c: Config, ops: seq<Op>)
    returns (d: Config, loc: map<nat, nat>, prevLoc: map<nat, nat>)
    requires Starts(c) && Protocol(c, ops)
    ensures Exec(c, ops) == Ok(d) && ImageKept(d.s, d.h.image, d.h.covered, loc)
    ensures d.s.ckpt ==> ImageKept(d.s, d.h.prevImage, d.h.prevCovered, prevLoc)
    ensures ImagesOf(c, ops, d)
  {
    d := ImageHistory(c, ops);
    UseGood(d);
    loc := KeptImage(d.s, d.h.image, d.h.covered, Current);
    prevLoc := map[];
    if d.s.ckpt {
      prevLoc := KeptImage(d.s, d.h.prevImage, d.h.prevCovered, Previous);
    }
    ExecPlainly(c, ops, d);
  }

  // ----- ownership -----

  /** No two physical addresses ever share a machine address. */
  lemma {:induction false} TranslationInjective(c: Config, ops: seq<Op>, a: nat, b: nat) returns (d: Config)
    requires Starts(c) && Protocol(c, ops) && a != b
    requires BlockOf(a, c.s.blockSize) < c.s.phyBlocks && BlockOf(b, c.s.blockSize) < c.s.phyBlocks
    ensures Exec(c, ops) == Ok(d) && Translate(d.s, a) != Translate(d.s, b)
  {
    d := RunReaches(c, ops);
    var x, y := BlockOf(a, c.s.blockSize), BlockOf(b, c.s.blockSize);
    if x != y {
      ReachedNoAlias(d, x, y);
    }
    ApartBytes(a, b, Place(d.s, x).base, Place(d.s, y).base, c.s.blockSize);
    ExecPlainly(c, ops, d);
  }

  /** Slots in use are exactly the bases of the entries of the matching states. */
  lemma {:induction false} SlotsAreOwned(c: Config, ops: seq<Op>, x: nat) returns (d: Config)
    requires Starts(c) && Protocol(c, ops)
    ensures Exec(c, ops) == Ok(d)
    ensures x in d.s.nvm.inUse <==> exists i :: HoldsNvm(d.s, i, x)
    ensures x in d.s.dram.inUse <==> exists i :: HoldsDram(d.s, i, x)
  {
    d := RunReaches(c, ops);
    UseGood(d);
    SlotOwners(d.s, x);
    ExecPlainly(c, ops, d);
  }

  /** A loaned block's page is in DRAM, every other mapped block's is not; a hidden block is at home;
      while checkpointing nothing is Dirty or Hidden. */
  lemma {:induction false} MappedBlocks(c: Config, ops: seq<Op>, g: nat) returns (d: Config)
    requires Starts(c) && Protocol(c, ops)
    ensures Exec(c, ops) == Ok(d)
    ensures var m := Place(d.s, g);
      m.state != Free ==>
        && (m.state == Loan <==> IsDram(d.s, g)) && (m.state == Hidden ==> m.base == g)
        && (d.s.ckpt ==> m.state != Dirty && m.state != Hidden)
  {
    d := RunReaches(c, ops);
    UseGood(d);
    if Place(d.s, g).state != Free {
      MappedBlock(d.s, g);
    }
    ExecPlainly(c, ops, d);
  }

  // ----- backups, progress, migration, books -----

  /** A slot backed up while checkpointing lives through that finish and is freed by the next one:
      `x` is in the young generation at position `k`, the next finish is at `n`, the one after it at
      the end. */
  lemma {:induction false} BackupLifetime(c: Config, ops: seq<Op>, k: nat, n: nat, x: nat)
    returns (e: Config, a: Config, b: Config, d: Config)
    requires Starts(c) && Protocol(c, ops) && k <= n < |ops| - 1
    requires ops[n] == Finish && ops[|ops| - 1] == Finish
    requires NoFinish(ops[..n], k) && NoFinish(ops[..|ops| - 1], n + 1)
    ensures Exec(c, ops[..k]) == Ok(e) && Exec(c, ops[..n]) == Ok(a)
    ensures Exec(c, ops[..|ops| - 1]) == Ok(b) && Exec(c, ops) == Ok(d)
    ensures x in e.s.nvm.backup1 ==> x in a.s.nvm.backup1 && x in b.s.nvm.backup0 && x in d.s.nvm.free
  {
    e, a, b, d := BackupReaches(c, ops, k, n, x);
    ExecPlainly(c, ops[..k], e);
    ExecPlainly(c, ops[..n], a);
    ExecPlainly(c, ops[..|ops| - 1], b);
    ExecPlainly(c, ops, d);
  }

  /** A write refused for a new epoch is let through as soon as that epoch's checkpoint has begun;
      it never is if the table has no entries. */
  lemma {:induction false} NewEpochAdmits(c: Config, ops: seq<Op>, x: nat) returns (d: Config)
    requires Starts(c) && Protocol(c, ops) && ops != [] && ops[|ops| - 1] == Begin
    ensures Exec(c, ops) == Ok(d) && |d.s.att.queues| == 4
    ensures Probe(d.s, x) == RegWrite <==> |c.s.att.entries| > 0
  {
    var m := RunProofs.Front(c, ops);
    d := BeginReached(c, ops, m);
    BegunAdmits(d.s, x);
    ExecPlainly(c, ops, d);
  }

  /** With a page table of at least 16 pages, a run gives back at most the spare capacity of a 16th of
      them per migration. */
  lemma {:induction false} MigrationBound(c: Config, ops: seq<Op>) returns (d: Config)
    requires Starts(c) && Protocol(c, ops) && c.s.ptt.length >= 16
    ensures Exec(c, ops) == Ok(d) && d.s.toNvm <= Migrations(ops) * (c.s.ptt.length / 16)
  {
    d := ReturnedPages(c, ops);
    ExecPlainly(c, ops, d);
  }

  lemma {:induction false} MigratePlainly(s: State, op: Op, dirtyMin: int, s2: State, m: State, exit: Exit, t: State)
    requires op.Migrate? && MigrateYields(s, op.dr, op.wr, op.nvmOrder, op.dramOrder, t)
    requires InputYields(s, op.nvmOrder, op.dramOrder, s2) && ExchangeYields(s2, dirtyMin, m, exit)
    ensures MigrateInput(s, op.nvmOrder, op.dramOrder) == Ok(s2) && ExchangePages(s2, dirtyMin) == Ok((m, exit))
    ensures Step(s, op) == Ok(t)
  {
    assert Unlocked(0);
  }

  /** A migration in any reachable state keeps to the spare capacity exactly if there are 16 pages or the
      second loop does not move its first page. */
  lemma {:induction false} ReturnLimitExact(c: Config, ops: seq<Op>, move: Op)
    returns (d: Config, s2: State, m: State, exit: Exit, t: State)
    requires Starts(c) && Protocol(c, ops + [move]) && move.Migrate?
    ensures Exec(c, ops) == Ok(d) && MigrateInput(d.s, move.nvmOrder, move.dramOrder) == Ok(s2)
    ensures ExchangePages(s2, CountFrom(move.dr, d.s.ptt.pageBlocks)) == Ok((m, exit)) && Step(d.s, move) == Ok(t)
    ensures t.toNvm <= d.s.toNvm + (d.s.ptt.capacity - d.s.ptt.length) <==>
      c.s.ptt.length >= 16 || !MovesFirst(m, exit, CountUpTo(move.wr, d.s.ptt.pageBlocks))
  {
    var all := ops + [move];
    assert all[..|all| - 1] == ops;
    d := RunProofs.Front(c, all);
    UseGood(d);
    var low, high := CountFrom(move.dr, d.s.ptt.pageBlocks), CountUpTo(move.wr, d.s.ptt.pageBlocks);
    s2, m, exit, t := MigrateBoundExact(d.s, move.dr, move.wr, move.nvmOrder, move.dramOrder, low, high);
    MigratePlainly(d.s, move, low, s2, m, exit, t);
    ExecPlainly(c, ops, d);
  }

  /** In every driven run the books balance; in particular, between a migration and the begin that
      follows it the controller's totals are the driver's counts. */
  lemma {:induction false} BooksBalance(c: Config, ops: seq<Op>) returns (d: Config)
    requires Starts(c) && Protocol(c, ops) && Driven(c, ops)
    ensures Exec(c, ops) == Ok(d) && Balanced(d.s, d.h)
  {
    d := BooksReach(c, ops);
    ExecPlainly(c, ops, d);
  }
}
