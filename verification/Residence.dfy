/** What every resident page has been through, over whole runs, and with it the answers of Probe. */
module Residence {
  import opened Outcomes
  import opened Lists
  import opened Counting
  import opened TranslationTables
  import opened PageTables
  import opened PageTableInvariants
  import opened Controllers
  import opened ControllerInvariants
  import opened Stores
  import opened Migration
  import opened Runs
  import opened RunProofs
  import opened Theorems
  import opened Rebalancing

  // ----- what a call does to a page -----

  lemma MovesKeepPages(s: State, i: nat, move: bool)
    ensures FreeClean(s, i).Ok? ==> FreeClean(s, i).value.ptt == s.ptt
    ensures FreeLoan(s, i, move).Ok? ==> FreeLoan(s, i, move).value.ptt == s.ptt
    ensures HideTemp(s, i, move).Ok? ==> HideTemp(s, i, move).value.ptt == s.ptt
    ensures HideClean(s, i, move).Ok? ==> HideClean(s, i, move).value.ptt == s.ptt
    ensures DirtyStained(s, i, move).Ok? ==> DirtyStained(s, i, move).value.0.ptt == s.ptt
    ensures ResetClean(s, i, move).Ok? ==> ResetClean(s, i, move).value.0.ptt == s.ptt
  {
  }

  lemma SetupKeepsPages(s: State, tag: nat, base: nat, st: EntryState, move: bool)
    ensures Controllers.Setup(s, tag, base, st, move).Ok? ==> Controllers.Setup(s, tag, base, st, move).value.0.ptt == s.ptt
  {
  }

  lemma EvictKeepsPages(s: State)
    ensures EvictClean(s).Ok? ==> EvictClean(s).value.ptt == s.ptt
    ensures EvictAny(s).Ok? ==> EvictAny(s).value.ptt == s.ptt
  {
    if |s.att.queues| == 4 && Queue(s.att, Clean) != [] {
      MovesKeepPages(s, Queue(s.att, Clean)[0], true);
    }
    if |s.att.queues| == 4 && Queue(s.att, Loan) != [] {
      MovesKeepPages(s, Queue(s.att, Loan)[0], true);
    }
  }

  lemma DramStoreKeepsPages(s: State, x: nat, full: bool)
    requires DramStore(s, x, full).Ok?
    ensures DramStore(s, x, full).value.0.ptt == s.ptt
  {
    var (att, hit) := Lookup(s.att, x).value;
    var m := s.(att := att);
    if hit.Some? {
      MovesKeepPages(Hit(m), hit.value, !full);
    } else if s.ckpt {
      EvictKeepsPages(m);
      var e := EvictClean(m).value;
      var (dram, base) := VersionBuffers.Alloc(e.dram).value;
      SetupKeepsPages(e.(dram := dram), x, base, Loan, !full);
    }
  }

  lemma NvmMissKeepsPages(s: State, x: nat, full: bool)
    ensures NvmMissRunning(s, x, full).Ok? ==> NvmMissRunning(s, x, full).value.0.ptt == s.ptt
    ensures NvmMissCkpt(s, x, full).Ok? ==> NvmMissCkpt(s, x, full).value.0.ptt == s.ptt
  {
    EvictKeepsPages(s);
    if NvmMissRunning(s, x, full).Ok? {
      var e := EvictAny(s).value;
      var (nvm, base) := VersionBuffers.Alloc(e.nvm).value;
      SetupKeepsPages(e.(nvm := nvm), x, base, Dirty, !full);
    }
    if NvmMissCkpt(s, x, full).Ok? {
      var e := EvictClean(s).value;
      var (dram, base) := VersionBuffers.Alloc(e.dram).value;
      SetupKeepsPages(e.(dram := dram), x, base, Stained, !full);
    }
  }

  lemma NvmStoreKeepsPages(s: State, x: nat, full: bool)
    requires NvmStore(s, x, full).Ok?
    ensures NvmStore(s, x, full).value.0.ptt == s.ptt
  {
    var (att, hit) := Lookup(s.att, x).value;
    var m := s.(att := att);
    if hit.Some? {
      MovesKeepPages(Hit(m), hit.value, !full);
    } else {
      NvmMissKeepsPages(m, x, full);
    }
  }

  /** A store writes its page, if that is in DRAM, and no other. */
  ghost predicate PageStored(s: State, t: State, x: nat) {
    var g := PageNumber(x, s.ptt.pageBlocks);
    && t.ptt.pages.Keys == s.ptt.pages.Keys
    && (g in s.ptt.pages ==> PageWritten(s.ptt.pages[g], t.ptt.pages[g]))
    && forall h :: h in s.ptt.pages && h != g ==> t.ptt.pages[h] == s.ptt.pages[h]
  }

  lemma StoreWritesPage(s: State, x: nat, full: bool)
    requires PttOk(s.ptt) && StoreBlock(s, x, full).Ok?
    ensures PageStored(s, StoreBlock(s, x, full).value.0, x)
  {
    var (m, dram) := RouteStore(s, x).value;
    var g := PageNumber(x, s.ptt.pageBlocks);
    if dram {
      RecordWriteOk(s.ptt, g);
      DramStoreKeepsPages(m, x, full);
    } else {
      NvmStoreKeepsPages(m, x, full);
    }
  }

  lemma BytesWritePage(s: State, addr: nat, data: seq<Byte>, t: State)
    requires PttOk(s.ptt) && StoreBytes(s, addr, data) == Ok(t)
    ensures PageStored(s, t, BlockOf(addr, s.blockSize))
  {
    StoreWritesPage(s, BlockOf(addr, s.blockSize), FullBlock(addr, |data|, s.blockSize));
  }

  /** A load at most counts a read. */
  ghost predicate PagesRead(s: State, t: State) {
    && t.ptt.pages.Keys == s.ptt.pages.Keys
    && forall g :: g in s.ptt.pages ==> t.ptt.pages[g] == s.ptt.pages[g].(epochReads := t.ptt.pages[g].epochReads)
  }

  lemma LoadReadsPage(s: State, addr: nat, t: State)
    requires Step(s, Load(addr)) == Ok(t)
    ensures PagesRead(s, t)
  {
  }

  /** What a call does to page `g`. */
  ghost predicate PageTurn(s: State, op: Op, t: State, g: nat) {
    && (!op.Migrate? ==> (g in t.ptt.pages <==> g in s.ptt.pages))
    && (g in s.ptt.pages && g in t.ptt.pages ==>
          var e, f := s.ptt.pages[g], t.ptt.pages[g];
          match op
          case Store(addr, _) => if PageNumber(BlockOf(addr, s.blockSize), s.ptt.pageBlocks) == g then PageWritten(e, f) else f == e
          case Load(_) => f == e.(epochReads := f.epochReads)
          case Begin => PageRenewed(e, f)
          case _ => f == e)
    && (ComesIn(s, t, g) ==>
          && t.ptt.pages[g].epochWrites == 0
          && t.ptt.pages[g].state == if DirtyRatio(s, g) > 0.5 then CleanStatic else CleanDirect)
  }

  lemma {:induction false} StoreTurn(s: State, addr: nat, data: seq<Byte>, t: State, g: nat)
    requires PttOk(s.ptt) && StepYields(s, Store(addr, data), t)
    ensures PageTurn(s, Store(addr, data), t, g)
  {
    assert Unlocked(0);
    BytesWritePage(s, addr, data, t);
  }

  lemma {:induction false} LoadTurn(s: State, addr: nat, t: State, g: nat)
    requires StepYields(s, Load(addr), t)
    ensures PageTurn(s, Load(addr), t, g)
  {
    assert Unlocked(0);
    LoadReadsPage(s, addr, t);
  }

  lemma {:induction false} FinishTurn(s: State, t: State, g: nat)
    requires StepYields(s, Finish, t)
    ensures PageTurn(s, Finish, t, g)
  {
    assert Unlocked(0);
  }

  lemma {:induction false} MigrateTurn(s: State, op: Op, t: State, g: nat)
    requires Inv(s) && !s.ckpt && Idle(s.ptt) && Quiet(s) && op.Migrate? && Orders(s, op.nvmOrder, op.dramOrder)
    requires StepYields(s, op, t)
    ensures PageTurn(s, op, t, g) && Rebalanced(s, t, op.dr, op.wr)
  {
    var u := MigrateRebalances(s, op.dr, op.wr, op.nvmOrder, op.dramOrder);
    SameMigration(s, op, t, u);
  }

  lemma SameMigration(s: State, op: Op, t: State, u: State)
    requires op.Migrate? && StepYields(s, op, t) && MigrateYields(s, op.dr, op.wr, op.nvmOrder, op.dramOrder, u)
    ensures t == u
  {
    assert Unlocked(0);
  }

  lemma {:induction false} StepTurn(s: State, h: History, op: Op, t: State, g: nat)
    requires Good(s, h) && Allowed(s, op) && StepYields(s, op, t)
    ensures PageTurn(s, op, t, g)
  {
    match op
    case Store(addr, data) => StoreTurn(s, addr, data, t, g);
    case Load(addr) => LoadTurn(s, addr, t, g);
    case Migrate(_, _, _, _) => MigrateTurn(s, op, t, g);
    case Begin =>
      var u := BeginStepOk(s, h);
      SameStep(s, op, t, u);
    case Finish => FinishTurn(s, t, g);
  }

  // ----- the fate of a page -----

  /** A page is away, or it has been in DRAM since it arrived, direct or not: in how many epochs it has been
      written since then, and how often in this one. */
  datatype Fate = Away | Resident(direct: bool, epochs: nat, writes: nat)

  /** The fate of page `g` in a run, from its calls and from the migrations that moved it. */
  ghost function FateOf(c: Config, ops: seq<Op>, g: nat): Fate
    decreases |ops|
  {
    if ops == [] || !Exec(c, ops).Ok? then Away
    else
      var s, t := Exec(c, ops[..|ops| - 1]).value.s, Exec(c, ops).value.s;
      NextFate(FateOf(c, ops[..|ops| - 1], g), s, ops[|ops| - 1], t, g)
  }

  /** It changes when it is moved, when a block of it is stored, and when an epoch begins. */
  ghost function NextFate(was: Fate, s: State, op: Op, t: State, g: nat): Fate {
    if g !in t.ptt.pages then Away
    else if was.Away? then Resident(DirtyRatio(s, g) <= 0.5, 0, 0)
    else if op.Store? && PageNumber(BlockOf(op.addr, s.blockSize), s.ptt.pageBlocks) == g then
      was.(epochs := was.epochs + (if was.writes == 0 then 1 else 0), writes := was.writes + 1)
    else if op == Begin then was.(writes := 0)
    else was
  }

  /** The page table agrees: the page counts this epoch's writes and is dirty if there are any; it arrives
      direct or static and turns over with every epoch in which it is written. */
  ghost predicate Agree(p: Ptt, g: nat, f: Fate) {
    && (f.Resident? <==> g in p.pages)
    && (f.Resident? ==>
          && p.pages[g].epochWrites == f.writes && (IsDirty(p.pages[g].state) <==> f.writes > 0)
          && (IsDirect(p.pages[g].state) <==> (f.direct <==> f.epochs % 2 == 0)))
  }

  lemma {:induction false} AgreeNext(s: State, op: Op, t: State, g: nat, f: Fate)
    requires PageTurn(s, op, t, g) && Agree(s.ptt, g, f)
    ensures Agree(t.ptt, g, NextFate(f, s, op, t, g))
  {
  }

  lemma {:induction false} FateNext(c: Config, ops: seq<Op>, m: Config, d: Config, g: nat)
    requires ops != [] && ExecYields(c, ops[..|ops| - 1], m) && ExecYields(c, ops, d)
    ensures FateOf(c, ops, g) == NextFate(FateOf(c, ops[..|ops| - 1], g), m.s, ops[|ops| - 1], d.s, g)
  {
    assert Unlocked(0);
  }

  lemma {:induction false} FateReaches(c: Config, ops: seq<Op>, g: nat) returns (d: Config)
    requires Starts(c) && Protocol(c, ops)
    ensures Reaches(c, ops, d) && Agree(d.s.ptt, g, FateOf(c, ops, g))
    decreases |ops|
  {
    d := RunReaches(c, ops);
    if ops == [] {
      OnceYields(c, ops, c, d);
    } else {
      var front, op := ops[..|ops| - 1], ops[|ops| - 1];
      var m := RunProofs.Front(c, ops);
      assert Protocol(c, front);
      var n := FateReaches(c, front, g);
      ReachedOnce(c, front, m, n);
      UseGood(m);
      var t := StepOk(m.s, m.h, op);
      ExecUnfold(c, ops, m, t);
      OnceYields(c, ops, d, Config(t, Advance(m.h, m.s, op, t)));
      StepTurn(m.s, m.h, op, t, g);
      AgreeNext(m.s, op, t, g, FateOf(c, front, g));
      FateNext(c, ops, m, d, g);
    }
  }

  /** In every reachable state, each page is in the state its fate says. */
  lemma {:induction false} PageFates(c: Config, ops: seq<Op>, g: nat) returns (d: Config)
    requires Starts(c) && Protocol(c, ops)
    ensures Exec(c, ops) == Ok(d) && Agree(d.s.ptt, g, FateOf(c, ops, g))
  {
    d := FateReaches(c, ops, g);
    ExecPlainly(c, ops, d);
  }

  /** Every migration of every run rebalances the pages by its two ratios. */
  lemma {:induction false} MigrationsRebalance(c: Config, ops: seq<Op>, move: Op) returns (d: Config, t: State)
    requires Starts(c) && Protocol(c, ops + [move]) && move.Migrate?
    ensures Exec(c, ops) == Ok(d) && Step(d.s, move) == Ok(t) && Rebalanced(d.s, t, move.dr, move.wr)
  {
    var all := ops + [move];
    assert all[..|all| - 1] == ops;
    d := RunProofs.Front(c, all);
    UseGood(d);
    t := MigrateRebalances(d.s, move.dr, move.wr, move.nvmOrder, move.dramOrder);
    MigrationPlainly(d.s, move, t);
    ExecPlainly(c, ops, d);
  }

  lemma MigrationPlainly(s: State, op: Op, t: State)
    requires op.Migrate? && MigrateYields(s, op.dr, op.wr, op.nvmOrder, op.dramOrder, t)
    ensures Step(s, op) == Ok(t)
  {
    assert Unlocked(0);
  }

  // ----- the answers of Probe -----

  /** No entry is free, clean or on loan. */
  ghost predicate AllInUse(es: seq<Entry>) {
    forall i :: 0 <= i < |es| ==>
      es[i].state == Dirty || es[i].state == Hidden || es[i].state == Temp || es[i].state == Stained
  }

  lemma {:induction false} InUseQueue(t: Table)
    requires TableOk(t)
    ensures AllInUse(t.entries) <==> |Queue(t, Dirty)| == |t.entries|
  {
    var e, n := EntriesIn(t.entries, 3), |t.entries|;
    assert Listing(t.queues[3], e);
    ListingCardinality(t.queues[3], e);
    RangeCardinality(n);
    if AllInUse(t.entries) {
      assert forall i: nat :: i in e <==> i in Range(n);
      assert e == Range(n);
    } else {
      var i :| 0 <= i < n && StateIndex(t.entries[i].state) != 3;
      assert i in Range(n) && i !in e;
      assert e <= Range(n) - {i};
      SubsetCardinality(e, Range(n) - {i});
    }
  }

  /** The resident pages that calls of the run have written in this epoch. */
  ghost function WrittenNow(c: Config, ops: seq<Op>, p: Ptt): set<nat> {
    set g | g in p.pages && FateOf(c, ops, g).Resident? && FateOf(c, ops, g).writes > 0
  }

  lemma {:induction false} WrittenAreDirty(c: Config, ops: seq<Op>, d: Config)
    requires Starts(c) && Protocol(c, ops) && Reaches(c, ops, d)
    ensures WrittenNow(c, ops, d.s.ptt) == DirtyPages(d.s.ptt.pages)
  {
    forall g: nat ensures g in WrittenNow(c, ops, d.s.ptt) <==> g in DirtyPages(d.s.ptt.pages) {
      var e := FateReaches(c, ops, g);
      ReachedOnce(c, ops, d, e);
    }
  }

  /** All entries are in use, or as many pages have been written as the page table is long. */
  ghost predicate Exhausted(s: State, written: nat) {
    AllInUse(s.att.entries) || written >= s.ptt.length
  }

  /** A write to `x` needs a new epoch: its page is in NVM and its block has no entry. */
  ghost predicate NeedsEpoch(s: State, x: nat, written: nat) {
    !IsDram(s, x) && Place(s, x).state == Free && Exhausted(s, written)
  }

  lemma ProbeExact(s: State, x: nat)
    requires TableOk(s.att) && s.ptt.dirty == |DirtyPages(s.ptt.pages)|
    ensures s.ckpt ==> Probe(s, x) == if HasRoom(s, x) then RegWrite else WaitCkpt
    ensures !s.ckpt ==> Probe(s, x) != WaitCkpt && (Probe(s, x) == NewEpoch <==> NeedsEpoch(s, x, |DirtyPages(s.ptt.pages)|))
  {
    InUseQueue(s.att);
    LiveTag(s, x);
  }

  /** In every reachable state, what Probe answers: while checkpointing, to wait if and only if there is no
      room; while running, a new epoch if and only if the write needs an entry and all are in use, or as many
      resident pages have been written in this epoch as the page table is long. */
  lemma {:induction false} ProbeAnswers(c: Config, ops: seq<Op>, x: nat) returns (d: Config)
    requires Starts(c) && Protocol(c, ops)
    ensures Exec(c, ops) == Ok(d) && |d.s.att.queues| == 4
    ensures d.s.ckpt ==> Probe(d.s, x) == if HasRoom(d.s, x) then RegWrite else WaitCkpt
    ensures !d.s.ckpt ==> Probe(d.s, x) != WaitCkpt
    ensures !d.s.ckpt ==> (Probe(d.s, x) == NewEpoch <==> NeedsEpoch(d.s, x, |WrittenNow(c, ops, d.s.ptt)|))
  {
    d := RunReaches(c, ops);
    UseGood(d);
    WrittenAreDirty(c, ops, d);
    ProbeExact(d.s, x);
    ExecPlainly(c, ops, d);
  }

  lemma LiteralExact(s: State, addr: nat)
    requires TableOk(s.att) && s.ptt.dirty == |DirtyPages(s.ptt.pages)|
    ensures var found, dram := addr in s.att.index, IsDram(s, BlockOf(addr, s.blockSize));
      LiteralProbe(s, addr) ==
        if s.ckpt then (if !found && Queue(s.att, Free) == [] && Queue(s.att, Clean) == [] then WaitCkpt else RegWrite)
        else if !dram && !found && Exhausted(s, |DirtyPages(s.ptt.pages)|) then NewEpoch else RegWrite
  {
    InUseQueue(s.att);
  }

  /** Probe as written answers likewise, with the address in place of the tag. */
  lemma {:induction false} LiteralProbeAnswers(c: Config, ops: seq<Op>, addr: nat) returns (d: Config)
    requires Starts(c) && Protocol(c, ops)
    ensures Exec(c, ops) == Ok(d) && |d.s.att.queues| == 4
    ensures var s, found, dram := d.s, addr in d.s.att.index, IsDram(d.s, BlockOf(addr, d.s.blockSize));
      LiteralProbe(s, addr) ==
        if s.ckpt then (if !found && Queue(s.att, Free) == [] && Queue(s.att, Clean) == [] then WaitCkpt else RegWrite)
        else if !dram && !found && Exhausted(s, |WrittenNow(c, ops, s.ptt)|) then NewEpoch else RegWrite
  {
    d := RunReaches(c, ops);
    UseGood(d);
    WrittenAreDirty(c, ops, d);
    LiteralExact(d.s, addr);
    ExecPlainly(c, ops, d);
  }
}
