/** Concrete runs on which the source does not do what one would expect of it. */
module Witnesses {
  import opened Outcomes
  import opened Sums
  import opened VersionBuffers
  import opened TranslationTables
  import opened PageTables
  import opened PageTableInvariants
  import opened Controllers
  import opened ControllerInvariants
  import opened Stores
  import opened Checkpoints
  import opened Migration
  import opened Runs
  import opened RunProofs
  import opened Theorems
  import opened Eviction
  import opened Progress
  import opened Histories
  import opened Latency

  // ----- Probe asked by address -----

  /** Four physical blocks of two bytes, a table of one entry, pages of one block. */
  ghost function Small(mem: seq<Block>): Config
    requires |mem| >= 4
  {
    var s := Init(4, 2, 1, 1, 1, mem);
    Config(s, Birth(s))
  }

  /** One full store to an empty table takes its only entry. */
  lemma FirstStore(s: State, x: nat)
    requires s.att == Fresh(1) && !s.ckpt && s.nvm.free != {}
    ensures NvmStore(s, x, true).Ok?
    ensures var t := NvmStore(s, x, true).value.0;
      t.att.index == map[x := 0] && t.att.queues == [[], [], [], [0]] && t.ckpt == s.ckpt && t.ptt == s.ptt
      && t.blockSize == s.blockSize && |t.att.entries| == 1 && t.toNvm == s.toNvm
      && var e := t.att.entries[0]; e.state == Dirty && e.tag == x && e.epochWrites == 1
  {
    assert Queue(s.att, Free) == [0];
    assert Lookup(s.att, x) == Ok((s.att, None));
    var m := Hit(s);
    assert EvictAny(s) == Ok(m);
    var (nvm, base) := Alloc(m.nvm).value;
    var att := TranslationTables.Setup(m.att, x, base, Dirty).value.0;
    assert s.att.queues == [[], [], [0], []] && [0][1..] == [] && [] + [0] == [0];
    assert att.queues == [[], [], [], [0]];
  }

  /** After that store, Probe lets a store to block 1 go ahead, because the address 2 is taken for the
      tag of the mapped block 2; and the store fails an assertion. */
  lemma {:induction false} LiteralProbeFails(mem: seq<Block>, data: seq<Byte>) returns (d: Config)
    requires |mem| == 7 && (forall a :: 0 <= a < 7 ==> |mem[a]| == 2) && |data| == 2
    ensures var c, ops := Small(mem), [Store(4, data)];
      Starts(c) && Protocol(c, ops) && Exec(c, ops) == Ok(d) && |d.s.att.queues| == 4
    ensures LiteralProbe(d.s, 2) == RegWrite && Probe(d.s, 1) == NewEpoch && StoreBlock(d.s, 1, true) == Abort
  {
    var c, ops := Small(mem), [Store(4, data)];
    assert ops[..0] == [] && Exec(c, []) == Ok(c) && Protocol(c, []);
    assert Queue(c.s.att, Free) == [0];
    assert Protocol(c, ops);
    d := LiteralProbeSound(c, ops, 2, true);
    var (m, dram) := RouteStore(c.s, 2).value;
    FirstStore(m, 2);
  }

  // ----- pages given back by a page table without spare capacity -----

  /** One more allowed step. */
  lemma {:induction false} Extend(c: Config, ops: seq<Op>, d: Config, op: Op) returns (e: Config)
    requires Starts(c) && Protocol(c, ops) && Reaches(c, ops, d) && Allowed(d.s, op)
    ensures Protocol(c, ops + [op]) && Reaches(c, ops + [op], e) && StepYields(d.s, op, e.s)
    ensures e.h == Advance(d.h, d.s, op, e.s)
  {
    var more := ops + [op];
    assert more[..|more| - 1] == ops;
    ExecPlainly(c, ops, d);
    assert Protocol(c, more);
    UseGood(d);
    var t := StepOk(d.s, d.h, op);
    ExecUnfold(c, more, d, t);
    e := RunReaches(c, more);
    OnceYields(c, more, e, Config(t, Advance(d.h, d.s, op, t)));
  }

  /** One physical block of one byte, one table entry, one page. */
  ghost function Tiny(mem: seq<Block>): Config
    requires |mem| >= 1
  {
    var s := Init(1, 1, 1, 1, 1, mem);
    Config(s, Birth(s))
  }

  /** The only block is dirty in NVM. */
  ghost predicate DirtyOnly(s: State) {
    && s.att.queues == [[], [], [], [0]] && |s.att.entries| == 1 && !s.ckpt && s.toNvm == 0
    && s.att.entries[0].state == Dirty && s.att.entries[0].tag == 0 && s.att.entries[0].epochWrites == 1
    && s.ptt == PageTables.Empty(1, 1)
  }

  lemma StoredOnce(c: Config, mem: seq<Block>, data: seq<Byte>, t: State)
    requires |mem| == 4 && c == Tiny(mem) && |data| == 1 && StepYields(c.s, Store(0, data), t)
    ensures DirtyOnly(t)
  {
    assert Unlocked(0);
    var (m, dram) := RouteStore(c.s, 0).value;
    FirstStore(m, 0);
  }

  /** The migration's orders for that state. */
  lemma {:induction false} DirtyOrders(s: State)
    requires DirtyOnly(s)
    ensures Orders(s, [0], []) && RevokeLoans(s, Queue(s.att, Loan)) == Ok(s)
  {
    var es := s.att.entries;
    assert PageNumber(0, 1) == 0 && !Settled(es[0]);
    assert ActivePages(es, 1, 1) == {0};
    assert s.ptt.pages.Keys == {};
  }

  /** Both ratios, at their extremes, as counts for pages of one block. */
  lemma Extremes()
    ensures CountFrom(0.0, 1) == 0 && CountUpTo(1.0, 1) == 1
  {
  }

  lemma MovesTo(s: State, op: Op, s2: State, u: State, t: State)
    requires op.Migrate? && op.dr == 0.0 && op.wr == 1.0 && s.ptt.pageBlocks == 1
    requires MigrateInput(s, op.nvmOrder, op.dramOrder) == Ok(s2) && MigrateLoops(s2, 0, 1) == Ok(u)
    requires StepYields(s, op, t)
    ensures t == u
  {
    Extremes();
    assert Unlocked(0);
  }

  /** One waiting page, room for it, and nothing in DRAM to give back. */
  lemma {:induction false} ExchangeOnly(s: State) returns (t: State)
    requires Inv(s) && !s.ckpt && NoLoan(s) && HeapsOk(s.ptt) && s.ptt.pages == map[] && s.ptt.capacity == 1
    requires NvmHeapPages(s.ptt.nvmHeap) == [0] && s.ptt.dramHeap == []
    ensures MigrateLoops(s, 0, 1) == Ok(t) && t.ptt.pages.Keys == {0} && t.toNvm == s.toNvm
  {
    NvmHeapAt(s.ptt.nvmHeap);
    ExtractNvmOk(s.ptt);
    var (q, n) := ExtractNvm(s.ptt).value.value;
    assert n.page == 0;
    var m := s.(ptt := q);
    HeapTaken(s, m);
    MigrateNvmOk(m, n);
    t := MigrateNvm(m, n).value;
    TurnIn(s, q, n, t, 0);
    TurnResult(s, 0, ExchangePages(t, 0));
    TurnEmpty(t, 0);
    TurnResult(t, 0, Ok((t, Proceed(None))));
  }

  /** Without loans, the heaps are filled and nothing else changes. */
  lemma {:induction false} HeapsFilled(s: State, nvmOrder: seq<nat>, dramOrder: seq<nat>) returns (s2: State)
    requires Inv(s) && !s.ckpt && Idle(s.ptt) && Quiet(s) && Orders(s, nvmOrder, dramOrder)
    requires RevokeLoans(s, Queue(s.att, Loan)) == Ok(s)
    ensures MigrateInput(s, nvmOrder, dramOrder) == Ok(s2) && s2 == s.(ptt := s2.ptt)
    ensures InputBlocks(s.ptt, s.att.entries, nvmOrder, dramOrder) == Ok(s2.ptt)
    ensures Inv(s2) && NoLoan(s2) && HeapsOk(s2.ptt)
  {
    var s1;
    s1, s2 := MigrateInputOk(s, nvmOrder, dramOrder);
    assert Unlocked(0);
  }

  lemma {:induction false} FilledHeaps(s: State, nvmOrder: seq<nat>, dramOrder: seq<nat>, q: Ptt)
    requires Inv(s) && Idle(s.ptt) && Quiet(s) && Orders(s, nvmOrder, dramOrder)
    requires RevokeLoans(s, Queue(s.att, Loan)) == Ok(s)
    requires InputBlocks(s.ptt, s.att.entries, nvmOrder, dramOrder) == Ok(q)
    ensures q.pages == s.ptt.pages && q.capacity == s.ptt.capacity && q.length == s.ptt.length
    ensures NvmHeapPages(q.nvmHeap) == nvmOrder && DramHeapPages(q.dramHeap) == dramOrder
    ensures q.dramHeap == DramHeapOf(s.ptt.pages, dramOrder)
  {
    QuietSettled(s);
    InputBlocksOk(s.ptt, s.att.entries, nvmOrder, dramOrder);
  }

  lemma {:induction false} PageInput(s: State) returns (s2: State)
    requires Inv(s) && Idle(s.ptt) && Quiet(s) && DirtyOnly(s)
    ensures MigrateInput(s, [0], []) == Ok(s2)
    ensures Inv(s2) && !s2.ckpt && NoLoan(s2) && HeapsOk(s2.ptt) && s2.ptt.pages == map[] && s2.ptt.capacity == 1
    ensures NvmHeapPages(s2.ptt.nvmHeap) == [0] && s2.ptt.dramHeap == [] && s2.toNvm == 0
  {
    DirtyOrders(s);
    s2 := HeapsFilled(s, [0], []);
    FilledHeaps(s, [0], [], s2.ptt);
    DramHeapAt(s2.ptt.dramHeap);
  }

  /** The block's page moves to DRAM. */
  lemma {:induction false} PageMovesIn(s: State, t: State)
    requires Inv(s) && Idle(s.ptt) && Quiet(s) && DirtyOnly(s) && StepYields(s, Migrate(0.0, 1.0, [0], []), t)
    ensures t.ptt.pages.Keys == {0} && t.toNvm == 0
  {
    var s2 := PageInput(s);
    var u := ExchangeOnly(s2);
    MovesTo(s, Migrate(0.0, 1.0, [0], []), s2, u, t);
  }

  /** The only page is in DRAM, and no table entry is in use but clean ones. */
  ghost predicate PageOnly(s: State) {
    && s.ptt.pages.Keys == {0} && AllSettled(s.att.entries) && s.toNvm == 0
    && s.phyBlocks == s.blockSize == s.ptt.pageBlocks == s.ptt.length == 1 && !s.ptt.nvmFilled
  }

  lemma {:induction false} Begins(d: Config, e: Config)
    requires Agrees(d) && Allowed(d.s, Begin) && StepYields(d.s, Begin, e.s) && d.s.ptt.pages.Keys == {0} && d.s.toNvm == 0
    requires d.s.phyBlocks == d.s.blockSize == d.s.ptt.pageBlocks == d.s.ptt.length == 1
    ensures PageOnly(e.s) && e.s.ckpt
  {
    UseGood(d);
    var t := BeginStepOk(d.s, d.h);
    assert Unlocked(0);
  }

  lemma {:induction false} Finishes(s: State, t: State)
    requires PageOnly(s) && s.ckpt && StepYields(s, Finish, t)
    ensures PageOnly(t) && !t.ckpt
  {
    assert Unlocked(0);
  }

  /** A block of a page in DRAM with no entry in use has no entry. */
  lemma {:induction false} Unmapped(s: State)
    requires Inv(s) && PageOnly(s)
    ensures 0 !in s.att.index && IsDram(s, 0)
  {
    LiveTag(s, 0);
    if Place(s, 0).state != Free {
      MappedBlock(s, 0);
    }
  }

  /** While running, a store to the page writes it in place. */
  lemma {:induction false} WritesPage(s: State, data: seq<Byte>, t: State)
    requires Inv(s) && PageOnly(s) && !s.ckpt && |data| == 1 && StepYields(s, Store(0, data), t)
    ensures PageOnly(t) && !t.ckpt
  {
    Unmapped(s);
    RecordWriteOk(s.ptt, 0);
    assert Unlocked(0);
    var (m, dram) := RouteStore(s, 0).value;
    assert DramStore(m, 0, true).value.0.att == m.att;
  }

  lemma {:induction false} PageOrders(s: State)
    requires Inv(s) && PageOnly(s)
    ensures Orders(s, [], [0]) && RevokeLoans(s, Queue(s.att, Loan)) == Ok(s)
  {
    SettledQueues(s.att);
    assert ActivePages(s.att.entries, |s.att.entries|, 1) == {};
  }

  lemma {:induction false} OnlySummand(m: map<nat, nat>)
    requires m.Keys == {0}
    ensures Sum(m) == m[0]
  {
    SumRemove(m, 0);
    assert m - {0} == map[];
  }

  /** Its one write waits in the heap. */
  lemma {:induction false} WrittenInput(s: State) returns (s2: State)
    requires Inv(s) && Idle(s.ptt) && Quiet(s) && PageOnly(s) && !s.ckpt && DramWrites(s.ptt) == 1
    ensures MigrateInput(s, [], [0]) == Ok(s2)
    ensures Inv(s2) && !s2.ckpt && NoLoan(s2) && HeapsOk(s2.ptt) && s2.ptt.capacity == s2.ptt.length && s2.toNvm == 0
    ensures s2.ptt.nvmHeap == [] && |s2.ptt.dramHeap| == 1 && s2.ptt.dramHeap[0].page == 0 && s2.ptt.dramHeap[0].writes == 1
  {
    PageOrders(s);
    s2 := HeapsFilled(s, [], [0]);
    FilledHeaps(s, [], [0], s2.ptt);
    NvmHeapAt(s2.ptt.nvmHeap);
    WrittenHeap(s.ptt);
  }

  lemma {:induction false} WrittenHeap(p: Ptt)
    requires p.pages.Keys == {0}
    ensures DramHeapOf(p.pages, [0]) == [DramStats(0, p.pages[0].state, DramWrites(p))]
  {
    OnlySummand(DramWritesOf(p.pages));
    assert [0][..0] == [];
  }

  /** It is given back although the limit is zero. */
  lemma {:induction false} ReturnsOne(s: State) returns (t: State)
    requires Inv(s) && !s.ckpt && NoLoan(s) && HeapsOk(s.ptt) && s.ptt.capacity == s.ptt.length && s.toNvm == 0
    requires s.ptt.nvmHeap == [] && |s.ptt.dramHeap| == 1 && s.ptt.dramHeap[0].page == 0 && s.ptt.dramHeap[0].writes == 1
    ensures MigrateLoops(s, 0, 1) == Ok(t) && t.toNvm > 0
  {
    TurnEmpty(s, 0);
    TurnResult(s, 0, Ok((s, Proceed(None))));
    ExtractDramOk(s.ptt);
    var (q, d) := ExtractDram(s.ptt).value.value;
    var m := s.(ptt := q);
    HeapTaken(s, m);
    t := ReturnOk(m, d, 0, 1);
    ReturnBoundExact(m, d, 0, 1);
  }

  lemma {:induction false} PageMovesOut(s: State, t: State)
    requires Inv(s) && Idle(s.ptt) && Quiet(s) && PageOnly(s) && !s.ckpt && DramWrites(s.ptt) == 1
    requires StepYields(s, Migrate(0.0, 1.0, [], [0]), t)
    ensures t.toNvm > 0
  {
    var s2 := WrittenInput(s);
    var u := ReturnsOne(s2);
    MovesTo(s, Migrate(0.0, 1.0, [], [0]), s2, u, t);
  }

  /** Store to a block, let its page move to DRAM, checkpoint, and store to it again. */
  ghost function Detour(v: seq<Byte>, w: seq<Byte>): seq<Op> {
    [Store(0, v), Migrate(0.0, 1.0, [0], []), Begin, Finish, Store(0, w)]
  }

  /** A run of single-byte blocks from a fresh controller. */
  ghost predicate Ends(c: Config, ops: seq<Op>, d: Config) {
    && Starts(c) && Protocol(c, ops) && Reaches(c, ops, d)
    && c.s.phyBlocks == c.s.blockSize == c.s.ptt.length == 1
  }

  lemma {:induction false} TinyStarts(mem: seq<Block>) returns (c: Config)
    requires |mem| == 4 && forall a :: 0 <= a < 4 ==> |mem[a]| == 1
    ensures c == Tiny(mem) && Ends(c, [], c)
  {
    c := Tiny(mem);
    var d := RunReaches(c, []);
    assert Unlocked(0);
  }

  lemma {:induction false} FirstEnds(c: Config, mem: seq<Block>, v: seq<Byte>) returns (d: Config)
    requires |mem| == 4 && c == Tiny(mem) && Ends(c, [], c) && |v| == 1
    ensures Ends(c, [Store(0, v)], d) && DirtyOnly(d.s)
  {
    assert Queue(c.s.att, Free) == [0];
    d := Extend(c, [], c, Store(0, v));
    assert [] + [Store(0, v)] == [Store(0, v)];
    StoredOnce(c, mem, v, d.s);
  }

  lemma {:induction false} MoveInEnds(c: Config, ops: seq<Op>, e: Config) returns (d: Config)
    requires Ends(c, ops, e) && DirtyOnly(e.s)
    ensures Ends(c, ops + [Migrate(0.0, 1.0, [0], [])], d)
    ensures d.s.ptt.pages.Keys == {0} && d.s.toNvm == 0 && d.s.ptt.pageBlocks == 1 && Allowed(d.s, Begin)
  {
    var move := Migrate(0.0, 1.0, [0], []);
    DirtyOrders(e.s);
    d := Extend(c, ops, e, move);
    UseGood(e);
    PageMovesIn(e.s, d.s);
    MigratedLoans(e, move, d);
  }

  lemma {:induction false} BeginEnds(c: Config, ops: seq<Op>, m: Config) returns (b: Config)
    requires Ends(c, ops, m)
    requires m.s.ptt.pages.Keys == {0} && m.s.toNvm == 0 && m.s.ptt.pageBlocks == 1 && Allowed(m.s, Begin)
    ensures Ends(c, ops + [Begin], b) && PageOnly(b.s) && b.s.ckpt && b.h.epochDram == 0
  {
    b := Extend(c, ops, m, Begin);
    Begins(m, b);
  }

  lemma {:induction false} CheckpointEnds(c: Config, ops: seq<Op>, m: Config) returns (d: Config)
    requires Ends(c, ops, m)
    requires m.s.ptt.pages.Keys == {0} && m.s.toNvm == 0 && m.s.ptt.pageBlocks == 1 && Allowed(m.s, Begin)
    ensures Ends(c, ops + [Begin] + [Finish], d) && PageOnly(d.s) && !d.s.ckpt && d.h.epochDram == 0
  {
    var b := BeginEnds(c, ops, m);
    d := Extend(c, ops + [Begin], b, Finish);
    Finishes(b.s, d.s);
  }

  lemma {:induction false} SecondEnds(c: Config, ops: seq<Op>, f: Config, w: seq<Byte>) returns (d: Config)
    requires Ends(c, ops, f) && PageOnly(f.s) && !f.s.ckpt && f.h.epochDram == 0 && |w| == 1
    ensures Ends(c, ops + [Store(0, w)], d)
    ensures PageOnly(d.s) && !d.s.ckpt && DramWrites(d.s.ptt) == 1
  {
    UseGood(f);
    Unmapped(f.s);
    d := Extend(c, ops, f, Store(0, w));
    WritesPage(f.s, w, d.s);
    UseGood(d);
  }

  lemma {:induction false} StoredAgain(mem: seq<Block>, v: seq<Byte>, w: seq<Byte>) returns (c: Config, d: Config)
    requires |mem| == 4 && (forall a :: 0 <= a < 4 ==> |mem[a]| == 1) && |v| == |w| == 1
    ensures c == Tiny(mem) && Ends(c, Detour(v, w), d)
    ensures PageOnly(d.s) && !d.s.ckpt && DramWrites(d.s.ptt) == 1
  {
    c := TinyStarts(mem);
    var e := FirstEnds(c, mem, v);
    var ops := [Store(0, v)] + [Migrate(0.0, 1.0, [0], [])];
    var m := MoveInEnds(c, [Store(0, v)], e);
    var f := CheckpointEnds(c, ops, m);
    d := SecondEnds(c, ops + [Begin] + [Finish], f, w);
    assert ops + [Begin] + [Finish] + [Store(0, w)] == Detour(v, w);
  }

  /** The next migration gives a page back although the page table has no capacity beyond its length,
      which is the limit the call is to keep. */
  lemma {:induction false} ReturnLimitExceeded(mem: seq<Block>, v: seq<Byte>, w: seq<Byte>)
    returns (c: Config, d: Config, e: Config)
    requires |mem| == 4 && (forall a :: 0 <= a < 4 ==> |mem[a]| == 1) && |v| == |w| == 1
    ensures var ops := Detour(v, w) + [Migrate(0.0, 1.0, [], [0])];
      c == Tiny(mem) && Starts(c) && Protocol(c, ops) && Exec(c, Detour(v, w)) == Ok(d) && Exec(c, ops) == Ok(e)
    ensures e.s.toNvm > d.s.toNvm + (d.s.ptt.capacity - d.s.ptt.length)
  {
    var ops, move := Detour(v, w), Migrate(0.0, 1.0, [], [0]);
    c, d := StoredAgain(mem, v, w);
    UseGood(d);
    PageOrders(d.s);
    e := Extend(c, ops, d, move);
    PageMovesOut(d.s, e.s);
    ExecPlainly(c, ops, d);
    ExecPlainly(c, ops + [move], e);
  }

  // ----- a write that is refused for ever -----

  /** One physical block, one table entry, and a page table without pages. */
  ghost function Pageless(mem: seq<Block>): Config
    requires |mem| >= 1
  {
    var s := Init(1, 1, 1, 1, 0, mem);
    Config(s, Birth(s))
  }

  lemma {:induction false} PagelessStarts(mem: seq<Block>) returns (c: Config)
    requires |mem| == 4 && forall a :: 0 <= a < 4 ==> |mem[a]| == 1
    ensures c == Pageless(mem) && Starts(c) && Protocol(c, []) && Reaches(c, [], c)
    ensures Allowed(c.s, Migrate(0.0, 1.0, [], [])) && |c.s.att.queues| == 4 && !c.s.ckpt && c.s.ptt.length == 0
  {
    c := Pageless(mem);
    var d := RunReaches(c, []);
    assert Unlocked(0);
    assert RevokeLoans(c.s, []) == Ok(c.s);
    assert ActivePages(c.s.att.entries, 1, 1) == {};
  }

  lemma {:induction false} EpochPasses(c: Config) returns (d: Config)
    requires Starts(c) && Protocol(c, []) && Reaches(c, [], c) && Allowed(c.s, Migrate(0.0, 1.0, [], []))
    ensures var ops := Epoch([], Migrate(0.0, 1.0, [], []), false);
      Protocol(c, ops) && Reaches(c, ops, d) && !d.s.ckpt && StoresNone(ops)
  {
    var move := Migrate(0.0, 1.0, [], []);
    var m := Extend(c, [], c, move);
    MigratedLoans(c, move, m);
    var b := Extend(c, [] + [move], m, Begin);
    Checkpointing(m.s, b.s);
    d := Extend(c, [] + [move] + [Begin], b, Finish);
    Checkpointed(b.s, d.s);
    assert [] + [move] + [Begin] + [Finish] == Epoch([], move, false);
  }

  lemma Checkpointing(s: State, t: State)
    requires StepYields(s, Begin, t)
    ensures t.ckpt
  {
    assert Unlocked(0);
  }

  lemma Checkpointed(s: State, t: State)
    requires StepYields(s, Finish, t)
    ensures !t.ckpt
  {
    assert Unlocked(0);
  }

  /** The first write asks for a new epoch, and after that epoch it asks for one again. */
  lemma {:induction false} RefusedAgain(mem: seq<Block>) returns (c: Config, d: Config)
    requires |mem| == 4 && forall a :: 0 <= a < 4 ==> |mem[a]| == 1
    ensures var ops := Epoch([], Migrate(0.0, 1.0, [], []), false);
      c == Pageless(mem) && Starts(c) && Protocol(c, ops) && Exec(c, ops) == Ok(d)
    ensures |c.s.att.queues| == 4 && |d.s.att.queues| == 4 && Probe(c.s, 0) == Probe(d.s, 0) == NewEpoch
  {
    c := PagelessStarts(mem);
    var e := BeforeAnyStore(c, [], 0);
    d := EpochPasses(c);
    var ops := Epoch([], Migrate(0.0, 1.0, [], []), false);
    ExecPlainly(c, ops, d);
    e := BeforeAnyStore(c, ops, 0);
  }

  // ----- a loaned block written twice -----

  /** While checkpointing, a store to the page takes an entry on loan. */
  lemma {:induction false} TakesLoan(s: State, data: seq<Byte>, t: State)
    requires Inv(s) && PageOnly(s) && s.ckpt && |data| == 1 && StepYields(s, Store(0, data), t)
    ensures 0 in t.att.index
  {
    LiveTag(s, 0);
    assert Unlocked(0);
    var (m, dram) := RouteStore(s, 0).value;
    LoanStoreState(m, 0, true);
  }

  lemma RoomForLoan(s: State)
    requires Inv(s) && PageOnly(s) && |s.att.entries| == 1
    ensures HasRoom(s, 0)
  {
    SettledQueues(s.att);
  }

  lemma {:induction false} LoanEnds(c: Config, ops: seq<Op>, b: Config, w: seq<Byte>) returns (d: Config)
    requires Ends(c, ops, b) && PageOnly(b.s) && b.s.ckpt && |b.s.att.entries| == 1 && |w| == 1
    ensures Ends(c, ops + [Store(0, w)], d) && d.s.ckpt && IsDram(d.s, 0) && 0 in d.s.att.index
  {
    UseGood(b);
    RoomForLoan(b.s);
    d := Extend(c, ops, b, Store(0, w));
    TakesLoan(b.s, w, d.s);
    StepPages(b.s, b.h, Store(0, w), d.s);
  }

  /** Store to a block, let its page move to DRAM, begin a checkpoint, and store to it again. */
  ghost function Loaned(v: seq<Byte>, w: seq<Byte>): seq<Op> {
    [Store(0, v), Migrate(0.0, 1.0, [0], []), Begin, Store(0, w)]
  }

  lemma {:induction false} LoanedEnds(mem: seq<Block>, v: seq<Byte>, w: seq<Byte>) returns (c: Config, d: Config)
    requires |mem| == 4 && (forall a :: 0 <= a < 4 ==> |mem[a]| == 1) && |v| == |w| == 1
    ensures c == Tiny(mem) && Ends(c, Loaned(v, w), d) && d.s.ckpt && IsDram(d.s, 0) && 0 in d.s.att.index
  {
    c := TinyStarts(mem);
    var e := FirstEnds(c, mem, v);
    var ops := [Store(0, v)] + [Migrate(0.0, 1.0, [0], [])];
    var m := MoveInEnds(c, [Store(0, v)], e);
    var b := BeginEnds(c, ops, m);
    d := LoanEnds(c, ops + [Begin], b, w);
    assert ops + [Begin] + [Store(0, w)] == Loaned(v, w);
  }

  /** One more store to the loaned block completes, but names its physical block as one in the DRAM buffer. */
  lemma {:induction false} LoanChargeFails(mem: seq<Block>, v: seq<Byte>, w: seq<Byte>)
    returns (c: Config, d: Config, t: State, to: nat)
    requires |mem| == 4 && (forall a :: 0 <= a < 4 ==> |mem[a]| == 1) && |v| == |w| == 1
    ensures c == Tiny(mem) && Starts(c) && Protocol(c, Loaned(v, w)) && Exec(c, Loaned(v, w)) == Ok(d)
    ensures StoreBlock(d.s, 0, true) == Ok((t, to)) && !Chargeable(d.s, StoreCharge(d.s, 0, to))
  {
    var e;
    c, e := LoanedEnds(mem, v, w);
    ExecPlainly(c, Loaned(v, w), e);
    d, t, to := ChargesExact(c, Loaned(v, w), 0, true);
  }
}
